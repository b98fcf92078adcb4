/** What a shutdown puts on the wire (src/outbound/vision.rs:514-527): one close_notify through TLS, or none past it. */
module Closing {
  import opened Bytes
  import opened Framing
  import opened Sniffer
  import opened Padding
  import opened Uplink
  import opened UplinkRuns
  import O = Outgoing

  /** How many close_notify alerts are among the items. */
  function Notices(items: seq<O.Out>): nat {
    if items == [] then 0 else (if items[0].CloseNotify? then 1 else 0) + Notices(items[1..])
  }

  lemma {:induction false} NoticesAppend(a: seq<O.Out>, b: seq<O.Out>)
    ensures Notices(a + b) == Notices(a) + Notices(b)
  {
    if a == [] {
      NilLeft(b);
    } else {
      DropShort(a, b, 1);
      NoticesAppend(a[1..], b);
    }
  }

  lemma {:induction false} NoNotices(items: seq<O.Out>)
    requires forall i :: 0 <= i < |items| ==> !items[i].CloseNotify?
    ensures Notices(items) == 0
  {
    if items != [] {
      NoNotices(items[1..]);
    }
  }

  /** TLS has been told to close exactly when one close_notify has been handed down, and no more than one ever is. */
  ghost predicate OneNotice(u: Up) {
    Notices(Log(u)) == if u.w.closing then 1 else 0
  }

  // ---------------------------------------------------------------------------
  // Settling sends no close_notify
  // ---------------------------------------------------------------------------

  lemma {:induction false} DrainNotices(u: Up)
    ensures var q := Drained(u); Notices(Log(q.u)) == Notices(Log(u)) && q.u.w.closing == u.w.closing
    decreases |u.pending|
  {
    if u.pending != [] {
      hide O.TlsWrite, Notices;
      TlsWriteNotices(u.w, u.pending);
      var p := O.TlsWrite(u.w, u.pending);
      if p.r.Ready? && p.r.n > 0 {
        DrainNotices(u.(pending := u.pending[p.r.n..], w := p.w));
      }
    }
  }

  lemma TlsWriteNotices(w: O.Wire, d: bytes)
    ensures var p := O.TlsWrite(w, d);
            Notices(p.w.sent + p.w.queue) == Notices(w.sent + w.queue) && p.w.closing == w.closing
  {
    hide O.TlsWrite, Notices;
    var p := O.TlsWrite(w, d);
    TlsWriteLog(w, d);
    var more := if p.r.Ready? then O.SealedOf(d[..p.r.n]) else [];
    NoNotices(more);
    NoticesAppend(w.sent + w.queue, more);
  }

  lemma SettleNotices(u: Up)
    ensures var q := Settled(u); Notices(Log(q.u)) == Notices(Log(u)) && q.u.w.closing == u.w.closing
  {
    hide Drained, Notices, O.TlsFlush;
    DrainNotices(u);
    FlushLog(Drained(u).u.w);
  }

  // ---------------------------------------------------------------------------
  // One shutdown
  // ---------------------------------------------------------------------------

  /**
   * A shutdown that completes has closed the stream. Through TLS: everything handed down is on the socket, then one
   * close_notify if none was there before, then the end of the write half, and TLS is closed. Past TLS: the socket gets
   * the end of its write half and nothing else.
   */
  lemma ShutdownCloses(u: Up)
    requires Safe(u) && OneNotice(u) && ShuttingDown(u).r.Ready?
    ensures var q := ShuttingDown(u).u;
            && q.w.sent != [] && q.w.sent[|q.w.sent| - 1] == O.Fin && q.w.queue == []
            && OneNotice(q)
            && (u.raw ==> q.w.sent == u.w.sent + [O.Fin])
            && (!q.raw ==> q.w.closing && Notices(q.w.sent) == 1)
            && (!q.raw && !u.w.closing ==> |q.w.sent| >= 2 && q.w.sent[|q.w.sent| - 2] == O.CloseNotify)
  {
    hide Settled, Notices, SnifferInv, O.TlsShutdown, O.RawShutdown;
    var s, q := Settled(u).u, ShuttingDown(u).u;
    SettleKeeps(u);
    SettleNotices(u);
    assert q.w.sent + [] == q.w.sent;
    if s.raw {
      RawCloses(s.w);
      assert s.w.sent + [] == s.w.sent;
      FinAdds(s.w.sent);
    } else {
      TlsCloses(s.w);
      if s.w.closing {
        FinAdds(Log(s));
      } else {
        NoticeAdds(Log(s));
      }
    }
  }

  lemma RawCloses(w: O.Wire)
    requires O.RawShutdown(w).r.Ready?
    ensures var v := O.RawShutdown(w).w;
            v.queue == w.queue && v.closing == w.closing && v.sent == w.sent + [O.Fin]
  {
  }

  lemma FinAdds(items: seq<O.Out>)
    ensures Notices(items + [O.Fin]) == Notices(items)
  {
    NoticesAppend(items, [O.Fin]);
    NoNotices([O.Fin]);
  }

  lemma NoticeAdds(items: seq<O.Out>)
    ensures Notices(items + [O.CloseNotify, O.Fin]) == Notices(items) + 1
  {
    NoticesAppend(items, [O.CloseNotify, O.Fin]);
    NoNotices([O.Fin]);
    assert [O.CloseNotify, O.Fin][1..] == [O.Fin];
  }

  /** What a completed shutdown of TLS puts on the socket. */
  lemma TlsCloses(w: O.Wire)
    requires O.TlsShutdown(w).r.Ready?
    ensures var v := O.TlsShutdown(w).w;
            && v.queue == [] && v.closing
            && v.sent == (w.sent + w.queue) + (if w.closing then [O.Fin] else [O.CloseNotify, O.Fin])
  {
    if !w.closing {
      assert [O.CloseNotify] + [O.Fin] == [O.CloseNotify, O.Fin];
    }
  }

  /** A shutdown that has not completed has told TLS to close at most once. */
  lemma ShutdownNotices(u: Up)
    requires Safe(u) && OneNotice(u)
    ensures OneNotice(ShuttingDown(u).u)
  {
    hide Settled, Notices, SnifferInv;
    var s, q := Settled(u), ShuttingDown(u);
    SettleNotices(u);
    if q.r.Ready? {
      ShutdownCloses(u);
    } else if s.r.Ready? && !s.u.raw {
      TlsClosing(s.u.w);
    }
  }

  lemma TlsClosing(w: O.Wire)
    requires !O.TlsShutdown(w).r.Ready?
    ensures var v := O.TlsShutdown(w).w;
            v.closing && Notices(v.sent + v.queue) == Notices(w.sent + w.queue) + if w.closing then 0 else 1
  {
    var notice: seq<O.Out> := if w.closing then [] else [O.CloseNotify];
    var c := O.Called(w).(queue := w.queue + notice, closing := true);
    assert w.queue + [] == w.queue;
    O.EmitKeeps(c, if O.Next(w).Wait? then O.Next(w).emit else 0);
    Assoc(w.sent, w.queue, notice);
    NoticesAppend(w.sent + w.queue, notice);
    assert notice != [] ==> notice[1..] == [];
  }

  // ---------------------------------------------------------------------------
  // Runs
  // ---------------------------------------------------------------------------

  lemma RawWriteNotices(w: O.Wire, d: bytes)
    requires w.queue == []
    ensures var p := O.RawWrite(w, d);
            Notices(p.w.sent + p.w.queue) == Notices(w.sent + w.queue) && p.w.closing == w.closing
  {
    hide O.RawWrite, Notices;
    var p := O.RawWrite(w, d);
    RawAppend(w, d);
    var more := if p.r.Ready? then O.RawOf(d[..p.r.n]) else [];
    NoNotices(more);
    NoticesAppend(w.sent, more);
    assert w.sent + [] == w.sent && p.w.sent + [] == p.w.sent;
  }

  lemma WriteNotices(u: Up, buf: bytes, draws: seq<nat>)
    requires Safe(u)
    ensures var q := Writing(u, buf, draws); Notices(Log(q.u)) == Notices(Log(u)) && q.u.w.closing == u.w.closing
  {
    hide Settled, Notices, Framed, O.TlsWrite, O.RawWrite, SnifferInv;
    var s := Settled(u);
    SettleNotices(u);
    SettleKeeps(u);
    if s.r.Ready? {
      if s.u.raw {
        RawWriteNotices(s.u.w, buf);
      } else if !s.u.p.padding {
        TlsWriteNotices(s.u.w, buf);
      }
      FramedNotices(s.u, buf, draws);
      SettleNotices(Framed(s.u, buf, draws));
    }
  }

  lemma FramedNotices(u: Up, buf: bytes, draws: seq<nat>)
    ensures Framed(u, buf, draws).w == u.w
  {
  }

  lemma FlushNotices(u: Up)
    requires Safe(u)
    ensures var q := Flushing(u); Notices(Log(q.u)) == Notices(Log(u)) && q.u.w.closing == u.w.closing
  {
    hide Settled, Notices, SnifferInv;
    SettleNotices(u);
    FlushLog(Settled(u).u.w);
  }

  lemma StepOneNotice(m: Session, call: Call, header: bytes)
    requires Good(m, header) && OneNotice(m.u)
    ensures OneNotice(Step(m, call).u)
  {
    hide Writing, Flushing, ShuttingDown, Notices, Carries, Safe;
    match call {
      case Write(buf, draws) => WriteNotices(m.u, buf, draws);
      case Flush => FlushNotices(m.u);
      case Shutdown => ShutdownNotices(m.u);
      case Sniff(packet) =>
    }
  }

  lemma {:induction false} StepsOneNotice(m: Session, calls: seq<Call>, header: bytes)
    requires Good(m, header) && OneNotice(m.u)
    ensures OneNotice(Steps(m, calls).u)
    decreases |calls|
  {
    hide Step, OneNotice, Good;
    if calls != [] {
      StepOneNotice(m, calls[0], header);
      StepKeepsGood(m, calls[0], header);
      StepsOneNotice(Step(m, calls[0]), calls[1..], header);
    }
  }

  lemma StepKeepsGood(m: Session, call: Call, header: bytes)
    requires Good(m, header)
    ensures Good(Step(m, call), header)
  {
    hide Perform, Carries;
    if !m.failed {
      StepGood(m, call, header);
    }
  }

  /** The first write hands down no close_notify. */
  lemma BeginsOneNotice(id: Uuid, answers: seq<O.Answer>, header: bytes, payload: bytes, draws: seq<nat>, m: Session)
    requires Begins(id, answers, header, payload, draws, m)
    ensures OneNotice(m.u)
  {
    hide Notices, PlanWire, FirstPlan, AllWritten, AllFlushed, Filtered;
    var plan := FirstPlan(Opened(id, answers), payload);
    var w := Opened(id, answers).w;
    var d := header + PlanWire(plan, draws);
    EmptyNotices();
    AllWrittenNotices(w, d);
    AllFlushedNotices(AllWritten(w, d).w);
  }

  lemma EmptyNotices()
    ensures Notices([] + []) == 0
  {
  }

  lemma {:induction false} AllWrittenNotices(w: O.Wire, d: bytes)
    ensures var p := AllWritten(w, d);
            Notices(p.w.sent + p.w.queue) == Notices(w.sent + w.queue) && p.w.closing == w.closing
    decreases |d| + |w.answers|
  {
    if d != [] && w.answers != [] {
      hide O.TlsWrite, Notices;
      TlsWriteNotices(w, d);
      TlsWriteAnswers(w, d);
      var p := O.TlsWrite(w, d);
      if !p.r.Error? && p.r != O.Ready(0) {
        AllWrittenNotices(p.w, if p.r.Ready? then d[p.r.n..] else d);
      }
    }
  }

  lemma {:induction false} AllFlushedNotices(w: O.Wire)
    ensures var p := AllFlushed(w);
            Notices(p.w.sent + p.w.queue) == Notices(w.sent + w.queue) && p.w.closing == w.closing
    decreases |w.answers|
  {
    if w.answers != [] {
      hide Notices;
      FlushLog(w);
      if O.TlsFlush(w).r.Pending? {
        AllFlushedNotices(O.TlsFlush(w).w);
      }
    }
  }

  /**
   * On every run: at most one close_notify is ever handed down, and a shutdown that completes leaves the end of the write
   * half as the last thing on the socket, with that close_notify before it exactly when the stream is still inside TLS.
   */
  lemma RunCloses(id: Uuid, answers: seq<O.Answer>, header: bytes, payload: bytes, draws: seq<nat>,
                  start: Session, calls: seq<Call>)
    requires Begins(id, answers, header, payload, draws, start)
    ensures var m := Steps(start, calls);
            && OneNotice(m.u)
            && (ShuttingDown(m.u).r.Ready? ==>
                  var q := ShuttingDown(m.u).u;
                  && q.w.queue == [] && q.w.sent != [] && q.w.sent[|q.w.sent| - 1] == O.Fin
                  && (m.u.raw ==> q.w.sent == m.u.w.sent + [O.Fin])
                  && (!q.raw ==> q.w.closing && Notices(q.w.sent) == 1)
                  && (!q.raw && !m.u.w.closing ==> |q.w.sent| >= 2 && q.w.sent[|q.w.sent| - 2] == O.CloseNotify))
  {
    hide Begins, Steps, Carries, ShuttingDown, OneNotice, Notices;
    BeginsGood(id, answers, header, payload, draws, start);
    BeginsOneNotice(id, answers, header, payload, draws, start);
    StepsGood(start, calls, header);
    StepsOneNotice(start, calls, header);
    if ShuttingDown(Steps(start, calls).u).r.Ready? {
      ShutdownCloses(Steps(start, calls).u);
    }
  }
}
