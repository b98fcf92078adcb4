/** Whole runs of the write path, from the first write on, with the read path sniffing in between. */
module UplinkRuns {
  import opened Bytes
  import opened Framing
  import opened Sniffer
  import opened Reshaping
  import opened Padding
  import opened PaddingRuns
  import opened Uplink
  import O = Outgoing

  datatype Call = Write(buf: bytes, draws: seq<nat>) | Flush | Shutdown | Sniff(packet: bytes)

  /** `accepted` is what the writer was told has been written; a run stops at its first error. */
  datatype Session = Session(u: Up, accepted: bytes, failed: bool)

  function Perform(u: Up, call: Call): UpPolled {
    match call
    case Write(buf, draws) => Writing(u, buf, draws)
    case Flush => Flushing(u)
    case Shutdown => ShuttingDown(u)
    case Sniff(packet) => UpPolled(u.(t := Filtered(u.t, packet)), O.Ready(0))
  }

  function Step(m: Session, call: Call): Session {
    if m.failed then m
    else
      var q := Perform(m.u, call);
      Session(q.u, m.accepted + (if call.Write? && q.r.Ready? && q.r.n <= |call.buf| then call.buf[..q.r.n] else []),
              q.r.Error?)
  }

  function Steps(m: Session, calls: seq<Call>): Session
    decreases |calls|
  {
    if calls == [] then m else Steps(Step(m, calls[0]), calls[1..])
  }

  function Opened(id: Uuid, answers: seq<O.Answer>): Up {
    Up(FRESH_TRAFFIC, Pad(true, false, Some(id)), false, [], O.Wire([], [], false, 0, answers))
  }

  /** The session after a first write that came through. */
  ghost predicate Begins(id: Uuid, answers: seq<O.Answer>, header: bytes, payload: bytes, draws: seq<nat>, m: Session) {
    var q := FirstWritten(Opened(id, answers), header, payload, draws);
    q.r.Ready? && m == Session(q.u, payload, false)
  }

  ghost predicate Good(m: Session, header: bytes) {
    Safe(m.u) && (!m.failed ==> Carries(m.u, header, m.accepted))
  }

  // ---------------------------------------------------------------------------
  // The first write
  // ---------------------------------------------------------------------------

  lemma {:induction false} AllWrittenLog(w: O.Wire, d: bytes)
    requires O.NoRaw(w.queue) && O.NoRaw(w.sent)
    ensures var p := AllWritten(w, d);
            && O.NoRaw(p.w.queue) && O.NoRaw(p.w.sent)
            && (p.r.Ready? ==> O.Plaintext(p.w.sent + p.w.queue) == O.Plaintext(w.sent + w.queue) + d)
    decreases |d| + |w.answers|
  {
    hide O.TlsWrite, O.Plaintext;
    if d == [] {
      assert O.Plaintext(w.sent + w.queue) + [] == O.Plaintext(w.sent + w.queue);
    } else if w.answers != [] {
      var p := O.TlsWrite(w, d);
      TlsWriteLog(w, d);
      assert w.sent + w.queue + [] == w.sent + w.queue;
      TlsWriteAnswers(w, d);
      if p.r.Ready? && p.r.n > 0 {
        TlsWritePlain(w, d);
        Assoc(O.Plaintext(w.sent + w.queue), d[..p.r.n], d[p.r.n..]);
        assert d[..p.r.n] + d[p.r.n..] == d;
        AllWrittenLog(p.w, d[p.r.n..]);
      } else if p.r.Pending? {
        AllWrittenLog(p.w, d);
      }
    }
  }

  lemma TlsWriteAnswers(w: O.Wire, d: bytes)
    requires w.answers != []
    ensures O.TlsWrite(w, d).w.answers == w.answers[1..]
  {
  }

  lemma {:induction false} AllFlushedLog(w: O.Wire)
    requires O.NoRaw(w.queue) && O.NoRaw(w.sent)
    ensures var p := AllFlushed(w);
            && O.NoRaw(p.w.queue) && O.NoRaw(p.w.sent) && p.w.sent + p.w.queue == w.sent + w.queue
            && (p.r.Ready? ==> p.w.queue == [])
    decreases |w.answers|
  {
    if w.answers != [] {
      FlushLog(w);
      if O.TlsFlush(w).r.Pending? {
        AllFlushedLog(O.TlsFlush(w).w);
      }
    }
  }

  /** The framer's run behind the first write. */
  lemma FirstInStep(id: Uuid, answers: seq<O.Answer>, payload: bytes, draws: seq<nat>)
    ensures var plan := FirstPlan(Opened(id, answers), payload);
            && Unpadding(FRESH, PlanWire(plan, draws)) == Unpadded(Peer(plan.p), [], payload, true)
            && (plan.p.uuid.Some? ==> plan.p.padding) && (plan.p.direct ==> !plan.p.padding)
  {
    hide Unpadding, PlanWire, Planned, WireOf, Filtered;
    var u := Opened(id, answers);
    if payload == [] {
      LastConveys(Frame(Some(id), CMD_PADDING_CONTINUE, CAMOUFLAGE, true), Pad(true, false, None), [], draws);
      NilLeft(payload);
    } else {
      StartSound(id, None);
      var r := Start(id, None);
      WriteInStep(r, payload, draws);
      NextSound(r, PaddingRuns.Write(payload, draws));
      NilLeft(payload);
      NilLeft(PlanWire(FirstPlan(u, payload), draws));
    }
  }

  lemma BeginsGood(id: Uuid, answers: seq<O.Answer>, header: bytes, payload: bytes, draws: seq<nat>, m: Session)
    requires Begins(id, answers, header, payload, draws, m)
    ensures Good(m, header) && !m.u.raw
    ensures m.u.pending == [] && m.u.w.queue == []
  {
    hide Unpadding, PlanWire, FirstPlan, O.Plaintext, O.Bypassed, AllFlushed, Filtered;
    var u := Opened(id, answers);
    var plan := FirstPlan(u, payload);
    var framed := PlanWire(plan, draws);
    FirstInStep(id, answers, payload, draws);
    FilterKeepsInv(u.t, payload);
    AllWrittenLog(u.w, header + framed);
    var w := AllWritten(u.w, header + framed).w;
    AllFlushedLog(w);
    EmptyLog();
    NilLeft(header + framed);
    NoRawBypassed(Log(m.u));
    assert O.Plaintext(Log(m.u)) + [] == O.Plaintext(Log(m.u));
    Cut(header, framed);
    assert payload + [] == payload;
  }

  lemma EmptyLog()
    ensures O.Plaintext([] + []) == []
  {
  }

  // ---------------------------------------------------------------------------
  // Runs
  // ---------------------------------------------------------------------------

  lemma StepGood(m: Session, call: Call, header: bytes)
    requires Good(m, header) && !m.failed
    ensures Good(Step(m, call), header)
    ensures m.u.raw && !call.Sniff? ==> BypassesTls(m.u, Step(m, call).u)
  {
    hide Writing, Flushing, ShuttingDown, Carries, Filtered, SnifferInv;
    assert m.accepted + [] == m.accepted;
    match call {
      case Write(buf, draws) =>
        WriteSafe(m.u, buf, draws);
        AcceptsAtMost(m.u, buf, draws);
        if !Writing(m.u, buf, draws).r.Error? {
          WriteCarries(m.u, header, m.accepted, buf, draws);
        }
      case Flush =>
        FlushKeeps(m.u, header, m.accepted);
      case Shutdown =>
        ShutdownKeeps(m.u, header, m.accepted);
      case Sniff(packet) =>
        FilterKeepsInv(m.u.t, packet);
        CarriesOnly(m.u, Step(m, call).u, header, m.accepted);
    }
  }

  lemma AcceptsAtMost(u: Up, buf: bytes, draws: seq<nat>)
    requires Ordered(u)
    ensures Writing(u, buf, draws).r.Ready? ==> Writing(u, buf, draws).r.n <= |buf|
  {
    hide Settled, O.TlsWrite, O.RawWrite, Framed;
  }

  lemma {:induction false} StepsGood(m: Session, calls: seq<Call>, header: bytes)
    requires Good(m, header)
    ensures Good(Steps(m, calls), header)
    decreases |calls|
  {
    if calls != [] {
      if !m.failed {
        StepGood(m, calls[0], header);
      }
      StepsGood(Step(m, calls[0]), calls[1..], header);
    }
  }

  /**
   * Uplink, over every run of writes, flushes, shutdowns and sniffed packets, with short writes and
   * pauses anywhere:
   * - the socket's output is TLS output up to one point and raw output from there on, even if the run
   *   ends in an error; no raw byte precedes the switch, and at the switch TLS holds nothing back;
   * - until an error, the peer, past the VLESS header, decodes the TLS bytes and the waiting frames
   *   without error and in step with the framer, and that followed by the raw bytes is exactly the first
   *   payload and everything reported as written.
   */
  lemma UplinkRun(id: Uuid, answers: seq<O.Answer>, header: bytes, payload: bytes, draws: seq<nat>,
                  start: Session, calls: seq<Call>)
    requires Begins(id, answers, header, payload, draws, start)
    ensures var m := Steps(start, calls);
            && SplitOnce(m.u.w.sent)
            && (!m.u.raw ==> O.NoRaw(Log(m.u)))
            && (m.u.raw ==> m.u.w.queue == [] && m.u.pending == [] && m.u.p.direct)
            && (!m.failed ==> Carries(m.u, header, m.accepted))
  {
    hide Carries, Steps, Begins;
    BeginsGood(id, answers, header, payload, draws, start);
    StepsGood(start, calls, header);
    var u := Steps(start, calls).u;
    if !u.raw {
      NoRawSplits(u.w.sent);
    }
  }

  /** Once writes bypass TLS, no later call writes, flushes or closes TLS: only raw items are added. */
  lemma {:induction false} NoTlsAfterSwitch(m: Session, calls: seq<Call>, header: bytes)
    requires Good(m, header) && m.u.raw
    ensures BypassesTls(m.u, Steps(m, calls).u)
    decreases |calls|
  {
    hide Carries, Perform;
    if calls == [] || m.failed {
      assert m.u.w.sent[|m.u.w.sent|..] == [];
      if calls != [] {
        NoTlsAfterSwitch(m, calls[1..], header);
      }
    } else {
      var next := Step(m, calls[0]);
      StepGood(m, calls[0], header);
      if calls[0].Sniff? {
        SniffBypasses(m, calls[0]);
      }
      NoTlsAfterSwitch(next, calls[1..], header);
      OnlyRawTwice(m.u.w.sent, next.u.w.sent, Steps(m, calls).u.w.sent);
    }
  }

  lemma SniffBypasses(m: Session, call: Call)
    requires Ordered(m.u) && m.u.raw && !m.failed && call.Sniff?
    ensures BypassesTls(m.u, Step(m, call).u)
  {
    assert m.u.w.sent[|m.u.w.sent|..] == [];
  }

  lemma OnlyRawTwice(a: seq<O.Out>, b: seq<O.Out>, c: seq<O.Out>)
    requires a <= b <= c && O.OnlyRaw(b[|a|..]) && O.OnlyRaw(c[|b|..])
    ensures O.OnlyRaw(c[|a|..])
  {
    forall i | 0 <= i < |c[|a|..]|
      ensures c[|a|..][i].Raw? || c[|a|..][i].Fin?
    {
      assert c[|a|..][i] == if |a| + i < |b| then b[|a|..][i] else c[|b|..][|a| + i - |b|];
    }
  }

  /**
   * A flush that completes has put everything on the socket: what the peer decodes from the TLS output,
   * followed by the raw bytes, is all that was accepted so far.
   */
  lemma FlushDelivers(id: Uuid, answers: seq<O.Answer>, header: bytes, payload: bytes, draws: seq<nat>,
                      start: Session, calls: seq<Call>)
    requires Begins(id, answers, header, payload, draws, start)
    ensures var before := Steps(start, calls);
            var m := Step(before, Flush);
            var wire := O.Plaintext(m.u.w.sent);
            !before.failed && Flushing(before.u).r.Ready? ==>
              && m.accepted == before.accepted
              && header <= wire
              && var r := Unpadding(FRESH, wire[|header|..]);
                 r.ok && r.rest == [] && r.u == Peer(m.u.p) && r.out + O.Bypassed(m.u.w.sent) == m.accepted
  {
    hide Unpadding, Steps, Begins, Flushing;
    BeginsGood(id, answers, header, payload, draws, start);
    StepsGood(start, calls, header);
    var m := Steps(start, calls);
    FlushKeeps(m.u, header, m.accepted);
    var u := Flushing(m.u).u;
    assert m.accepted + [] == m.accepted;
    assert u.w.sent + [] == u.w.sent && O.Plaintext(u.w.sent) + [] == O.Plaintext(u.w.sent);
  }

  // ---------------------------------------------------------------------------
  // Progress
  // ---------------------------------------------------------------------------

  /** The layers below never fail, and take at least one byte whenever they take any. */
  ghost predicate Obliging(answers: seq<O.Answer>) {
    forall i | 0 <= i < |answers| :: !answers[i].Fail? && (answers[i].Done? ==> answers[i].n > 0)
  }

  /** How many of the answers come through. */
  function Dones(answers: seq<O.Answer>): nat {
    if answers == [] then 0 else (if answers[0].Done? then 1 else 0) + Dones(answers[1..])
  }

  /** What a flush still needs: one answer for each waiting byte, one for a due switch, one for the flush itself. */
  function Needs(u: Up): nat {
    |u.pending| + (if u.p.direct && !u.raw then 1 else 0) + 1
  }

  ghost predicate Supplied(u: Up, needs: nat) {
    Obliging(u.w.answers) && Dones(u.w.answers) >= needs
  }

  /** `flush().await`: flush polls until one is ready or fails. */
  function FlushedFully(u: Up): UpPolled
    decreases |u.w.answers|
  {
    var q := Flushing(u);
    if q.r.Pending? && |q.u.w.answers| < |u.w.answers| then FlushedFully(q.u) else q
  }

  lemma AnswerOf(w: O.Wire)
    requires Obliging(w.answers) && Dones(w.answers) > 0
    ensures w.answers != [] && O.Next(w) == w.answers[0] && Obliging(w.answers[1..])
    ensures Dones(w.answers) == (if O.Next(w).Done? then 1 else 0) + Dones(w.answers[1..])
    ensures !O.Next(w).Fail? && (O.Next(w).Done? ==> O.Next(w).n > 0)
  {
  }

  lemma {:induction false} DrainSupplied(u: Up, extra: nat)
    requires Supplied(u, |u.pending| + extra) && extra > 0
    ensures var q := Drained(u);
            && !q.r.Error? && q.u.p == u.p && q.u.raw == u.raw
            && Supplied(q.u, |q.u.pending| + extra)
            && |q.u.w.answers| <= |u.w.answers| && (q.r.Pending? ==> |q.u.w.answers| < |u.w.answers|)
    decreases |u.pending|
  {
    if u.pending != [] {
      hide Dones, Obliging;
      AnswerOf(u.w);
      var p := O.TlsWrite(u.w, u.pending);
      if p.r.Ready? {
        DrainSupplied(u.(pending := u.pending[p.r.n..], w := p.w), extra);
      }
    }
  }

  lemma SettleSupplied(u: Up)
    requires Supplied(u, Needs(u))
    ensures var q := Settled(u);
            && !q.r.Error? && Supplied(q.u, Needs(q.u))
            && |q.u.w.answers| <= |u.w.answers| && (q.r.Pending? ==> |q.u.w.answers| < |u.w.answers|)
  {
    hide Drained, Dones, Obliging;
    DrainSupplied(u, Needs(u) - |u.pending|);
    var d := Drained(u);
    if d.r.Ready? && d.u.p.direct && !d.u.raw {
      AnswerOf(d.u.w);
    }
  }

  lemma FlushSupplied(u: Up)
    requires Supplied(u, Needs(u))
    ensures var q := Flushing(u);
            && !q.r.Error?
            && (q.r.Pending? ==> Supplied(q.u, Needs(q.u)) && |q.u.w.answers| < |u.w.answers|)
  {
    hide Settled, Dones, Obliging;
    SettleSupplied(u);
    var s := Settled(u);
    if s.r.Ready? {
      AnswerOf(s.u.w);
    }
  }

  /**
   * Progress: from every state of every run without an error, when the layers below go on to answer, with any pauses
   * in between, once for each waiting byte and twice more, an awaited flush completes. Then what the peer decodes from
   * the socket's TLS output, followed by the raw bytes, is everything accepted.
   */
  lemma {:induction false} EverythingIsSent(u: Up, header: bytes, accepted: bytes)
    requires Safe(u) && Carries(u, header, accepted) && Supplied(u, Needs(u))
    ensures var q := FlushedFully(u);
            var wire := O.Plaintext(q.u.w.sent);
            && q.r.Ready? && header <= wire
            && var r := Unpadding(FRESH, wire[|header|..]);
               r.ok && r.rest == [] && r.u == Peer(q.u.p) && r.out + O.Bypassed(q.u.w.sent) == accepted
    decreases |u.w.answers|
  {
    hide Unpadding, Flushing, Needs, Supplied, Safe, O.Plaintext, O.Bypassed;
    var q := Flushing(u);
    FlushSupplied(u);
    FlushKeeps(u, header, accepted);
    if q.r.Pending? {
      EverythingIsSent(q.u, header, accepted);
    } else {
      assert q.u.w.sent + [] == q.u.w.sent && O.Plaintext(q.u.w.sent) + [] == O.Plaintext(q.u.w.sent);
    }
  }

  /** The same at the end of a run. */
  lemma RunIsSent(id: Uuid, answers: seq<O.Answer>, header: bytes, payload: bytes, draws: seq<nat>,
                  start: Session, calls: seq<Call>)
    requires Begins(id, answers, header, payload, draws, start)
    ensures var m := Steps(start, calls);
            var q := FlushedFully(m.u);
            var wire := O.Plaintext(q.u.w.sent);
            !m.failed && Supplied(m.u, |m.u.pending| + 2) ==>
              && q.r.Ready? && header <= wire
              && var r := Unpadding(FRESH, wire[|header|..]);
                 r.ok && r.rest == [] && r.out + O.Bypassed(q.u.w.sent) == m.accepted
  {
    hide Unpadding, Steps, Begins, FlushedFully, Carries, Dones;
    BeginsGood(id, answers, header, payload, draws, start);
    StepsGood(start, calls, header);
    var m := Steps(start, calls);
    if !m.failed && Supplied(m.u, |m.u.pending| + 2) {
      EverythingIsSent(m.u, header, m.accepted);
    }
  }

  lemma {:induction false} AllWrittenSupplied(w: O.Wire, d: bytes)
    requires Obliging(w.answers) && Dones(w.answers) > |d|
    ensures var p := AllWritten(w, d);
            p.r.Ready? && Obliging(p.w.answers) && Dones(p.w.answers) > 0
    decreases |d| + |w.answers|
  {
    if d != [] {
      hide Dones, Obliging;
      AnswerOf(w);
      var p := O.TlsWrite(w, d);
      AllWrittenSupplied(p.w, if p.r.Ready? then d[p.r.n..] else d);
    }
  }

  lemma {:induction false} AllFlushedSupplied(w: O.Wire)
    requires Obliging(w.answers) && Dones(w.answers) > 0
    ensures AllFlushed(w).r.Ready?
    decreases |w.answers|
  {
    hide Dones, Obliging;
    AnswerOf(w);
    var p := O.TlsFlush(w);
    if p.r.Pending? {
      AllFlushedSupplied(p.w);
    }
  }

  /** The first write goes on through short writes and pauses: one answer for each byte and one more complete it. */
  lemma FirstSupplied(u: Up, header: bytes, payload: bytes, draws: seq<nat>)
    requires Supplied(u, |header| + |PlanWire(FirstPlan(u, payload), draws)| + 1)
    ensures FirstWritten(u, header, payload, draws).r.Ready?
  {
    hide PlanWire, FirstPlan, AllWritten, AllFlushed, Obliging, Dones, Filtered;
    var d := header + PlanWire(FirstPlan(u, payload), draws);
    AllWrittenSupplied(u.w, d);
    AllFlushedSupplied(AllWritten(u.w, d).w);
  }

  lemma {:induction false} ObligingDrains(u: Up)
    requires Obliging(u.w.answers)
    ensures !Drained(u).r.Error? && Obliging(Drained(u).u.w.answers)
    decreases |u.pending|
  {
    if u.pending != [] {
      ObligingRest(u.w);
      hide Obliging;
      var p := O.TlsWrite(u.w, u.pending);
      if p.r.Ready? {
        ObligingDrains(u.(pending := u.pending[p.r.n..], w := p.w));
      }
    }
  }

  lemma ObligingRest(w: O.Wire)
    requires Obliging(w.answers)
    ensures Obliging(O.Rest(w).answers) && !O.Next(w).Fail? && (O.Next(w).Done? ==> O.Next(w).n > 0)
  {
  }

  lemma ObligingSettles(u: Up)
    requires Obliging(u.w.answers)
    ensures !Settled(u).r.Error?
  {
    hide Obliging;
    ObligingDrains(u);
    ObligingRest(Drained(u).u.w);
  }

  /** A write on layers that oblige takes at least one byte, or pauses after using up answers; while padding lasts, all. */
  lemma WriteSupplied(u: Up, buf: bytes, draws: seq<nat>)
    requires Supplied(u, Needs(u)) && buf != []
    ensures var q := Writing(u, buf, draws);
            && !q.r.Error?
            && (q.r.Pending? ==> |q.u.w.answers| < |u.w.answers|)
            && (q.r.Ready? ==> 0 < q.r.n <= |buf|)
            && (q.r.Ready? && Settled(u).u.p.padding ==> q.r.n == |buf|)
  {
    SettleSupplied(u);
    var s := Settled(u);
    if s.r.Ready? {
      AnswerOf(s.u.w);
      ObligingSettles(Framed(s.u, buf, draws));
    }
    hide Settled, Dones, Obliging, Framed, Filtered;
  }

  /** A shutdown on such layers completes, or pauses and can go on. */
  lemma ShutdownSupplied(u: Up)
    requires Supplied(u, Needs(u))
    ensures var q := ShuttingDown(u);
            && !q.r.Error?
            && (q.r.Pending? ==> Supplied(q.u, Needs(q.u)) && |q.u.w.answers| < |u.w.answers|)
  {
    hide Settled, Dones, Obliging;
    SettleSupplied(u);
    var s := Settled(u);
    if s.r.Ready? {
      AnswerOf(s.u.w);
    }
  }

  /** Each write that gets as far as framing or passing on shows its bytes to the sniffer, once, before anything else. */
  lemma WriteSniffs(u: Up, buf: bytes, draws: seq<nat>)
    requires Ordered(u)
    ensures var q := Writing(u, buf, draws);
            && (q.r.Ready? ==> q.u.t == Filtered(u.t, buf))
            && (q.u.t == u.t || q.u.t == Filtered(u.t, buf))
            && (q.r.Ready? && u.p.padding ==> q.u.p == Padded(u.p, Filtered(u.t, buf), buf).p)
  {
    hide Settled, Filtered, PlanWire, Padded, O.TlsWrite, O.RawWrite;
    SettledKeeps(u);
    var s := Settled(u).u;
    SettleKeeps(u);
    FramedOrdered(s, buf, draws);
  }

  /** The framed write leaves the framer and the sniffer as the plan says, however far it then gets. */
  lemma FramedOrdered(u: Up, buf: bytes, draws: seq<nat>)
    ensures var v := Settled(Framed(u, buf, draws)).u;
            v.p == Padded(u.p, Filtered(u.t, buf), buf).p && v.t == Filtered(u.t, buf)
  {
    hide Drained, Filtered, PlanWire, Padded;
    DrainedKeeps(Framed(u, buf, draws));
  }

  lemma {:induction false} DrainedKeeps(u: Up)
    ensures Drained(u).u.p == u.p && Drained(u).u.t == u.t && Drained(u).u.raw == u.raw
    decreases |u.pending|
  {
    if u.pending != [] {
      hide O.TlsWrite;
      var p := O.TlsWrite(u.w, u.pending);
      if p.r.Ready? && p.r.n > 0 {
        DrainedKeeps(u.(pending := u.pending[p.r.n..], w := p.w));
      }
    }
  }

  /** With no first payload the header goes out beside 16 + 5 bytes of frame and 900 to 1399 bytes of padding. */
  lemma CamouflageSize(u: Up, draws: seq<nat>)
    requires u.p.uuid.Some?
    ensures 921 <= |PlanWire(FirstPlan(u, []), draws)| < 1421
  {
    hide FrameWire, PaddingLen;
    var f := Frame(u.p.uuid, CMD_PADDING_CONTINUE, CAMOUFLAGE, true);
    OneFrame(f, draws);
    FrameLayout(f.uuid, f.command, f.content, PaddingLen(|f.content|, true, Draw(draws)));
  }

  lemma OneFrame(f: Frame, draws: seq<nat>)
    ensures FramesWire([f], draws) + [] == WireOf(f, Draw(draws))
  {
    hide WireOf;
    var frames := [f];
    assert frames[1..] == [];
    assert WireOf(f, Draw(draws)) + [] == WireOf(f, Draw(draws));
  }

  /** The first payload is shown to the sniffer before it is framed; without one the sniffer is untouched. */
  lemma FirstSniffs(id: Uuid, answers: seq<O.Answer>, header: bytes, payload: bytes, draws: seq<nat>, m: Session)
    requires Begins(id, answers, header, payload, draws, m)
    ensures payload == [] ==> m.u.t == FRESH_TRAFFIC && m.u.p == Pad(true, false, None)
    ensures payload != [] ==>
              && m.u.t == Filtered(FRESH_TRAFFIC, payload)
              && m.u.p == Padded(Pad(true, false, Some(id)), Filtered(FRESH_TRAFFIC, payload), payload).p
  {
    hide Filtered, Padded, PlanWire, AllWritten, AllFlushed;
  }
}
