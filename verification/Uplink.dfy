/**
 * The write path (src/outbound/vision.rs:407-528): frames through TLS, then, after a Direct frame has
 * been flushed, raw bytes past it. Nothing is lost, duplicated, reordered or interleaved.
 */
module Uplink {
  import opened Bytes
  import opened Framing
  import opened Sniffer
  import opened Reshaping
  import opened Padding
  import opened PaddingRuns
  import O = Outgoing

  /** Sniffer, framer, whether writes bypass TLS, frames not yet accepted by TLS, and the layers below. */
  datatype Up = Up(t: Traffic, p: Pad, raw: bool, pending: bytes, w: O.Wire)

  datatype UpPolled = UpPolled(u: Up, r: O.Poll)

  function With(u: Up, p: O.Polled): UpPolled {
    UpPolled(u.(w := p.w), p.r)
  }

  /** `poll_drain`; accepting nothing at all is an error. */
  function Drained(u: Up): (q: UpPolled)
    ensures q.r.Ready? ==> q.u.pending == []
    decreases |u.pending|
  {
    if u.pending == [] then UpPolled(u, O.Ready(0))
    else
      var p := O.TlsWrite(u.w, u.pending);
      if !p.r.Ready? then With(u, p)
      else if p.r.n == 0 then UpPolled(u.(w := p.w), O.Error)
      else Drained(u.(pending := u.pending[p.r.n..], w := p.w))
  }

  /** `poll_settle`: drain, and after a Direct frame flush TLS before switching to raw writes. */
  function Settled(u: Up): UpPolled {
    var d := Drained(u);
    if !d.r.Ready? then d
    else if d.u.p.direct && !d.u.raw then
      var f := O.TlsFlush(d.u.w);
      if f.r.Ready? then UpPolled(d.u.(raw := true, w := f.w), f.r) else With(d.u, f)
    else UpPolled(d.u, O.Ready(0))
  }

  /** `poll_write`; Ready counts the bytes the caller may consider written. */
  function Writing(u: Up, buf: bytes, draws: seq<nat>): UpPolled {
    var s := Settled(u);
    if !s.r.Ready? then s
    else if !s.u.p.padding then
      With(s.u.(t := Filtered(s.u.t, buf)), if s.u.raw then O.RawWrite(s.u.w, buf) else O.TlsWrite(s.u.w, buf))
    else
      var again := Settled(Framed(s.u, buf, draws));
      if again.r.Error? then again else UpPolled(again.u, O.Ready(|buf|))
  }

  function Framed(u: Up, buf: bytes, draws: seq<nat>): Up {
    var t := Filtered(u.t, buf);
    var plan := Padded(u.p, t, buf);
    u.(t := t, p := plan.p, pending := u.pending + PlanWire(plan, draws))
  }

  function Flushing(u: Up): UpPolled {
    var s := Settled(u);
    if !s.r.Ready? then s else With(s.u, if s.u.raw then O.RawFlush(s.u.w) else O.TlsFlush(s.u.w))
  }

  function ShuttingDown(u: Up): UpPolled {
    var s := Settled(u);
    if !s.r.Ready? then s else With(s.u, if s.u.raw then O.RawShutdown(s.u.w) else O.TlsShutdown(s.u.w))
  }

  // ---------------------------------------------------------------------------
  // The first write
  // ---------------------------------------------------------------------------

  /** `write_all` over TLS; Pending means the layers below never got that far. */
  function AllWritten(w: O.Wire, d: bytes): O.Polled
    decreases |d| + |w.answers|
  {
    if d == [] then O.Polled(w, O.Ready(0))
    else if w.answers == [] then O.Polled(w, O.Pending)
    else
      var p := O.TlsWrite(w, d);
      if p.r.Error? || p.r == O.Ready(0) then O.Polled(p.w, O.Error)
      else AllWritten(p.w, if p.r.Ready? then d[p.r.n..] else d)
  }

  function AllFlushed(w: O.Wire): O.Polled
    decreases |w.answers|
  {
    if w.answers == [] then O.Polled(w, O.Pending)
    else
      var p := O.TlsFlush(w);
      if p.r.Pending? then AllFlushed(p.w) else p
  }

  /** The first frame: the first payload, or camouflage if there is none. */
  function FirstPlan(u: Up, payload: bytes): Plan {
    if payload == [] then Plan(u.p.(uuid := None), [Frame(u.p.uuid, CMD_PADDING_CONTINUE, CAMOUFLAGE, true)], [])
    else Padded(u.p, Filtered(u.t, payload), payload)
  }

  /** `write_first`: the VLESS header and the first frame in one write, then a flush. */
  function FirstWritten(u: Up, header: bytes, payload: bytes, draws: seq<nat>): UpPolled {
    var plan := FirstPlan(u, payload);
    var v := u.(t := if payload == [] then u.t else Filtered(u.t, payload), p := plan.p);
    var a := AllWritten(v.w, header + PlanWire(plan, draws));
    if a.r.Ready? then With(v, AllFlushed(a.w)) else With(v, a)
  }

  /** A TLS layer that takes no byte of what is offered is an error, for waiting frames and for the first write alike. */
  lemma ZeroWriteFails(u: Up, d: bytes, emit: nat)
    requires u.w.answers != [] && u.w.answers[0] == O.Done(0, emit)
    ensures u.pending != [] ==>
              Drained(u).r.Error? && Drained(u).u.pending == u.pending && Settled(u).r.Error? && Flushing(u).r.Error?
    ensures d != [] ==> AllWritten(u.w, d).r.Error?
  {
  }

  // ---------------------------------------------------------------------------
  // Order
  // ---------------------------------------------------------------------------

  /** Everything handed to the layers below, emitted or not. */
  function Log(u: Up): seq<O.Out> {
    u.w.sent + u.w.queue
  }

  /** The socket's output is TLS output up to some point and raw output from there on. */
  ghost predicate SplitOnce(items: seq<O.Out>) {
    exists k | 0 <= k <= |items| :: O.NoRaw(items[..k]) && O.OnlyRaw(items[k..])
  }

  lemma NoRawSplits(items: seq<O.Out>)
    requires O.NoRaw(items)
    ensures SplitOnce(items)
  {
    assert O.NoRaw(items[..|items|]) && O.OnlyRaw(items[|items|..]);
  }

  lemma SplitGrows(a: seq<O.Out>, b: seq<O.Out>)
    requires SplitOnce(a) && a <= b && O.OnlyRaw(b[|a|..])
    ensures SplitOnce(b)
  {
    var k :| 0 <= k <= |a| && O.NoRaw(a[..k]) && O.OnlyRaw(a[k..]);
    assert b[..k] == a[..k];
    forall i | 0 <= i < |b[k..]|
      ensures b[k..][i].Raw? || b[k..][i].Fin?
    {
      assert b[k..][i] == if k + i < |a| then a[k..][i] else b[|a|..][k + i - |a|];
    }
    assert O.NoRaw(b[..k]) && O.OnlyRaw(b[k..]);
  }

  /** Raw bytes appear only once everything framed has been accepted and emitted by TLS. */
  ghost predicate Ordered(u: Up) {
    && O.NoRaw(u.w.queue)
    && (!u.raw ==> O.NoRaw(u.w.sent))
    && (u.raw ==> u.w.queue == [] && u.pending == [] && u.p.direct && !u.p.padding && SplitOnce(u.w.sent))
    && (u.p.direct ==> !u.p.padding)
  }

  // ---------------------------------------------------------------------------
  // Content
  // ---------------------------------------------------------------------------

  /** All plaintext given to TLS, followed by the frames still waiting. */
  function AllPlain(u: Up): bytes {
    O.Plaintext(Log(u)) + u.pending
  }

  /**
   * Past the VLESS header, the peer decodes the TLS bytes and waiting frames without error or remainder,
   * stands where the framer stands, and what it decodes followed by the raw bytes is `accepted`.
   */
  ghost predicate Carries(u: Up, header: bytes, accepted: bytes) {
    && header <= AllPlain(u)
    && var r := Unpadding(FRESH, AllPlain(u)[|header|..]);
       r == Unpadded(Peer(u.p), [], r.out, true) && r.out + O.Bypassed(Log(u)) == accepted
  }

  ghost predicate UpInv(u: Up, header: bytes, accepted: bytes) {
    && SnifferInv(u.t) && Ordered(u) && (u.p.uuid.Some? ==> u.p.padding) && Carries(u, header, accepted)
  }

  /** `v` differs from `u` only in how far the same bytes have travelled. */
  ghost predicate SameContent(u: Up, v: Up) {
    AllPlain(v) == AllPlain(u) && O.Bypassed(Log(v)) == O.Bypassed(Log(u)) && v.p == u.p && v.t == u.t
  }

  lemma TlsWriteLog(w: O.Wire, d: bytes)
    ensures var p := O.TlsWrite(w, d);
            && p.w.sent + p.w.queue
            == w.sent + w.queue + (if p.r.Ready? then O.SealedOf(d[..p.r.n]) else [])
            && p.w.closing == w.closing
            && (O.NoRaw(w.queue) ==> O.NoRaw(p.w.queue) && (O.NoRaw(w.sent) ==> O.NoRaw(p.w.sent)))
  {
    match O.Next(w) {
      case Wait(emit) =>
        O.EmitKeeps(O.Called(w), emit);
        assert w.sent + w.queue + [] == w.sent + w.queue;
      case Fail =>
        assert w.sent + w.queue + [] == w.sent + w.queue;
      case Done(n, emit) =>
        var k := Min(n, |d|);
        var v := O.Called(w).(queue := w.queue + O.SealedOf(d[..k]));
        O.EmitKeeps(v, emit);
        Assoc(w.sent, w.queue, O.SealedOf(d[..k]));
    }
  }

  lemma TlsWritePlain(w: O.Wire, d: bytes)
    requires O.TlsWrite(w, d).r.Ready?
    ensures var p := O.TlsWrite(w, d);
            && O.Plaintext(p.w.sent + p.w.queue) == O.Plaintext(w.sent + w.queue) + d[..p.r.n]
            && O.Bypassed(p.w.sent + p.w.queue) == O.Bypassed(w.sent + w.queue)
  {
    hide O.TlsWrite, O.Plaintext, O.Bypassed;
    var p := O.TlsWrite(w, d);
    TlsWriteLog(w, d);
    O.PlaintextAppend(w.sent + w.queue, O.SealedOf(d[..p.r.n]));
    O.SealedPlaintext(d[..p.r.n]);
    assert O.Bypassed(w.sent + w.queue) + [] == O.Bypassed(w.sent + w.queue);
  }

  lemma {:induction false} DrainKeeps(u: Up)
    requires Ordered(u)
    ensures var q := Drained(u);
            && Ordered(q.u) && q.u.raw == u.raw && q.u.w.closing == u.w.closing
            && (!q.r.Error? ==> SameContent(u, q.u))
            && q.u.p == u.p && q.u.t == u.t
            && (u.raw ==> q.u == u)
    decreases |u.pending|
  {
    if u.pending != [] {
      hide O.TlsWrite, O.Plaintext, O.Bypassed;
      var p := O.TlsWrite(u.w, u.pending);
      TlsWriteLog(u.w, u.pending);
      if p.r.Ready? {
        var n := p.r.n;
        var v := u.(pending := u.pending[n..], w := p.w);
        TlsWritePlain(u.w, u.pending);
        Assoc(O.Plaintext(Log(u)), u.pending[..n], u.pending[n..]);
        assert u.pending[..n] + u.pending[n..] == u.pending;
        if n > 0 {
          DrainKeeps(v);
        }
      } else {
        assert Log(u) + [] == Log(u);
      }
    }
  }

  /** Settling moves bytes along; when it completes, nothing framed is waiting and a due switch has happened. */
  lemma SettleKeeps(u: Up)
    requires Ordered(u)
    ensures var q := Settled(u);
            && Ordered(q.u) && q.u.w.closing == u.w.closing
            && (!q.r.Error? ==> SameContent(u, q.u))
            && (q.r.Ready? ==> q.u.pending == [] && (q.u.p.direct ==> q.u.raw))
            && (u.raw ==> q == UpPolled(u, O.Ready(0)))
            && (q.u.raw && !u.raw ==> q.u.w.queue == [] && O.NoRaw(q.u.w.sent))
  {
    hide Drained, O.Plaintext, O.Bypassed;
    DrainKeeps(u);
    var d := Drained(u).u;
    FlushLog(d.w);
    if u.raw {
      DrainedRaw(u);
    } else if Settled(u).u.raw {
      NoRawSplits(Settled(u).u.w.sent);
    }
  }

  lemma DrainedRaw(u: Up)
    requires Ordered(u) && u.raw
    ensures Drained(u) == UpPolled(u, O.Ready(0))
  {
  }

  lemma FlushLog(w: O.Wire)
    ensures var p := O.TlsFlush(w);
            && p.w.sent + p.w.queue == w.sent + w.queue && p.w.closing == w.closing
            && (p.r.Ready? ==> p.w.queue == [])
            && (O.NoRaw(w.queue) ==> O.NoRaw(p.w.queue) && (O.NoRaw(w.sent) ==> O.NoRaw(p.w.sent)))
  {
    O.EmitKeeps(O.Called(w), if O.Next(w).Wait? then O.Next(w).emit else 0);
    assert w.sent + w.queue + [] == w.sent + w.queue;
  }

  /** The framer's run that an uplink state embodies. */
  ghost function AsRun(u: Up, header: bytes): Run
    requires header <= AllPlain(u)
  {
    var framed := AllPlain(u)[|header|..];
    Run(u.p, u.t, framed, Unpadding(FRESH, framed).out, [], 0, 0)
  }

  /** Plaintext grown by what the framer makes of `data` carries `data` as well. */
  lemma GrownCarries(u: Up, v: Up, header: bytes, accepted: bytes, data: bytes, draws: seq<nat>)
    requires UpInv(u, header, accepted) && O.Bypassed(Log(u)) == [] == O.Bypassed(Log(v))
    requires var plan := Padded(u.p, Filtered(u.t, data), data);
             v.p == plan.p && AllPlain(v) == AllPlain(u) + PlanWire(plan, draws)
    ensures Carries(v, header, accepted + data)
    ensures (v.p.uuid.Some? ==> v.p.padding) && (v.p.direct ==> !v.p.padding)
  {
    hide Unpadding, O.Plaintext, O.Bypassed, PlanWire, Planned, Filtered, SnifferInv;
    var r := AsRun(u, header);
    assert r.accepted + [] == r.accepted && accepted + data + [] == accepted + data;
    NextSound(r, Write(data, draws));
    WriteInStep(r, data, draws);
    DropShort(AllPlain(u), PlanWire(Padded(u.p, Filtered(u.t, data), data), draws), |header|);
    assert header <= AllPlain(v);
  }

  lemma FramedKeeps(u: Up, header: bytes, accepted: bytes, buf: bytes, draws: seq<nat>)
    requires UpInv(u, header, accepted) && u.p.padding
    ensures UpInv(Framed(u, buf, draws), header, accepted + buf)
  {
    hide Unpadding, O.Plaintext, O.Bypassed, PlanWire, Padded, Filtered, Carries;
    var v := Framed(u, buf, draws);
    NothingBypassed(u);
    Assoc(O.Plaintext(Log(u)), u.pending, PlanWire(Padded(u.p, Filtered(u.t, buf), buf), draws));
    GrownCarries(u, v, header, accepted, buf, draws);
    FilterKeepsInv(u.t, buf);
  }

  lemma NothingBypassed(u: Up)
    requires Ordered(u) && !u.raw
    ensures O.Bypassed(Log(u)) == []
  {
    NoRawBypassed(Log(u));
  }

  lemma {:induction false} NoRawBypassed(items: seq<O.Out>)
    requires O.NoRaw(items)
    ensures O.Bypassed(items) == []
  {
    if items != [] {
      NoRawBypassed(items[1..]);
    }
  }

  // ---------------------------------------------------------------------------
  // One call
  // ---------------------------------------------------------------------------

  /** What holds whatever happens, errors included. */
  ghost predicate Safe(u: Up) {
    Ordered(u) && SnifferInv(u.t) && (u.p.uuid.Some? ==> u.p.padding)
  }

  /** After the switch a call can only add raw items; TLS is not called, let alone given or asked to emit anything. */
  ghost predicate BypassesTls(u: Up, v: Up) {
    && v.raw && v.w.tlsCalls == u.w.tlsCalls
    && v.w.closing == u.w.closing && u.w.queue == [] == v.w.queue && v.pending == []
    && u.w.sent <= v.w.sent && O.OnlyRaw(v.w.sent[|u.w.sent|..])
  }

  lemma RawAppend(w: O.Wire, d: bytes)
    requires w.queue == []
    ensures var p := O.RawWrite(w, d);
            && p.w.queue == [] && p.w.closing == w.closing && p.w.tlsCalls == w.tlsCalls
            && p.w.sent == w.sent + (if p.r.Ready? then O.RawOf(d[..p.r.n]) else [])
  {
    assert w.sent + [] == w.sent;
  }

  lemma RawWriteKeeps(u: Up, d: bytes)
    requires u.raw && Ordered(u)
    ensures var p := O.RawWrite(u.w, d);
            var v := u.(w := p.w);
            && Ordered(v) && BypassesTls(u, v) && v.w.queue == []
            && AllPlain(v) == AllPlain(u)
            && (p.r.Ready? ==> O.Bypassed(Log(v)) == O.Bypassed(Log(u)) + d[..p.r.n])
            && (!p.r.Ready? ==> O.Bypassed(Log(v)) == O.Bypassed(Log(u)))
  {
    hide O.Plaintext, O.Bypassed, O.RawWrite;
    var p := O.RawWrite(u.w, d);
    RawAppend(u.w, d);
    assert u.w.sent + [] == u.w.sent && p.w.sent + [] == p.w.sent;
    if p.r.Ready? {
      var items := O.RawOf(d[..p.r.n]);
      O.PlaintextAppend(u.w.sent, items);
      O.RawPlaintext(d[..p.r.n]);
      assert O.Plaintext(u.w.sent) + [] == O.Plaintext(u.w.sent);
      Cut(u.w.sent, items);
      SplitGrows(u.w.sent, p.w.sent);
    } else {
      assert p.w.sent[|u.w.sent|..] == [];
    }
  }

  /** A write is safe, and after the switch touches only the socket. */
  lemma WriteSafe(u: Up, buf: bytes, draws: seq<nat>)
    requires Safe(u)
    ensures var q := Writing(u, buf, draws); Safe(q.u) && (u.raw ==> BypassesTls(u, q.u))
  {
    hide Settled, Framed, O.TlsWrite, O.RawWrite;
    SettleKeeps(u);
    SettledKeeps(u);
    var s := Settled(u);
    FilterKeepsInv(u.t, buf);
    if u.raw {
      RawWriteKeeps(u, buf);
    } else if s.r.Ready? && !s.u.p.padding {
      if s.u.raw {
        RawWriteKeeps(s.u, buf);
      } else {
        TlsWriteLog(s.u.w, buf);
      }
    } else if s.r.Ready? {
      FramedSafe(s.u, buf, draws);
      SettleKeeps(Framed(s.u, buf, draws));
      SettledKeeps(Framed(s.u, buf, draws));
    }
  }

  /** Settling leaves the framer and the sniffer alone. */
  lemma SettledKeeps(u: Up)
    requires Ordered(u)
    ensures Settled(u).u.p == u.p && Settled(u).u.t == u.t
  {
    hide Drained;
    DrainKeeps(u);
  }

  lemma FramedSafe(u: Up, buf: bytes, draws: seq<nat>)
    requires Safe(u) && u.p.padding
    ensures Safe(Framed(u, buf, draws))
  {
    hide PlanWire, Planned, Filtered;
    var t := Filtered(u.t, buf);
    FilterKeepsInv(u.t, buf);
    PiecesPartition(buf);
    PlanWellEnded(u.p, t, Pieces(buf), Complete(buf), t.isTls);
  }

  lemma CarriesOnly(u: Up, v: Up, header: bytes, accepted: bytes)
    requires Carries(u, header, accepted) && AllPlain(u) == AllPlain(v) && u.p == v.p
    requires O.Bypassed(Log(u)) == O.Bypassed(Log(v))
    ensures Carries(v, header, accepted)
  {
    hide Unpadding, O.Plaintext, O.Bypassed;
  }

  lemma CarriesMore(u: Up, v: Up, header: bytes, accepted: bytes, d: bytes)
    requires Carries(u, header, accepted) && AllPlain(u) == AllPlain(v) && u.p == v.p
    requires O.Bypassed(Log(v)) == O.Bypassed(Log(u)) + d
    ensures Carries(v, header, accepted + d)
  {
    hide Unpadding, O.Plaintext, O.Bypassed;
    var r := Unpadding(FRESH, AllPlain(u)[|header|..]);
    Assoc(r.out, O.Bypassed(Log(u)), d);
  }

  /** What a write reports as accepted is exactly what is carried in addition. */
  lemma WriteCarries(u: Up, header: bytes, accepted: bytes, buf: bytes, draws: seq<nat>)
    requires Safe(u) && Carries(u, header, accepted) && !Writing(u, buf, draws).r.Error?
    ensures var q := Writing(u, buf, draws);
            Carries(q.u, header, accepted + (if q.r.Ready? then buf[..q.r.n] else []))
  {
    hide Settled, Framed, O.TlsWrite, O.RawWrite, O.Plaintext, O.Bypassed, Carries, Filtered, SnifferInv;
    var s := Settled(u);
    SettleKeeps(u);
    SettledKeeps(u);
    CarriesOnly(u, s.u, header, accepted);
    assert accepted + [] == accepted;
    if !s.r.Ready? {
    } else if !s.u.p.padding {
      var q := Writing(u, buf, draws);
      if s.u.raw {
        RawWriteKeeps(s.u, buf);
        if q.r.Ready? {
          CarriesMore(s.u, q.u, header, accepted, buf[..q.r.n]);
        } else {
          CarriesOnly(s.u, q.u, header, accepted);
        }
      } else {
        TlsWriteCarries(s.u, q.u, header, accepted, buf);
      }
    } else {
      FramedSafe(s.u, buf, draws);
      FramedKeeps(s.u, header, accepted, buf, draws);
      var v := Framed(s.u, buf, draws);
      SettleKeeps(v);
      SettledKeeps(v);
      CarriesOnly(v, Settled(v).u, header, accepted + buf);
      assert buf[..|buf|] == buf;
    }
  }

  /** After End, writes go through TLS unframed. */
  lemma TlsWriteCarries(u: Up, v: Up, header: bytes, accepted: bytes, buf: bytes)
    requires UpInv(u, header, accepted) && !u.raw && !u.p.padding && u.pending == []
    requires v == u.(t := v.t, w := O.TlsWrite(u.w, buf).w)
    ensures var r := O.TlsWrite(u.w, buf).r;
            Carries(v, header, accepted + (if r.Ready? then buf[..r.n] else []))
  {
    hide O.TlsWrite, O.Plaintext, O.Bypassed, Carries, Filtered, Unpadding, SnifferInv;
    var p := O.TlsWrite(u.w, buf);
    TlsWriteLog(u.w, buf);
    assert accepted + [] == accepted && Log(u) + [] == Log(u);
    if p.r.Ready? {
      var d := buf[..p.r.n];
      TlsWritePlain(u.w, buf);
      NothingBypassed(u);
      RawWire(u.p, d, []);
      assert O.Plaintext(Log(u)) + [] == O.Plaintext(Log(u)) && O.Plaintext(Log(v)) + [] == O.Plaintext(Log(v));
      GrownCarries(u, v, header, accepted, d, []);
    } else {
      CarriesOnly(u, v, header, accepted);
    }
  }

  lemma RawFlushKeeps(u: Up)
    requires Ordered(u) && u.raw
    ensures var v := u.(w := O.RawFlush(u.w).w);
            Ordered(v) && BypassesTls(u, v) && v.w.sent == u.w.sent && v.w.queue == u.w.queue
  {
    assert u.w.sent[|u.w.sent|..] == [];
  }

  lemma TlsFlushKeeps(u: Up)
    requires Ordered(u) && !u.raw
    ensures var p := O.TlsFlush(u.w);
            var v := u.(w := p.w);
            Ordered(v) && Log(v) == Log(u) && (p.r.Ready? ==> v.w.queue == [])
  {
    FlushLog(u.w);
  }

  /** A flush loses nothing, and when it completes every accepted byte is on the socket. */
  lemma FlushKeeps(u: Up, header: bytes, accepted: bytes)
    requires Safe(u)
    ensures var q := Flushing(u);
            && Safe(q.u) && (u.raw ==> BypassesTls(u, q.u))
            && (Carries(u, header, accepted) && !q.r.Error? ==> Carries(q.u, header, accepted))
            && (q.r.Ready? ==> q.u.pending == [] && q.u.w.queue == [])
  {
    hide Settled, O.Plaintext, O.Bypassed, Carries, SnifferInv, O.TlsFlush, O.RawFlush;
    var s, q := Settled(u), Flushing(u);
    SettleKeeps(u);
    SettledKeeps(u);
    if s.r.Ready? {
      if s.u.raw {
        RawFlushKeeps(s.u);
      } else {
        TlsFlushKeeps(s.u);
      }
    }
    if Carries(u, header, accepted) && !q.r.Error? {
      CarriesOnly(u, s.u, header, accepted);
      CarriesOnly(s.u, q.u, header, accepted);
    }
  }

  lemma ShutdownLog(w: O.Wire)
    ensures var p := O.TlsShutdown(w);
            && O.Plaintext(p.w.sent + p.w.queue) == O.Plaintext(w.sent + w.queue)
            && O.Bypassed(p.w.sent + p.w.queue) == O.Bypassed(w.sent + w.queue)
            && (O.NoRaw(w.queue) ==> O.NoRaw(p.w.queue) && (O.NoRaw(w.sent) ==> O.NoRaw(p.w.sent)))
  {
    hide O.Plaintext, O.Bypassed;
    var notice: seq<O.Out> := if w.closing then [] else [O.CloseNotify];
    var c := O.Called(w).(queue := w.queue + notice, closing := true);
    assert w.queue + [] == w.queue;
    O.EmitKeeps(c, if O.Next(w).Wait? then O.Next(w).emit else 0);
    Assoc(w.sent, w.queue, notice);
    Assoc(w.sent, w.queue + notice, [O.Fin]);
    NoBytes(w.sent + w.queue, notice);
    NoBytes(w.sent + w.queue + notice, [O.Fin]);
    var p := O.TlsShutdown(w);
    assert p.w.sent + [] == p.w.sent;
    assert p.w.sent + p.w.queue == w.sent + w.queue + notice
        || p.w.sent + p.w.queue == w.sent + w.queue + notice + [O.Fin];
  }

  lemma NoBytes(items: seq<O.Out>, extra: seq<O.Out>)
    requires |extra| <= 1 && forall i :: 0 <= i < |extra| ==> !extra[i].Sealed? && !extra[i].Raw?
    ensures O.Plaintext(items + extra) == O.Plaintext(items) && O.Bypassed(items + extra) == O.Bypassed(items)
  {
    O.PlaintextAppend(items, extra);
    assert extra != [] ==> extra[1..] == [];
    assert O.Plaintext(extra) == [] && O.Bypassed(extra) == [];
  }

  /** Closing loses nothing; after the switch it sends no close_notify, only the end of the write half. */
  lemma ShutdownKeeps(u: Up, header: bytes, accepted: bytes)
    requires Safe(u)
    ensures var q := ShuttingDown(u);
            && Safe(q.u) && (u.raw ==> BypassesTls(u, q.u))
            && (Carries(u, header, accepted) && !q.r.Error? ==> Carries(q.u, header, accepted))
            && (q.r.Ready? ==> q.u.pending == [] && q.u.w.queue == [])
  {
    hide Settled, O.Plaintext, O.Bypassed, Carries, SnifferInv;
    var s, q := Settled(u), ShuttingDown(u);
    SettleKeeps(u);
    SettledKeeps(u);
    if s.r.Ready? {
      ShutdownLog(s.u.w);
      if s.u.raw {
        Cut(s.u.w.sent, [O.Fin]);
        SplitGrows(s.u.w.sent, s.u.w.sent + [O.Fin]);
        assert s.u.w.sent[|s.u.w.sent|..] == [];
        NoBytes(s.u.w.sent, [O.Fin]);
        assert s.u.w.sent + [] == s.u.w.sent && q.u.w.sent + [] == q.u.w.sent;
      }
    }
    if Carries(u, header, accepted) && !q.r.Error? {
      CarriesOnly(u, s.u, header, accepted);
      CarriesOnly(s.u, q.u, header, accepted);
    }
  }
}
