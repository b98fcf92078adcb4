/** Whole runs of the record gate: nothing is lost or reordered, and records are released one at a time. */
module GateRuns {
  import opened Bytes
  import opened RecordGate

  // ---------------------------------------------------------------------------
  // One read in gating mode
  // ---------------------------------------------------------------------------

  /** The length of the record that starts a stream, header included. */
  function RecordLen(stream: bytes): (n: nat)
    requires TLS_RECORD_HEADER_LEN <= |stream|
    ensures TLS_RECORD_HEADER_LEN <= n
  {
    TLS_RECORD_HEADER_LEN + U16(stream[3], stream[4])
  }

  /** In a record, a read hands up more of it; between records, it begins at most one, spending `open`. */
  ghost predicate ReadsOneRecord(g: Gate, stream: bytes, p: Polled) {
    var d := DataOf(p.r);
    if g.remaining > 0 then
      p.g.remaining + |d| == g.remaining && p.g.open == g.open
    else if p.g.open == g.open then
      d == [] && p.g.remaining == 0
    else
      && g.open && TLS_RECORD_HEADER_LEN <= |stream|
      && |d| + p.g.remaining == RecordLen(stream)
  }

  lemma {:induction false} GateReadsOneRecord(g: Gate, s: Sock, cap: nat)
    requires g.gating
    ensures ReadsOneRecord(g, Unseen(g, s), GateRead(g, s, cap))
    decreases |s.answers|
  {
    if g.remaining == 0 && g.open {
      if |g.buf| < TLS_RECORD_HEADER_LEN {
        var p := Filled(g, s);
        if p.r.Ready? && p.r.data != [] {
          GateReadsOneRecord(p.g, p.s, cap);
        }
      } else {
        DropShort(g.buf, s.unread, TLS_RECORD_HEADER_LEN);
      }
    }
  }

  /** Inside a record with bytes at hand, a read hands up as many as room, buffer and record allow. */
  lemma HandsUpAllItMay(g: Gate, s: Sock, cap: nat)
    requires g.gating && g.remaining > 0 && g.buf != []
    ensures GateRead(g, s, cap).r == Ready(g.buf[..Min(g.remaining, Min(|g.buf|, cap))])
    ensures GateRead(g, s, cap).s == s
  {
  }

  /** Once gating starts, the record at hand is read without another release, and its first byte uses the release up. */
  lemma StartReleasesOne(g: Gate, s: Sock, cap: nat)
    requires g.remaining == 0 && |g.buf| >= 5
    ensures var p := GateRead(Starting(g), s, cap);
            var record := 5 + U16(g.buf[3], g.buf[4]);
            && p.r == Ready(g.buf[..Min(record, Min(|g.buf|, cap))]) && p.s == s
            && p.g == Gate(g.buf[|p.r.data|..], true, record - |p.r.data|, false)
  {
  }

  /** At a boundary that was not released a read waits and touches nothing; a release lets it go on as from the start. */
  lemma HeldUntilOpened(g: Gate, s: Sock, cap: nat)
    requires g.gating && g.remaining == 0 && !g.open
    ensures GateRead(g, s, cap) == Polled(g, s, Pending)
    ensures GateRead(g.(open := true), s, cap) == GateRead(Starting(g), s, cap)
  {
  }

  /** Without gating a read hands up what is buffered, as much as there is room for, before the socket is asked. */
  lemma PassesAllItMay(g: Gate, s: Sock, cap: nat)
    requires !g.gating && g.buf != []
    ensures GateRead(g, s, cap).r == Ready(g.buf[..Min(|g.buf|, cap)]) && GateRead(g, s, cap).s == s
  {
  }

  lemma InRecordEof(g: Gate, s: Sock, cap: nat)
    requires cap > 0 && g.remaining > 0
    ensures var p := InRecord(g, s, cap);
            p.r == Ready([]) ==>
              g.buf == [] && p.s.unread == [] && p.g.remaining == g.remaining && p.g.buf == []
  {
    hide SockRead;
  }

  lemma TransparentEof(g: Gate, s: Sock, cap: nat)
    requires cap > 0
    ensures var p := Transparent(g, s, cap);
            p.r == Ready([]) ==> p.s.unread == [] && p.g == g && g.buf == []
  {
  }

  /** With room to read into, an empty answer means the stream has ended, inside or between records. */
  lemma {:induction false} GateEof(g: Gate, s: Sock, cap: nat)
    requires cap > 0
    ensures var p := GateRead(g, s, cap);
            p.r == Ready([]) ==>
              && p.s.unread == [] && p.g.remaining == g.remaining
              && (g.gating && g.remaining == 0 ==> |p.g.buf| < TLS_RECORD_HEADER_LEN)
              && (!g.gating || g.remaining > 0 ==> p.g.buf == [])
    decreases |s.answers|
  {
    hide SockRead, Filled, InRecord, Transparent;
    if !g.gating {
      TransparentEof(g, s, cap);
    } else if g.remaining > 0 {
      InRecordEof(g, s, cap);
    } else if g.open && |g.buf| < TLS_RECORD_HEADER_LEN {
      var p := Filled(g, s);
      assert g.buf + [] == g.buf;
      if p.r.Ready? && p.r.data != [] {
        GateEof(p.g, p.s, cap);
      }
    } else if g.open {
      InRecordEof(g.(remaining := TLS_RECORD_HEADER_LEN + U16(g.buf[3], g.buf[4]), open := false), s, cap);
    }
  }

  // ---------------------------------------------------------------------------
  // Runs
  // ---------------------------------------------------------------------------

  datatype Op = Read(cap: nat) | Fill | Open | Start | Stop | Take | Direct(cap: nat)

  /** `handed` is everything handed up or taken so far; `opens` and `begun` count calls and records. */
  datatype Run = Run(g: Gate, s: Sock, handed: bytes, opens: nat, begun: nat)

  function Do(r: Run, op: Op): Run {
    match op
    case Read(cap) =>
      var p := GateRead(r.g, r.s, cap);
      r.(g := p.g, s := p.s, handed := r.handed + DataOf(p.r),
      begun := if r.g.open && !p.g.open then r.begun + 1 else r.begun)
    case Fill => var p := Filled(r.g, r.s); r.(g := p.g, s := p.s)
    case Open => r.(g := r.g.(open := true), opens := r.opens + 1)
    case Start => r.(g := Starting(r.g))
    case Stop => r.(g := r.g.(gating := false, remaining := 0))
    case Take => r.(g := r.g.(buf := []), handed := r.handed + r.g.buf)
    case Direct(cap) => var p := SockRead(r.s, cap); r.(s := p.s, handed := r.handed + DataOf(p.r))
  }

  function DoAll(r: Run, ops: seq<Op>): Run
    decreases |ops|
  {
    if ops == [] then r else DoAll(Do(r, ops[0]), ops[1..])
  }

  function Everything(r: Run): bytes {
    r.handed + Unseen(r.g, r.s)
  }

  /** The socket is read past the gate only while the gate holds nothing. */
  ghost predicate DirectOnlyWhenEmpty(r: Run, ops: seq<Op>)
    decreases |ops|
  {
    ops == [] || ((ops[0].Direct? ==> r.g.buf == []) && DirectOnlyWhenEmpty(Do(r, ops[0]), ops[1..]))
  }

  lemma DoConserves(r: Run, op: Op)
    requires op.Direct? ==> r.g.buf == []
    ensures Everything(Do(r, op)) == Everything(r)
  {
    hide GateRead, SockRead;
    match op {
      case Read(cap) =>
        var p := GateRead(r.g, r.s, cap);
        Assoc(r.handed, DataOf(p.r), Unseen(p.g, p.s));
      case Take =>
        Assoc(r.handed, r.g.buf, r.s.unread);
        NilLeft(r.s.unread);
      case Direct(cap) =>
        var p := SockRead(r.s, cap);
        NilLeft(r.s.unread);
        NilLeft(p.s.unread);
        Assoc(r.handed, DataOf(p.r), p.s.unread);
      case _ =>
    }
  }

  /**
   * Conservation across modes: handed up, then buffered, then unread bytes always make up the wire,
   * through gating, transparent mode, a stop at any point, and the switch to direct reads.
   */
  lemma {:induction false} BytesConserved(r: Run, ops: seq<Op>)
    requires DirectOnlyWhenEmpty(r, ops)
    ensures Everything(DoAll(r, ops)) == Everything(r)
    decreases |ops|
  {
    if ops != [] {
      DoConserves(r, ops[0]);
      BytesConserved(Do(r, ops[0]), ops[1..]);
    }
  }

  /** Taking the buffer is what makes direct reads safe: none is out of order afterwards. */
  lemma {:induction false} TakeThenDirect(r: Run, caps: seq<nat>)
    ensures DirectOnlyWhenEmpty(r, [Take] + seq(|caps|, i requires 0 <= i < |caps| => Direct(caps[i])))
  {
    var directs := seq(|caps|, i requires 0 <= i < |caps| => Direct(caps[i]));
    assert ([Take] + directs)[1..] == directs;
    AllDirect(Do(r, Take), directs);
  }

  lemma {:induction false} AllDirect(r: Run, ops: seq<Op>)
    requires r.g.buf == [] && forall op :: op in ops ==> op.Direct?
    ensures DirectOnlyWhenEmpty(r, ops)
    decreases |ops|
  {
    if ops != [] {
      assert ops[0].Direct? && forall op :: op in ops[1..] ==> op in ops;
      AllDirect(Do(r, ops[0]), ops[1..]);
    }
  }

  // ---------------------------------------------------------------------------
  // Confinement
  // ---------------------------------------------------------------------------

  /** Where record number `k` of the wire ends, by the length fields. */
  function RecordEnd(wire: bytes, k: nat): nat {
    if k == 0 then 0
    else
      var e := RecordEnd(wire, k - 1);
      if e + TLS_RECORD_HEADER_LEN <= |wire| then e + RecordLen(wire[e..]) else e
  }

  lemma {:induction false} RecordEndsGrow(wire: bytes, j: nat, k: nat)
    requires j <= k
    ensures RecordEnd(wire, j) <= RecordEnd(wire, k)
    decreases k - j
  {
    if j < k {
      RecordEndsGrow(wire, j, k - 1);
    }
  }

  /** The operations the TLS layer and the stream above it perform while gating. */
  ghost predicate Gated(op: Op) {
    op.Read? || op.Fill? || op.Open?
  }

  ghost predicate Confined(wire: bytes, r: Run) {
    && r.g.gating && Everything(r) == wire
    && r.begun + (if r.g.open then 1 else 0) <= r.opens + 1
    && |r.handed| + r.g.remaining == RecordEnd(wire, r.begun)
    && (r.g.remaining > 0 ==> r.begun > 0 && RecordEnd(wire, r.begun - 1) <= |r.handed|)
  }

  lemma ReadConfined(wire: bytes, r: Run, cap: nat)
    requires Confined(wire, r)
    ensures var q := Do(r, Read(cap));
            && Confined(wire, q)
            && (q.handed != r.handed ==> q.begun > 0 && RecordEnd(wire, q.begun - 1) <= |r.handed|)
  {
    hide GateRead, SockRead, RecordEnd;
    var p := GateRead(r.g, r.s, cap);
    DoConserves(r, Read(cap));
    GateReadsOneRecord(r.g, r.s, cap);
    Cut(r.handed, Unseen(r.g, r.s));
    assert p.g.gating && |Do(r, Read(cap)).handed| == |r.handed| + |DataOf(p.r)|;
    if r.g.remaining == 0 && p.g.open != r.g.open {
      NextRecordEnd(wire, r.begun, |r.handed|);
    }
  }

  /** The record that begins where record number `k` ends. */
  lemma NextRecordEnd(wire: bytes, k: nat, at: nat)
    requires RecordEnd(wire, k) == at && at + TLS_RECORD_HEADER_LEN <= |wire|
    ensures RecordEnd(wire, k + 1) == at + RecordLen(wire[at..])
  {
  }

  lemma FillConfined(wire: bytes, r: Run)
    requires Confined(wire, r)
    ensures Confined(wire, Do(r, Fill)) && Do(r, Fill).handed == r.handed
  {
    hide SockRead, RecordEnd, Filled;
    DoConserves(r, Fill);
  }

  lemma OpenConfined(wire: bytes, r: Run)
    requires Confined(wire, r)
    ensures Confined(wire, Do(r, Open)) && Do(r, Open).handed == r.handed
  {
    hide RecordEnd;
  }

  lemma DoConfined(wire: bytes, r: Run, op: Op)
    requires Confined(wire, r) && Gated(op)
    ensures Confined(wire, Do(r, op))
  {
    hide Confined, Do;
    match op {
      case Read(cap) => ReadConfined(wire, r, cap);
      case Fill => FillConfined(wire, r);
      case Open => OpenConfined(wire, r);
    }
  }

  lemma ConfinedMeans(wire: bytes, r: Run)
    requires Confined(wire, r)
    ensures r.handed <= wire && |r.handed| <= RecordEnd(wire, r.opens + 1)
    ensures Unseen(r.g, r.s) == wire[|r.handed|..]
  {
    RecordEndsGrow(wire, r.begun, r.opens + 1);
    Cut(r.handed, Unseen(r.g, r.s));
  }

  lemma {:induction false} StaysConfined(wire: bytes, r: Run, ops: seq<Op>)
    requires Confined(wire, r)
    requires forall op :: op in ops ==> Gated(op)
    ensures Confined(wire, DoAll(r, ops))
    decreases |ops|
  {
    hide Confined, Do, RecordEnd, Gated;
    if ops != [] {
      assert ops[0] in ops && forall op :: op in ops[1..] ==> op in ops;
      DoConfined(wire, r, ops[0]);
      StaysConfined(wire, Do(r, ops[0]), ops[1..]);
    }
  }

  /**
   * Confinement: from a record boundary on, over any reads, refills and `open` calls, what is handed up
   * is a prefix of the wire that never passes the end of record number opens + 1, and what is held back
   * starts at the very next byte.
   */
  lemma GateConfines(wire: bytes, r: Run, ops: seq<Op>)
    requires Confined(wire, r)
    requires forall op :: op in ops ==> Gated(op)
    ensures var r' := DoAll(r, ops);
            && Confined(wire, r')
            && r'.handed <= wire && |r'.handed| <= RecordEnd(wire, r'.opens + 1)
            && Unseen(r'.g, r'.s) == wire[|r'.handed|..]
  {
    hide Confined, DoAll, RecordEnd;
    StaysConfined(wire, r, ops);
    ConfinedMeans(wire, DoAll(r, ops));
  }

  /** Gating may start whenever the next wire byte begins a record. */
  lemma StartConfines(g: Gate, s: Sock)
    requires g.remaining == 0
    ensures Confined(Unseen(g, s), Do(Run(g, s, [], 0, 0), Start))
  {
    NilLeft(Unseen(g, s));
  }

  /** What lies between two positions belongs to one record. */
  ghost predicate InOneRecord(wire: bytes, from: nat, to: nat) {
    exists k: nat :: RecordEnd(wire, k) <= from && to <= RecordEnd(wire, k + 1)
  }

  lemma WithinRecord(wire: bytes, r: Run, cap: nat)
    requires Confined(wire, r)
    ensures var q := Do(r, Read(cap));
            q.handed != r.handed ==> InOneRecord(wire, |r.handed|, |q.handed|)
  {
    ReadConfined(wire, r, cap);
    hide GateRead, RecordEnd;
    var q := Do(r, Read(cap));
    if q.handed != r.handed {
      RecordHolds(wire, q.begun - 1, |r.handed|, |q.handed|);
    }
  }

  lemma RecordHolds(wire: bytes, k: nat, from: nat, to: nat)
    requires RecordEnd(wire, k) <= from && to <= RecordEnd(wire, k + 1)
    ensures InOneRecord(wire, from, to)
  {
    hide RecordEnd;
  }

  /** One poll never hands over bytes of two records. */
  lemma OneRecordPerPoll(wire: bytes, r: Run, ops: seq<Op>, cap: nat)
    requires Confined(wire, r)
    requires forall op :: op in ops ==> Gated(op)
    ensures var before, after := DoAll(r, ops), Do(DoAll(r, ops), Read(cap));
            after.handed != before.handed ==> InOneRecord(wire, |before.handed|, |after.handed|)
  {
    hide Confined, Do, DoAll, RecordEnd, InOneRecord;
    StaysConfined(wire, r, ops);
    WithinRecord(wire, DoAll(r, ops), cap);
  }
}
