/**
 * The read path (src/outbound/vision.rs:533-615). Whatever the chunking, the caller gets the frame
 * contents, the rest of the record that carried Direct, and then the raw bytes, in order and complete.
 */
module Downlink {
  import opened Bytes
  import opened Framing
  import opened Sniffer
  import opened Decoding
  import opened RecordGate
  import opened GateRuns
  import opened TlsReading

  const READ_CHUNK := 16 * 1024

  /** Everything a read touches: sniffer, decoder, decoded bytes, TLS layer, gate and socket. */
  datatype Down = Down(t: Traffic, dec: Decoder, out: bytes, tls: TlsIn, g: Gate, s: Sock)

  datatype DownPolled = DownPolled(v: Down, r: Poll)

  function Under(v: Down, p: TlsPolled): Down {
    v.(tls := p.t, g := p.g, s := p.s)
  }

  /** Acting on what one chunk decoded to: sniff it, stop the gate after End, switch over after Direct. */
  function Digested(v: Down, x: Decoded): Down {
    var t := if x.out != [] then Filtered(v.t, x.out) else v.t;
    if !v.dec.u.done && x.d.u.done && !x.d.u.direct then
      v.(t := t, dec := x.d, out := x.out, g := v.g.(gating := false, remaining := 0))
    else if !v.dec.u.direct && x.d.u.direct then
      v.(t := t, dec := x.d, out := x.out + v.g.buf, g := v.g.(buf := []))
    else v.(t := t, dec := x.d, out := x.out)
  }

  function Reading(c: Cipher, v: Down, cap: nat): DownPolled
    decreases |Unseen(v.g, v.s)|, |v.tls.plain|
  {
    if v.out != [] then
      var n := Min(|v.out|, cap);
      DownPolled(v.(out := v.out[n..]), Ready(v.out[..n]))
    else if v.dec.u.direct then
      var p := SockRead(v.s, cap);
      DownPolled(v.(s := p.s), p.r)
    else if v.dec.u.done && v.dec.raw == [] then
      var p := TlsRead(c, v.tls, v.g, v.s, cap);
      DownPolled(Under(v, p).(t := if p.r.Ready? then Filtered(v.t, p.r.data) else v.t), p.r)
    else
      var p := TlsRead(c, v.tls, v.g.(open := true), v.s, READ_CHUNK);
      if DataOf(p.r) == [] then DownPolled(Under(v, p), p.r)
      else
        var x := Decode(v.dec, p.r.data);
        if x.status.Good? then Reading(c, Digested(Under(v, p), x), cap)
        else DownPolled(Under(v, p).(dec := x.d, out := x.out), Error)
  }

  /** The ways a read ends without another round. */
  lemma ReadEnds(c: Cipher, v: Down, cap: nat)
    ensures v.out != [] ==>
              var n := Min(|v.out|, cap);
              Reading(c, v, cap) == DownPolled(v.(out := v.out[n..]), Ready(v.out[..n]))
    ensures v.out == [] && v.dec.u.direct ==>
              var p := SockRead(v.s, cap);
              Reading(c, v, cap) == DownPolled(v.(s := p.s), p.r)
    ensures v.out == [] && !v.dec.u.direct && v.dec.u.done && v.dec.raw == [] ==>
              var p := TlsRead(c, v.tls, v.g, v.s, cap);
              Reading(c, v, cap)
              == DownPolled(Under(v, p).(t := if p.r.Ready? then Filtered(v.t, p.r.data) else v.t), p.r)
  {
  }

  /** One round of the read loop, and what it uses up. */
  lemma ReadRound(c: Cipher, v: Down, cap: nat)
    requires v.out == [] && !v.dec.u.direct && !(v.dec.u.done && v.dec.raw == [])
    ensures var p := TlsRead(c, v.tls, v.g.(open := true), v.s, READ_CHUNK);
            if DataOf(p.r) == [] then Reading(c, v, cap) == DownPolled(Under(v, p), p.r)
            else
              var x := Decode(v.dec, p.r.data);
              var v' := Digested(Under(v, p), x);
              if x.status.Good? then
                && Reading(c, v, cap) == Reading(c, v', cap)
                && (|Unseen(v'.g, v'.s)| < |Unseen(v.g, v.s)|
                    || (|Unseen(v'.g, v'.s)| == |Unseen(v.g, v.s)| && |v'.tls.plain| < |v.tls.plain|))
              else Reading(c, v, cap) == DownPolled(Under(v, p).(dec := x.d, out := x.out), Error)
  {
    hide TlsRead, Decode;
    assert Unseen(v.g.(open := true), v.s) == Unseen(v.g, v.s);
  }

  // ---------------------------------------------------------------------------
  // What there is to deliver
  // ---------------------------------------------------------------------------

  /** What a wire stands for, and whether every record opens and decodes along the way. */
  datatype Story = Story(out: bytes, sane: bool)

  function Ahead(out: bytes, later: Story): Story {
    later.(out := out + later.out)
  }

  /** The story of TLS records starting at record number `k`. */
  function Records(c: Cipher, d: Decoder, k: nat, stream: bytes): Story
    decreases |stream|, 0
  {
    if !WholeRecord(stream) then Story([], true)
    else
      match OpenRecord(c, k, stream[..RecordLen(stream)])
      case None => Story([], false)
      case Some(p) => Chunk(c, d, p, k + 1, stream[RecordLen(stream)..])
  }

  /** The same with the plaintext `p` of an earlier record still in front; after Direct the rest is raw. */
  function Chunk(c: Cipher, d: Decoder, p: bytes, k: nat, stream: bytes): Story
    decreases |stream|, 1
  {
    var x := Decode(d, p);
    if !x.status.Good? then Story([], false)
    else Ahead(x.out, if x.d.u.direct then Story(stream, true) else Records(c, x.d, k, stream))
  }

  /** What a client connection should deliver for a given wire. */
  function Expected(c: Cipher, wire: bytes): Story {
    Records(c, CLIENT, 0, wire)
  }

  /** What is still to be delivered from a given state. */
  function Rest(c: Cipher, v: Down): Story {
    Ahead(v.out, if v.dec.u.direct then Story(Unseen(v.g, v.s), true)
                 else Chunk(c, v.dec, v.tls.plain, v.tls.seqno, v.tls.partial + Unseen(v.g, v.s)))
  }

  // ---------------------------------------------------------------------------
  // The invariant
  // ---------------------------------------------------------------------------

  /** While gating, the TLS layer has at most a part of the record that the gate is handing over. */
  ghost predicate Coupled(t: TlsIn, g: Gate, s: Sock) {
    && t.plain == [] && g.gating
    && if g.remaining == 0 then t.partial == []
       else
         && TLS_RECORD_HEADER_LEN <= |t.partial + Unseen(g, s)|
         && |t.partial| + g.remaining == RecordLen(t.partial + Unseen(g, s))
  }

  ghost predicate DownInv(v: Down) {
    && Stuck(v.dec)
    && (!v.dec.u.done ==> Coupled(v.tls, v.g, v.s))
    && (v.dec.u.done && !v.dec.u.direct ==> !v.g.gating && !WholeRecord(v.tls.partial))
    && (v.dec.u.direct ==> v.g.buf == [] && v.tls.plain == [] == v.tls.partial)
  }

  lemma ChunkNothing(c: Cipher, d: Decoder, k: nat, stream: bytes)
    requires Stuck(d) && !d.u.direct
    ensures Chunk(c, d, [], k, stream) == Records(c, d, k, stream)
  {
    NothingAhead(Records(c, d, k, stream));
  }

  lemma NothingAhead(y: Story)
    ensures Ahead([], y) == y
  {
    NilLeft(y.out);
  }

  lemma AheadTwice(a: bytes, b: bytes, y: Story)
    ensures Ahead(a + b, y) == Ahead(a, Ahead(b, y))
  {
    Assoc(a, b, y.out);
  }

  lemma ChunkThrough(c: Cipher, d: Decoder, p: bytes, k: nat, stream: bytes)
    requires Stuck(d) && d.u.done && !d.u.direct
    ensures Chunk(c, d, p, k, stream) == Ahead(p, Records(c, d, k, stream))
  {
    PassThrough(d, p);
  }

  /** A whole record at the front of a longer stream is the same record. */
  lemma FrontRecord(partial: bytes, later: bytes)
    requires TLS_RECORD_HEADER_LEN <= |partial|
    ensures RecordLen(partial + later) == RecordLen(partial)
    ensures WholeRecord(partial) ==>
              && (partial + later)[..RecordLen(partial)] == partial[..RecordLen(partial)]
              && (partial + later)[RecordLen(partial)..] == partial[RecordLen(partial)..] + later
  {
    if WholeRecord(partial) {
      DropShort(partial, later, RecordLen(partial));
    }
  }

  /** The gate hands on `d` while records are released one at a time. */
  lemma CoupledReceive(c: Cipher, d: Decoder, t: TlsIn, g: Gate, s: Sock)
    requires Coupled(t, g, s) && Stuck(d) && !d.u.direct
    ensures var p := GateRead(g, s, Ask(t));
            var t' := Received(t, DataOf(p.r));
            && t'.partial + Unseen(p.g, p.s) == t.partial + Unseen(g, s)
            && (DataOf(p.r) == [] ==> Coupled(t', p.g, p.s))
            && (DataOf(p.r) != [] ==>
                  && TLS_RECORD_HEADER_LEN <= |t'.partial + Unseen(p.g, p.s)|
                  && |t'.partial| + p.g.remaining == RecordLen(t'.partial + Unseen(p.g, p.s)))
  {
    hide GateRead;
    var p := GateRead(g, s, Ask(t));
    GateReadsOneRecord(g, s, Ask(t));
    Assoc(t.partial, DataOf(p.r), Unseen(p.g, p.s));
    if t.partial == [] {
      NilLeft(Unseen(g, s));
    }
    assert t.partial + [] == t.partial;
  }

  /** Opening what was received: nothing while the record is incomplete, exactly that record once it is. */
  lemma CoupledAbsorb(c: Cipher, d: Decoder, t: TlsIn, g: Gate, s: Sock)
    requires t.plain == [] && g.gating && Stuck(d) && !d.u.direct
    requires TLS_RECORD_HEADER_LEN <= |t.partial + Unseen(g, s)|
    requires |t.partial| + g.remaining == RecordLen(t.partial + Unseen(g, s))
    requires Absorb(c, t).ok
    ensures var t' := Absorb(c, t).t;
            && |t'.plain| <= MAX_PLAINTEXT
            && (t'.plain != [] ==> t'.partial == [] && g.remaining == 0)
            && Coupled(t'.(plain := []), g, s)
            && Chunk(c, d, [], t.seqno, t.partial + Unseen(g, s))
            == Chunk(c, d, t'.plain, t'.seqno, t'.partial + Unseen(g, s))
  {
    hide Chunk, Decode;
    var stream := t.partial + Unseen(g, s);
    if g.remaining == 0 {
      DropShort(t.partial, Unseen(g, s), TLS_RECORD_HEADER_LEN);
      FrontRecord(t.partial, Unseen(g, s));
      ChunkNothing(c, d, t.seqno, stream);
      OneRecord(c, t);
      NilLeft(Unseen(g, s));
      assert t.partial[RecordLen(t.partial)..] == [];
      assert t.partial[..RecordLen(t.partial)] == t.partial;
    } else if TLS_RECORD_HEADER_LEN <= |t.partial| {
      FrontRecord(t.partial, Unseen(g, s));
    }
  }

  lemma OneRecord(c: Cipher, t: TlsIn)
    requires t.plain == [] && WholeRecord(t.partial) && RecordLen(t.partial) == |t.partial|
    requires Absorb(c, t).ok
    ensures OpenRecord(c, t.seqno, t.partial).Some?
    ensures Absorb(c, t).t == TlsIn(OpenRecord(c, t.seqno, t.partial).value, [], t.seqno + 1, t.asks)
  {
    assert t.partial[..|t.partial|] == t.partial && t.partial[|t.partial|..] == [];
    NilLeft(OpenRecord(c, t.seqno, t.partial).value);
  }

  /** One poll of the TLS layer while gating: at most one record's plaintext, and all of it. */
  lemma {:induction false} TlsReadGated(c: Cipher, d: Decoder, t: TlsIn, g: Gate, s: Sock)
    requires Coupled(t, g, s) && Stuck(d) && !d.u.direct
    requires TlsRead(c, t, g, s, READ_CHUNK).r != Error
    ensures var p := TlsRead(c, t, g, s, READ_CHUNK);
            && Coupled(p.t, p.g, p.s)
            && (DataOf(p.r) != [] ==> p.t.partial == [] && p.g.remaining == 0)
            && Chunk(c, d, [], t.seqno, t.partial + Unseen(g, s))
            == Chunk(c, d, DataOf(p.r), p.t.seqno, p.t.partial + Unseen(p.g, p.s))
    decreases |Unseen(g, s)|
  {
    hide Chunk, GateRead, Absorb;
    var p := GateRead(g, s, Ask(t));
    CoupledReceive(c, d, t, g, s);
    if DataOf(p.r) != [] {
      var t1 := Received(t, p.r.data);
      var a := Absorb(c, t1);
      CoupledAbsorb(c, d, t1, p.g, p.s);
      if a.t.plain == [] {
        TlsReadGated(c, d, a.t, p.g, p.s);
      } else {
        assert a.t.plain[..|a.t.plain|] == a.t.plain && a.t.plain[|a.t.plain|..] == [];
      }
    }
  }

  // ---------------------------------------------------------------------------
  // After End: everything passes through
  // ---------------------------------------------------------------------------

  lemma {:induction false} AbsorbThrough(c: Cipher, d: Decoder, t: TlsIn, stream: bytes)
    requires Stuck(d) && d.u.done && !d.u.direct && Absorb(c, t).ok
    ensures var t' := Absorb(c, t).t;
            Chunk(c, d, t.plain, t.seqno, t.partial + stream) == Chunk(c, d, t'.plain, t'.seqno, t'.partial + stream)
    decreases |t.partial|
  {
    if WholeRecord(t.partial) {
      hide Chunk, Records;
      FrontRecord(t.partial, stream);
      var n := RecordLen(t.partial);
      var p := OpenRecord(c, t.seqno, t.partial[..n]).value;
      var rest := t.partial[n..] + stream;
      NextRecord(c, d, t.seqno, t.partial + stream);
      ChunkThrough(c, d, t.plain, t.seqno, t.partial + stream);
      ChunkThrough(c, d, p, t.seqno + 1, rest);
      ChunkThrough(c, d, t.plain + p, t.seqno + 1, rest);
      AheadTwice(t.plain, p, Records(c, d, t.seqno + 1, rest));
      AbsorbThrough(c, d, TlsIn(t.plain + p, t.partial[n..], t.seqno + 1, t.asks), stream);
    }
  }

  lemma NextRecord(c: Cipher, d: Decoder, k: nat, stream: bytes)
    requires WholeRecord(stream) && OpenRecord(c, k, stream[..RecordLen(stream)]).Some?
    ensures Records(c, d, k, stream) ==
            Chunk(c, d, OpenRecord(c, k, stream[..RecordLen(stream)]).value, k + 1, stream[RecordLen(stream)..])
  {
  }

  lemma {:induction false} TlsReadThrough(c: Cipher, d: Decoder, t: TlsIn, g: Gate, s: Sock, cap: nat)
    requires Stuck(d) && d.u.done && !d.u.direct && !WholeRecord(t.partial)
    requires TlsRead(c, t, g, s, cap).r != Error
    ensures var p := TlsRead(c, t, g, s, cap);
            && !WholeRecord(p.t.partial)
            && Chunk(c, d, t.plain, t.seqno, t.partial + Unseen(g, s))
            == Ahead(DataOf(p.r), Chunk(c, d, p.t.plain, p.t.seqno, p.t.partial + Unseen(p.g, p.s)))
    decreases |Unseen(g, s)|
  {
    hide Chunk, GateRead, Absorb;
    if t.plain != [] {
      var n := Min(cap, |t.plain|);
      var stream := t.partial + Unseen(g, s);
      ChunkThrough(c, d, t.plain, t.seqno, stream);
      ChunkThrough(c, d, t.plain[n..], t.seqno, stream);
      AheadTwice(t.plain[..n], t.plain[n..], Records(c, d, t.seqno, stream));
      assert t.plain == t.plain[..n] + t.plain[n..];
    } else {
      var p := GateRead(g, s, Ask(t));
      var t1 := Received(t, DataOf(p.r));
      Assoc(t.partial, DataOf(p.r), Unseen(p.g, p.s));
      if DataOf(p.r) != [] {
        AbsorbThrough(c, d, t1, Unseen(p.g, p.s));
        TlsReadThrough(c, d, Absorb(c, t1).t, p.g, p.s, cap);
      } else {
        assert t.partial + [] == t.partial;
        NothingAhead(Chunk(c, d, t.plain, t.seqno, t.partial + Unseen(g, s)));
      }
    }
  }

  // ---------------------------------------------------------------------------
  // One read
  // ---------------------------------------------------------------------------

  /** Acting on a decoded chunk keeps the invariant and what is still to be delivered. */
  lemma DigestKeeps(c: Cipher, v: Down, data: bytes)
    requires Stuck(v.dec) && !v.dec.u.done && v.out == []
    requires Coupled(v.tls, v.g, v.s) && v.tls.partial == [] && v.g.remaining == 0
    requires Decode(v.dec, data).status.Good?
    ensures var v' := Digested(v, Decode(v.dec, data));
            && DownInv(v') && v'.tls == v.tls
            && Rest(c, v') == Chunk(c, v.dec, data, v.tls.seqno, v.tls.partial + Unseen(v.g, v.s))
  {
    var x := Decode(v.dec, data);
    var v' := Digested(v, x);
    DecodeStuck(v.dec, data);
    NilLeft(Unseen(v.g, v.s));
    if x.d.u.direct {
      Assoc(x.out, v.g.buf, v.s.unread);
      NilLeft(v.s.unread);
      assert Unseen(v'.g, v'.s) == v.s.unread;
    } else {
      ChunkNothing(c, x.d, v.tls.seqno, Unseen(v.g, v.s));
      assert Unseen(v'.g, v'.s) == Unseen(v.g, v.s);
    }
  }

  /** A read hands out the front of what is to be delivered and keeps the rest. */
  lemma {:induction false} ReadConserves(c: Cipher, v: Down, cap: nat)
    requires DownInv(v) && Reading(c, v, cap).r != Error
    ensures var p := Reading(c, v, cap); DownInv(p.v) && Rest(c, v) == Ahead(DataOf(p.r), Rest(c, p.v))
    decreases |Unseen(v.g, v.s)|, |v.tls.plain|
  {
    hide TlsRead, Decode, Chunk, Stuck;
    if v.out != [] {
      ReadBuffered(c, v, cap);
    } else if v.dec.u.direct {
      ReadDirect(c, v, cap);
    } else if v.dec.u.done && v.dec.raw == [] {
      ReadThrough(c, v, cap);
    } else {
      DoneMeans(v.dec);
      var g := v.g.(open := true);
      var p := TlsRead(c, v.tls, g, v.s, READ_CHUNK);
      TlsReadGated(c, v.dec, v.tls, g, v.s);
      if DataOf(p.r) == [] {
        NothingAhead(Rest(c, v));
        NothingAhead(Rest(c, Under(v, p)));
      } else {
        DigestKeeps(c, Under(v, p), p.r.data);
        NothingAhead(Chunk(c, v.dec, [], v.tls.seqno, v.tls.partial + Unseen(v.g, v.s)));
        ReadConserves(c, Digested(Under(v, p), Decode(v.dec, p.r.data)), cap);
      }
    }
  }

  lemma DoneMeans(d: Decoder)
    requires Stuck(d)
    ensures d.u.done ==> d.raw == []
    ensures d.u.direct ==> d.u.done
  {
  }

  lemma ReadBuffered(c: Cipher, v: Down, cap: nat)
    requires DownInv(v) && v.out != []
    ensures var p := Reading(c, v, cap); DownInv(p.v) && Rest(c, v) == Ahead(DataOf(p.r), Rest(c, p.v))
  {
    hide Chunk;
    var n := Min(|v.out|, cap);
    assert v.out == v.out[..n] + v.out[n..];
    var later := if v.dec.u.direct then Story(Unseen(v.g, v.s), true)
                 else Chunk(c, v.dec, v.tls.plain, v.tls.seqno, v.tls.partial + Unseen(v.g, v.s));
    AheadTwice(v.out[..n], v.out[n..], later);
  }

  lemma ReadDirect(c: Cipher, v: Down, cap: nat)
    requires DownInv(v) && v.out == [] && v.dec.u.direct
    ensures var p := Reading(c, v, cap); DownInv(p.v) && Rest(c, v) == Ahead(DataOf(p.r), Rest(c, p.v))
  {
    var p := SockRead(v.s, cap);
    NilLeft(v.s.unread);
    NilLeft(p.s.unread);
  }

  /** No raw byte reaches TLS: past Direct the TLS layer holds nothing and is given nothing, nor is the gate. */
  lemma RawBypassesTls(c: Cipher, v: Down, cap: nat)
    requires DownInv(v) && v.dec.u.direct
    ensures v.tls.plain == [] == v.tls.partial && v.g.buf == []
    ensures var p := Reading(c, v, cap); p.v.tls == v.tls && p.v.g == v.g && p.v.dec == v.dec
  {
  }

  lemma ReadThrough(c: Cipher, v: Down, cap: nat)
    requires DownInv(v) && v.out == [] && v.dec.u.done && !v.dec.u.direct && v.dec.raw == []
    requires Reading(c, v, cap).r != Error
    ensures var p := Reading(c, v, cap); DownInv(p.v) && Rest(c, v) == Ahead(DataOf(p.r), Rest(c, p.v))
  {
    hide TlsRead, Chunk, Stuck;
    var p := TlsRead(c, v.tls, v.g, v.s, cap);
    TlsReadThrough(c, v.dec, v.tls, v.g, v.s, cap);
    NothingAhead(Chunk(c, v.dec, v.tls.plain, v.tls.seqno, v.tls.partial + Unseen(v.g, v.s)));
    NothingAhead(Chunk(c, v.dec, p.t.plain, p.t.seqno, p.t.partial + Unseen(p.g, p.s)));
  }

  // ---------------------------------------------------------------------------
  // The end of the stream
  // ---------------------------------------------------------------------------

  lemma {:induction false} GatedEof(c: Cipher, d: Decoder, t: TlsIn, g: Gate, s: Sock)
    requires Coupled(t, g, s) && Stuck(d) && !d.u.direct
    requires TlsRead(c, t, g, s, READ_CHUNK).r == Ready([])
    ensures var p := TlsRead(c, t, g, s, READ_CHUNK); !WholeRecord(p.t.partial + Unseen(p.g, p.s)) && p.s.unread == []
    decreases |Unseen(g, s)|
  {
    hide GateRead, Absorb;
    var p := GateRead(g, s, Ask(t));
    CoupledReceive(c, d, t, g, s);
    if DataOf(p.r) == [] {
      GateEof(g, s, Ask(t));
    } else {
      var t1 := Received(t, p.r.data);
      CoupledAbsorb(c, d, t1, p.g, p.s);
      GatedEof(c, d, Absorb(c, t1).t, p.g, p.s);
    }
  }

  lemma {:induction false} ThroughEof(c: Cipher, t: TlsIn, g: Gate, s: Sock, cap: nat)
    requires !g.gating && !WholeRecord(t.partial) && cap > 0
    requires TlsRead(c, t, g, s, cap).r == Ready([])
    ensures var p := TlsRead(c, t, g, s, cap);
            !WholeRecord(p.t.partial + Unseen(p.g, p.s)) && p.t.plain == [] && p.s.unread == []
    decreases |Unseen(g, s)|
  {
    hide GateRead, Absorb;
    var p := GateRead(g, s, Ask(t));
    if DataOf(p.r) == [] {
      GateEof(g, s, Ask(t));
      assert t.partial + [] == t.partial;
    } else {
      ThroughEof(c, Absorb(c, Received(t, p.r.data)).t, p.g, p.s, cap);
    }
  }

  /** A caller with room in its buffer is told the stream has ended only when nothing is left to deliver. */
  lemma {:induction false} EofMeansAll(c: Cipher, v: Down, cap: nat)
    requires DownInv(v) && cap > 0 && Reading(c, v, cap).r == Ready([])
    ensures Rest(c, Reading(c, v, cap).v) == Story([], true)
    decreases |Unseen(v.g, v.s)|, |v.tls.plain|
  {
    hide TlsRead, Decode, Stuck;
    if v.out == [] && !v.dec.u.direct {
      DoneMeans(v.dec);
      if v.dec.u.done {
        var p := TlsRead(c, v.tls, v.g, v.s, cap);
        ThroughEof(c, v.tls, v.g, v.s, cap);
        ChunkNothing(c, v.dec, p.t.seqno, p.t.partial + Unseen(p.g, p.s));
      } else {
        var g := v.g.(open := true);
        var p := TlsRead(c, v.tls, g, v.s, READ_CHUNK);
        TlsReadGated(c, v.dec, v.tls, g, v.s);
        if DataOf(p.r) == [] {
          GatedEof(c, v.dec, v.tls, g, v.s);
          ChunkNothing(c, v.dec, p.t.seqno, p.t.partial + Unseen(p.g, p.s));
        } else {
          DigestKeeps(c, Under(v, p), p.r.data);
          EofMeansAll(c, Digested(Under(v, p), Decode(v.dec, p.r.data)), cap);
        }
      }
    }
  }
}
