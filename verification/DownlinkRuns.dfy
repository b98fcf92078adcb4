/** Whole runs of the read path: what is delivered, and that a run on a responsive socket delivers it all. */
module DownlinkRuns {
  import opened Bytes
  import opened Framing
  import opened ResponseHeader
  import opened Sniffer
  import opened Decoding
  import opened RecordGate
  import opened GateRuns
  import opened TlsReading
  import opened Downlink
  import PaddingRuns

  /** A client connection whose gating starts at the first byte of `Unseen`. */
  function Connected(t: Traffic, buf: bytes, s: Sock, asks: seq<nat>): Down {
    Down(t, CLIENT, [], TlsIn([], [], 0, asks), Starting(FRESH_GATE.(buf := buf)), s)
  }

  /** What the owner of the stream does: read with some buffer size, or write, which shows the sniffer a packet. */
  datatype Turn = Read(cap: nat) | Sniff(packet: bytes)

  datatype Outcome = Running | Ended | Failed

  datatype Reads = Reads(v: Down, delivered: bytes, outcome: Outcome)

  function Sniffed(v: Down, packet: bytes): Down {
    v.(t := Filtered(v.t, packet))
  }

  /** One turn after the other, until the stream ends or an error occurs. */
  function ReadAll(c: Cipher, v: Down, turns: seq<Turn>): Reads
    decreases |turns|
  {
    if turns == [] then Reads(v, [], Running)
    else
      match turns[0]
      case Sniff(packet) => ReadAll(c, Sniffed(v, packet), turns[1..])
      case Read(cap) =>
        var p := Reading(c, v, cap);
        if p.r.Error? then Reads(p.v, [], Failed)
        else if p.r == Ready([]) && cap > 0 then Reads(p.v, [], Ended)
        else
          var later := ReadAll(c, p.v, turns[1..]);
          later.(delivered := DataOf(p.r) + later.delivered)
  }

  /** The sniffer has no part in what is delivered. */
  lemma SniffKeeps(c: Cipher, v: Down, packet: bytes)
    ensures DownInv(v) ==> DownInv(Sniffed(v, packet))
    ensures Rest(c, Sniffed(v, packet)) == Rest(c, v)
  {
    hide Filtered, Chunk, Stuck;
  }

  lemma ConnectedInv(c: Cipher, t: Traffic, buf: bytes, s: Sock, asks: seq<nat>)
    ensures var v := Connected(t, buf, s, asks); DownInv(v) && Rest(c, v) == Expected(c, buf + s.unread)
  {
    ClientStuck();
    NilLeft(buf + s.unread);
    ChunkNothing(c, CLIENT, 0, buf + s.unread);
    NothingAhead(Expected(c, buf + s.unread));
  }

  lemma {:induction false} ReadAllDelivers(c: Cipher, v: Down, turns: seq<Turn>)
    requires DownInv(v)
    ensures var r := ReadAll(c, v, turns);
            && r.delivered <= Rest(c, v).out
            && (!r.outcome.Failed? ==> DownInv(r.v) && Rest(c, v) == Ahead(r.delivered, Rest(c, r.v)))
            && (r.outcome.Ended? ==> Rest(c, v) == Story(r.delivered, true))
    decreases |turns|
  {
    hide Reading, Rest, DownInv, Sniffed;
    if turns == [] {
      NothingAhead(Rest(c, v));
    } else if turns[0].Sniff? {
      SniffKeeps(c, v, turns[0].packet);
      ReadAllDelivers(c, Sniffed(v, turns[0].packet), turns[1..]);
    } else {
      var p := Reading(c, v, turns[0].cap);
      if !p.r.Error? {
        ReadConserves(c, v, turns[0].cap);
        if p.r == Ready([]) && turns[0].cap > 0 {
          EofMeansAll(c, v, turns[0].cap);
          NothingAhead(Rest(c, p.v));
        } else {
          ReadAllDelivers(c, p.v, turns[1..]);
          var later := ReadAll(c, p.v, turns[1..]);
          AheadTwice(DataOf(p.r), later.delivered, Rest(c, later.v));
          PrefixAhead(DataOf(p.r), later.delivered, Rest(c, p.v).out);
        }
      }
    }
  }

  lemma PrefixAhead(d: bytes, a: bytes, b: bytes)
    requires a <= b
    ensures d + a <= d + b
  {
    assert (d + b)[|d|..] == b;
  }

  /**
   * Downlink equivalence, for any wire: whatever the socket's chunking and pauses, the TLS layer's read
   * sizes, the caller's buffers and the writes in between, what a run has delivered is a prefix of what the
   * wire stands for; until an error the rest is still to come in order; and once the end is reported all
   * was delivered.
   */
  lemma DownlinkEquivalence(c: Cipher, t: Traffic, buf: bytes, s: Sock, asks: seq<nat>, turns: seq<Turn>)
    ensures var r := ReadAll(c, Connected(t, buf, s, asks), turns);
            var due := Expected(c, buf + s.unread);
            && r.delivered <= due.out
            && (!r.outcome.Failed? ==> due == Ahead(r.delivered, Rest(c, r.v)))
            && (r.outcome.Ended? ==> due == Story(r.delivered, true))
  {
    ConnectedInv(c, t, buf, s, asks);
    ReadAllDelivers(c, Connected(t, buf, s, asks), turns);
  }

  // ---------------------------------------------------------------------------
  // What a server's wire stands for
  // ---------------------------------------------------------------------------

  /** `records` are whole TLS records that open, in order from number `k`, to `plains`. */
  ghost predicate Seals(c: Cipher, k: nat, records: seq<bytes>, plains: seq<bytes>) {
    && |records| == |plains|
    && forall i :: 0 <= i < |records| ==>
         && TLS_RECORD_HEADER_LEN <= |records[i]| == RecordLen(records[i])
         && OpenRecord(c, k + i, records[i]) == Some(plains[i])
  }

  lemma FirstRecord(first: bytes, later: bytes)
    requires TLS_RECORD_HEADER_LEN <= |first| == RecordLen(first)
    ensures WholeRecord(first + later) && RecordLen(first + later) == |first|
    ensures (first + later)[..|first|] == first && (first + later)[|first|..] == later
  {
    FrontRecord(first, later);
    Cut(first, later);
  }

  /**
   * When Direct arrives within the last record and not before, the wire stands for the decoded
   * plaintext (including whatever follows the Direct frame in that record), then the raw bytes.
   */
  lemma {:induction false} SealedThenRaw(c: Cipher, d: Decoder, k: nat, records: seq<bytes>, plains: seq<bytes>,
                                         raw: bytes)
    requires Stuck(d) && !d.u.direct && records != [] && Seals(c, k, records, plains)
    requires Decode(d, Concat(plains)).status.Good? && Decode(d, Concat(plains)).d.u.direct
    requires !Decode(d, Concat(plains[..|plains| - 1])).d.u.direct
    ensures Records(c, d, k, Concat(records) + raw) == Story(Decode(d, Concat(plains)).out + raw, true)
    decreases |records|
  {
    hide Decode, Stuck;
    var first, p := records[0], plains[0];
    var later := Concat(records[1..]) + raw;
    Assoc(first, Concat(records[1..]), raw);
    FirstRecord(first, later);
    NextRecord(c, d, k, first + later);
    var x := Decode(d, p);
    DecodeSplit(d, p, Concat(plains[1..]));
    if |records| == 1 {
      assert records[1..] == [] && plains[1..] == [] && p + [] == p;
      NilLeft(raw);
    } else {
      var init := plains[1..][..|plains| - 2];
      assert plains[..|plains| - 1] == [p] + init;
      assert Concat([p] + init) == p + Concat(init) by { assert ([p] + init)[1..] == init; }
      DecodeSplit(d, p, Concat(init));
      StillPadding(d, p, Concat(init));
      DecodeStuck(d, p);
      SealedThenRaw(c, x.d, k + 1, records[1..], plains[1..], raw);
      AheadTwice(x.out, Decode(x.d, Concat(plains[1..])).out, Story(raw, true));
    }
  }

  /** Without any Direct the wire stands for the whole decoded plaintext; an incomplete last record for nothing. */
  lemma {:induction false} SealedOnly(c: Cipher, d: Decoder, k: nat, records: seq<bytes>, plains: seq<bytes>,
                                      cut: bytes)
    requires Stuck(d) && Seals(c, k, records, plains) && !WholeRecord(cut)
    requires Decode(d, Concat(plains)).status.Good? && !Decode(d, Concat(plains)).d.u.direct
    ensures Records(c, d, k, Concat(records) + cut) == Story(Decode(d, Concat(plains)).out, true)
    decreases |records|
  {
    hide Decode, Stuck;
    if records == [] {
      NilLeft(cut);
      StuckMeans(d);
    } else {
      var first, p := records[0], plains[0];
      var later := Concat(records[1..]) + cut;
      Assoc(first, Concat(records[1..]), cut);
      FirstRecord(first, later);
      NextRecord(c, d, k, first + later);
      DecodeSplit(d, p, Concat(plains[1..]));
      StillPadding(d, p, Concat(plains[1..]));
      DecodeStuck(d, p);
      SealedOnly(c, Decode(d, p).d, k + 1, records[1..], plains[1..], cut);
    }
  }

  lemma StuckMeans(d: Decoder)
    requires Stuck(d)
    ensures Decode(d, []) == Decoded(d, [], Good)
  {
  }

  /** Direct is never taken back. */
  lemma StillPadding(d: Decoder, p: bytes, q: bytes)
    requires Stuck(d) && Decode(d, p).status.Good? && !Decode(d, p + q).d.u.direct
    ensures !Decode(d, p).d.u.direct
  {
    hide Decode;
    DecodeSplit(d, p, q);
    DecodeStuck(d, p);
    if Decode(d, p).d.u.direct {
      PassesDirect(Decode(d, p).d, q);
    }
  }

  lemma PassesDirect(d: Decoder, q: bytes)
    requires Stuck(d) && d.u.direct
    ensures Decode(d, q) == Decoded(d, q, Good)
  {
    PassThrough(d, q);
  }

  /** A server that frames like this client: response header, then everything its framer wrote. */
  lemma ServerPlaintext(addons: bytes, id: Uuid, camouflage: Option<nat>, events: seq<PaddingRuns.Event>,
                        r: PaddingRuns.Run)
    requires |addons| < 256 && PaddingRuns.Reached(id, camouflage, events, r)
    ensures Decode(CLIENT, Response(addons) + r.wire)
         == Decoded(Decoder(true, PaddingRuns.Peer(r.p), []), PaddingRuns.Written(events), Good)
  {
    hide Unpadding, PaddingRuns.After, PaddingRuns.Start;
    FeedResponse(addons, r.wire);
    NilLeft(Response(addons) + r.wire);
    ConcatOne(r.wire);
    PaddingRuns.RoundTrip(id, camouflage, events, r, [r.wire]);
    PastHeaderStuck();
    ChunkingIrrelevant(Decoder(true, FRESH, []), [r.wire]);
    NilLeft(r.wire);
  }

  // ---------------------------------------------------------------------------
  // Progress
  // ---------------------------------------------------------------------------

  /** The socket always has something to say: bytes while there are any, then the end of the stream. */
  ghost predicate Responsive(s: Sock) {
    (forall i :: 0 <= i < |s.answers| ==> s.answers[i].Give?) && |s.unread| < |s.answers|
  }

  lemma SockResponds(s: Sock, cap: nat)
    requires Responsive(s) && cap > 0
    ensures var p := SockRead(s, cap); p.r.Ready? && (p.r.data != [] ==> Responsive(p.s))
  {
    assert s.answers[0].Give?;
  }

  /** The gate stops only at a record boundary where it has not been opened. */
  lemma {:induction false} GateResponds(g: Gate, s: Sock, cap: nat)
    requires Responsive(s) && cap > 0
    ensures var p := GateRead(g, s, cap);
            && !p.r.Error?
            && (p.r.Pending? ==> p == Polled(g, s, Pending) && g.gating && g.remaining == 0 && !g.open)
            && (DataOf(p.r) != [] ==> Responsive(p.s))
    decreases |s.answers|
  {
    hide SockRead, HandedOver;
    if !g.gating {
      SockResponds(s, cap);
    } else if g.remaining > 0 {
      SockResponds(s, FILL_CHUNK);
    } else if g.open && |g.buf| < TLS_RECORD_HEADER_LEN {
      SockResponds(s, FILL_CHUNK);
      var p := Filled(g, s);
      if p.r.Ready? && p.r.data != [] {
        GateResponds(p.g, p.s, cap);
      }
    }
  }

  /** The TLS layer pauses only after it has used up wire bytes, unless the gate was closed to begin with. */
  lemma {:induction false} TlsResponds(c: Cipher, t: TlsIn, g: Gate, s: Sock, cap: nat)
    requires Responsive(s) && cap > 0
    ensures var p := TlsRead(c, t, g, s, cap);
            && (p.r.Pending? ==>
                  || |Unseen(p.g, p.s)| < |Unseen(g, s)|
                  || (g.gating && g.remaining == 0 && !g.open))
            && (p.r.Pending? || DataOf(p.r) != [] ==> Responsive(p.s))
    decreases |Unseen(g, s)|
  {
    hide GateRead, Absorb;
    if t.plain == [] {
      var p := GateRead(g, s, Ask(t));
      GateResponds(g, s, Ask(t));
      if DataOf(p.r) != [] {
        var a := Absorb(c, Received(t, p.r.data));
        if a.ok {
          TlsResponds(c, a.t, p.g, p.s, cap);
        }
      }
    }
  }

  /** While gating, a record that does not open shows in the wire's story. */
  lemma {:induction false} GatedError(c: Cipher, d: Decoder, t: TlsIn, g: Gate, s: Sock)
    requires Coupled(t, g, s) && Stuck(d) && !d.u.direct && Responsive(s)
    requires TlsRead(c, t, g, s, READ_CHUNK).r.Error?
    ensures !Chunk(c, d, [], t.seqno, t.partial + Unseen(g, s)).sane
    decreases |Unseen(g, s)|
  {
    hide Chunk, GateRead, Absorb;
    var p := GateRead(g, s, Ask(t));
    GateResponds(g, s, Ask(t));
    CoupledReceive(c, d, t, g, s);
    var t1 := Received(t, DataOf(p.r));
    if Absorb(c, t1).ok {
      CoupledAbsorb(c, d, t1, p.g, p.s);
      GatedError(c, d, Absorb(c, t1).t, p.g, p.s);
    } else {
      AbsorbFails(c, d, t1, Unseen(p.g, p.s));
    }
  }

  lemma AbsorbFails(c: Cipher, d: Decoder, t: TlsIn, later: bytes)
    requires Stuck(d) && !d.u.direct && t.plain == [] && !Absorb(c, t).ok
    requires TLS_RECORD_HEADER_LEN <= |t.partial + later| && RecordLen(t.partial + later) >= |t.partial|
    ensures !Chunk(c, d, [], t.seqno, t.partial + later).sane
  {
    hide Decode, Stuck;
    FrontRecord(t.partial, later);
    ChunkNothing(c, d, t.seqno, t.partial + later);
    if OpenRecord(c, t.seqno, t.partial[..RecordLen(t.partial)]).Some? {
      assert t.partial[RecordLen(t.partial)..] == [];
    }
  }

  lemma {:induction false} AbsorbFailsThrough(c: Cipher, d: Decoder, t: TlsIn, later: bytes)
    requires Stuck(d) && d.u.done && !d.u.direct && !Absorb(c, t).ok
    ensures !Chunk(c, d, t.plain, t.seqno, t.partial + later).sane
    decreases |t.partial|
  {
    hide Decode, Stuck, Chunk;
    var n := RecordLen(t.partial);
    FrontRecord(t.partial, later);
    ChunkThrough(c, d, t.plain, t.seqno, t.partial + later);
    var p := OpenRecord(c, t.seqno, t.partial[..n]);
    if p.Some? {
      var t1 := TlsIn(t.plain + p.value, t.partial[n..], t.seqno + 1, t.asks);
      AbsorbFailsThrough(c, d, t1, later);
      NextRecord(c, d, t.seqno, t.partial + later);
      ChunkThrough(c, d, p.value, t1.seqno, t1.partial + later);
      ChunkThrough(c, d, t1.plain, t1.seqno, t1.partial + later);
    }
  }

  /** After End, a record that does not open shows in the wire's story as well. */
  lemma {:induction false} ThroughError(c: Cipher, d: Decoder, t: TlsIn, g: Gate, s: Sock, cap: nat)
    requires Stuck(d) && d.u.done && !d.u.direct && !WholeRecord(t.partial) && Responsive(s)
    requires TlsRead(c, t, g, s, cap).r.Error?
    ensures !Chunk(c, d, t.plain, t.seqno, t.partial + Unseen(g, s)).sane
    decreases |Unseen(g, s)|
  {
    hide Chunk, GateRead, Absorb;
    var p := GateRead(g, s, Ask(t));
    GateResponds(g, s, Ask(t));
    Assoc(t.partial, DataOf(p.r), Unseen(p.g, p.s));
    var t1 := Received(t, DataOf(p.r));
    if Absorb(c, t1).ok {
      AbsorbThrough(c, d, t1, Unseen(p.g, p.s));
      ThroughError(c, d, Absorb(c, t1).t, p.g, p.s, cap);
    } else {
      AbsorbFailsThrough(c, d, t1, Unseen(p.g, p.s));
    }
  }

  /** On a responsive socket a read fails only if the wire itself is bad. */
  lemma {:induction false} ErrorMeansBadWire(c: Cipher, v: Down, cap: nat)
    requires DownInv(v) && Responsive(v.s) && cap > 0 && Reading(c, v, cap).r.Error?
    ensures !Rest(c, v).sane
    decreases |Unseen(v.g, v.s)|, |v.tls.plain|
  {
    hide TlsRead, Stuck, SockRead, Decode;
    DoneMeans(v.dec);
    if v.dec.u.direct {
      SockResponds(v.s, cap);
    } else if v.dec.u.done {
      ThroughError(c, v.dec, v.tls, v.g, v.s, cap);
    } else {
      var g := v.g.(open := true);
      var p := TlsRead(c, v.tls, g, v.s, READ_CHUNK);
      if p.r.Error? {
        GatedError(c, v.dec, v.tls, g, v.s);
      } else {
        TlsReadGated(c, v.dec, v.tls, g, v.s);
        TlsResponds(c, v.tls, g, v.s, READ_CHUNK);
        if Decode(v.dec, p.r.data).status.Good? {
          DigestKeeps(c, Under(v, p), p.r.data);
          ErrorMeansBadWire(c, Digested(Under(v, p), Decode(v.dec, p.r.data)), cap);
        }
      }
    }
  }

  /** Reading only uses up the wire, and pauses only after it has used some. */
  lemma {:induction false} ReadUsesWire(c: Cipher, v: Down, cap: nat)
    requires DownInv(v) && Responsive(v.s) && cap > 0 && !Reading(c, v, cap).r.Error?
    ensures var p := Reading(c, v, cap);
            && |Unseen(p.v.g, p.v.s)| <= |Unseen(v.g, v.s)|
            && (p.r.Pending? ==> |Unseen(p.v.g, p.v.s)| < |Unseen(v.g, v.s)|)
            && (p.r.Pending? || DataOf(p.r) != [] ==> Responsive(p.v.s))
    decreases |Unseen(v.g, v.s)|, |v.tls.plain|
  {
    hide TlsRead, Stuck, SockRead, Decode;
    DoneMeans(v.dec);
    if v.out != [] {
    } else if v.dec.u.direct {
      SockResponds(v.s, cap);
    } else if v.dec.u.done {
      TlsResponds(c, v.tls, v.g, v.s, cap);
    } else {
      var g := v.g.(open := true);
      var p := TlsRead(c, v.tls, g, v.s, READ_CHUNK);
      TlsReadGated(c, v.dec, v.tls, g, v.s);
      TlsResponds(c, v.tls, g, v.s, READ_CHUNK);
      if DataOf(p.r) != [] {
        DigestKeeps(c, Under(v, p), p.r.data);
        ReadUsesWire(c, Digested(Under(v, p), Decode(v.dec, p.r.data)), cap);
      }
    }
  }

  /** What bounds the number of reads still to come. */
  function Left(c: Cipher, v: Down): nat {
    |Rest(c, v).out| + |Unseen(v.g, v.s)|
  }

  /** The reads among the turns. */
  function ReadCount(turns: seq<Turn>): nat {
    if turns == [] then 0 else (if turns[0].Read? then 1 else 0) + ReadCount(turns[1..])
  }

  ghost predicate Roomy(turns: seq<Turn>) {
    forall i :: 0 <= i < |turns| && turns[i].Read? ==> turns[i].cap > 0
  }

  lemma RoomyTail(turns: seq<Turn>)
    requires Roomy(turns) && turns != []
    ensures Roomy(turns[1..]) && (turns[0].Read? ==> turns[0].cap > 0)
  {
  }

  /**
   * Progress: on a responsive socket, with room to read into and a wire whose records open and decode,
   * more reads than there are bytes left reach the end of the stream, whatever is written in between, and
   * then everything the wire stands for has been delivered.
   */
  lemma {:induction false} EverythingArrives(c: Cipher, v: Down, turns: seq<Turn>)
    requires DownInv(v) && Responsive(v.s) && Rest(c, v).sane
    requires Roomy(turns) && ReadCount(turns) > Left(c, v)
    ensures ReadAll(c, v, turns).outcome.Ended? && ReadAll(c, v, turns).delivered == Rest(c, v).out
    decreases |turns|
  {
    hide Reading, Rest, DownInv, Roomy, Responsive;
    RoomyTail(turns);
    if turns[0].Sniff? {
      SniffKeeps(c, v, turns[0].packet);
      EverythingArrives(c, Sniffed(v, turns[0].packet), turns[1..]);
    } else {
      var p := Reading(c, v, turns[0].cap);
      if p.r.Error? {
        ErrorMeansBadWire(c, v, turns[0].cap);
      } else {
        ReadConserves(c, v, turns[0].cap);
        ReadUsesWire(c, v, turns[0].cap);
        if p.r == Ready([]) {
          EofMeansAll(c, v, turns[0].cap);
        } else {
          EverythingArrives(c, p.v, turns[1..]);
        }
      }
    }
  }

  // ---------------------------------------------------------------------------
  // End to end
  // ---------------------------------------------------------------------------

  /** What a run must do when `due` is what the server's wire stands for. */
  ghost predicate Delivers(c: Cipher, v: Down, turns: seq<Turn>, due: bytes) {
    var r := ReadAll(c, v, turns);
    && r.delivered <= due
    && (r.outcome.Ended? ==> r.delivered == due)
    && (Responsive(v.s) && Roomy(turns) && ReadCount(turns) > |due| + |Unseen(v.g, v.s)| ==> r.outcome.Ended?)
  }

  lemma DeliversDue(c: Cipher, t: Traffic, buf: bytes, s: Sock, asks: seq<nat>, turns: seq<Turn>, due: bytes)
    requires Expected(c, buf + s.unread) == Story(due, true)
    ensures Delivers(c, Connected(t, buf, s, asks), turns, due)
  {
    hide ReadAll, Expected, Roomy, Responsive;
    var v := Connected(t, buf, s, asks);
    DownlinkEquivalence(c, t, buf, s, asks, turns);
    ConnectedInv(c, t, buf, s, asks);
    if Responsive(s) && Roomy(turns) && ReadCount(turns) > |due| + |Unseen(v.g, v.s)| {
      EverythingArrives(c, v, turns);
    }
  }

  /**
   * End to end, with Direct: the server sends its response header and framed data in TLS records of any size,
   * Direct arrives in the last of them, and raw bytes follow. Then every run of the client, its writes in
   * between included, delivers a prefix of what the server wrote followed by the raw bytes, and all of it by
   * the time it sees the end; on a responsive socket it does see the end after enough reads.
   */
  lemma EndToEnd(c: Cipher, addons: bytes, id: Uuid, camouflage: Option<nat>, events: seq<PaddingRuns.Event>,
                 server: PaddingRuns.Run, records: seq<bytes>, plains: seq<bytes>, raw: bytes,
                 t: Traffic, buf: bytes, s: Sock, asks: seq<nat>, turns: seq<Turn>)
    requires |addons| < 256 && 0 < |records| == |plains| && Seals(c, 0, records, plains)
    requires PaddingRuns.Reached(id, camouflage, events, server) && server.p.direct
    requires Concat(plains) == Response(addons) + server.wire
    requires !Decode(CLIENT, Concat(plains[..|plains| - 1])).d.u.direct
    requires buf + s.unread == Concat(records) + raw
    ensures Delivers(c, Connected(t, buf, s, asks), turns, PaddingRuns.Written(events) + raw)
  {
    hide Decode, PaddingRuns.After, PaddingRuns.Start, Delivers;
    ServerPlaintext(addons, id, camouflage, events, server);
    ClientStuck();
    SealedThenRaw(c, CLIENT, 0, records, plains, raw);
    DeliversDue(c, t, buf, s, asks, turns, PaddingRuns.Written(events) + raw);
  }

  /**
   * End to end, without Direct: padding ended in End, or has not ended. Then every run delivers a prefix of what
   * the server wrote, all of it by the time it sees the end, and does see it; an incomplete last record counts for
   * nothing.
   */
  lemma EndToEndSealed(c: Cipher, addons: bytes, id: Uuid, camouflage: Option<nat>, events: seq<PaddingRuns.Event>,
                       server: PaddingRuns.Run, records: seq<bytes>, plains: seq<bytes>, cut: bytes,
                       t: Traffic, buf: bytes, s: Sock, asks: seq<nat>, turns: seq<Turn>)
    requires |addons| < 256 && Seals(c, 0, records, plains) && !WholeRecord(cut)
    requires PaddingRuns.Reached(id, camouflage, events, server) && !server.p.direct
    requires Concat(plains) == Response(addons) + server.wire
    requires buf + s.unread == Concat(records) + cut
    ensures Delivers(c, Connected(t, buf, s, asks), turns, PaddingRuns.Written(events))
  {
    hide Decode, PaddingRuns.After, PaddingRuns.Start, Delivers;
    ServerPlaintext(addons, id, camouflage, events, server);
    ClientStuck();
    SealedOnly(c, CLIENT, 0, records, plains, cut);
    DeliversDue(c, t, buf, s, asks, turns, PaddingRuns.Written(events));
  }
}
