/**
 * What the read path shows the sniffer (src/outbound/vision.rs:557-596), over whole runs: the decoded contents of the
 * wire's records, in order, and after End what is passed through.
 */
module SniffedReads {
  import opened Bytes
  import opened Framing
  import opened Sniffer
  import opened Decoding
  import opened RecordGate
  import opened GateRuns
  import opened TlsReading
  import opened Downlink
  import opened DownlinkRuns

  // ---------------------------------------------------------------------------
  // What the wire holds for the sniffer
  // ---------------------------------------------------------------------------

  /** The plaintexts of the whole records at the front of a stream, up to the first that does not open. */
  function Plains(c: Cipher, k: nat, stream: bytes): seq<bytes>
    decreases |stream|
  {
    if !WholeRecord(stream) then []
    else
      match OpenRecord(c, k, stream[..RecordLen(stream)])
      case None => []
      case Some(p) => [p] + Plains(c, k + 1, stream[RecordLen(stream)..])
  }

  /** What each of these plaintexts decodes to, where it decodes to anything, until padding ends. */
  function ContentsOf(d: Decoder, plains: seq<bytes>): seq<bytes>
    decreases |plains|
  {
    if d.u.done || plains == [] || !Decode(d, plains[0]).status.Good? then []
    else
      var x := Decode(d, plains[0]);
      Nonempty(x.out) + ContentsOf(x.d, plains[1..])
  }

  function Nonempty(b: bytes): (s: seq<bytes>)
    ensures Concat(s) == b && (forall x :: x in s ==> x != [])
  {
    if b == [] then []
    else
      ConcatOne(b);
      [b]
  }

  /** The decoded contents still to come in a given state. */
  function Upcoming(c: Cipher, v: Down): seq<bytes> {
    ContentsOf(v.dec, Plains(c, v.tls.seqno, v.tls.partial + Unseen(v.g, v.s)))
  }

  lemma NextContents(d: Decoder, p: bytes, rest: seq<bytes>)
    requires !d.u.done && Decode(d, p).status.Good?
    ensures ContentsOf(d, [p] + rest) == Nonempty(Decode(d, p).out) + ContentsOf(Decode(d, p).d, rest)
  {
    assert ([p] + rest)[1..] == rest;
  }

  /** A record without plaintext shows the sniffer nothing. */
  lemma SkipEmpty(d: Decoder, rest: seq<bytes>)
    requires Stuck(d)
    ensures ContentsOf(d, [[]] + rest) == ContentsOf(d, rest)
  {
    if !d.u.done {
      StuckMeans(d);
      NextContents(d, [], rest);
      assert Nonempty([]) + ContentsOf(d, rest) == ContentsOf(d, rest);
    }
  }

  lemma NextPlain(c: Cipher, k: nat, stream: bytes)
    requires WholeRecord(stream) && OpenRecord(c, k, stream[..RecordLen(stream)]).Some?
    ensures Plains(c, k, stream) ==
            [OpenRecord(c, k, stream[..RecordLen(stream)]).value] + Plains(c, k + 1, stream[RecordLen(stream)..])
  {
  }

  // ---------------------------------------------------------------------------
  // One read of the TLS layer
  // ---------------------------------------------------------------------------

  lemma AbsorbPlains(c: Cipher, d: Decoder, t: TlsIn, g: Gate, s: Sock)
    requires t.plain == [] && g.gating && Stuck(d)
    requires TLS_RECORD_HEADER_LEN <= |t.partial + Unseen(g, s)|
    requires |t.partial| + g.remaining == RecordLen(t.partial + Unseen(g, s))
    requires Absorb(c, t).ok
    ensures var t' := Absorb(c, t).t;
            ContentsOf(d, Plains(c, t.seqno, t.partial + Unseen(g, s)))
            == ContentsOf(d, Nonempty(t'.plain) + Plains(c, t'.seqno, t'.partial + Unseen(g, s)))
  {
    hide ContentsOf, Plains, Decode, Stuck;
    var stream := t.partial + Unseen(g, s);
    if g.remaining == 0 {
      DropShort(t.partial, Unseen(g, s), TLS_RECORD_HEADER_LEN);
      FrontRecord(t.partial, Unseen(g, s));
      OneRecord(c, t);
      assert t.partial[RecordLen(t.partial)..] == [];
      assert t.partial[..RecordLen(t.partial)] == t.partial;
      NextPlain(c, t.seqno, stream);
      NilLeft(Unseen(g, s));
      SkipEmpty(d, Plains(c, t.seqno + 1, Unseen(g, s)));
      assert [] + Plains(c, t.seqno + 1, Unseen(g, s)) == Plains(c, t.seqno + 1, Unseen(g, s));
    } else {
      if TLS_RECORD_HEADER_LEN <= |t.partial| {
        FrontRecord(t.partial, Unseen(g, s));
      }
      assert [] + Plains(c, t.seqno, stream) == Plains(c, t.seqno, stream);
    }
  }

  lemma {:induction false} TlsReadPlains(c: Cipher, d: Decoder, t: TlsIn, g: Gate, s: Sock)
    requires Coupled(t, g, s) && Stuck(d) && !d.u.direct
    requires TlsRead(c, t, g, s, READ_CHUNK).r != Error
    ensures var p := TlsRead(c, t, g, s, READ_CHUNK);
            ContentsOf(d, Plains(c, t.seqno, t.partial + Unseen(g, s)))
            == ContentsOf(d, Nonempty(DataOf(p.r)) + Plains(c, p.t.seqno, p.t.partial + Unseen(p.g, p.s)))
    decreases |Unseen(g, s)|
  {
    hide ContentsOf, Plains, GateRead, Absorb, Decode, Stuck;
    var p := GateRead(g, s, Ask(t));
    CoupledReceive(c, d, t, g, s);
    if DataOf(p.r) == [] {
      assert [] + Plains(c, t.seqno, t.partial + Unseen(g, s)) == Plains(c, t.seqno, t.partial + Unseen(g, s));
    } else {
      var t1 := Received(t, p.r.data);
      var a := Absorb(c, t1);
      AbsorbPlains(c, d, t1, p.g, p.s);
      CoupledAbsorb(c, d, t1, p.g, p.s);
      if a.t.plain == [] {
        var later := Plains(c, a.t.seqno, a.t.partial + Unseen(p.g, p.s));
        assert [] + later == later;
        TlsReadPlains(c, d, a.t, p.g, p.s);
      } else {
        assert a.t.plain[..|a.t.plain|] == a.t.plain && a.t.plain[|a.t.plain|..] == [];
      }
    }
  }

  // ---------------------------------------------------------------------------
  // One read of the stream
  // ---------------------------------------------------------------------------

  lemma {:induction false} FilteredTwice(t: Traffic, a: seq<bytes>, b: seq<bytes>)
    ensures FilteredAll(t, a + b) == FilteredAll(FilteredAll(t, a), b)
    decreases |a|
  {
    if a == [] {
      assert a + b == b;
    } else {
      DropShort(a, b, 1);
      FilteredTwice(Filtered(t, a[0]), a[1..], b);
    }
  }

  lemma FilteredNone(t: Traffic)
    ensures FilteredAll(t, [] + []) == t
  {
  }

  lemma FilteredNonempty(t: Traffic, b: bytes)
    ensures FilteredAll(t, Nonempty(b)) == if b != [] then Filtered(t, b) else t
  {
    if b != [] {
      assert [b][1..] == [];
    }
  }

  /**
   * From `v` to `w` the sniffer was shown `framed` and then `through`: `framed` are the next decoded contents, `through`
   * what passed through after End, and these bytes, then raw ones, are what was delivered or waits to be.
   */
  ghost predicate Shows(c: Cipher, v: Down, w: Down, delivered: bytes, framed: seq<bytes>, through: seq<bytes>, raw: bytes) {
    && Upcoming(c, v) == framed + Upcoming(c, w)
    && v.out + Concat(framed) + Concat(through) + raw == delivered + w.out
    && (v.dec.u.done ==> framed == [] && w.dec.u.done)
    && (v.dec.u.direct ==> through == [] && w.dec.u.direct)
    && (!w.dec.u.done ==> through == [])
    && (!w.dec.u.direct ==> raw == [])
  }

  lemma ShowsNothing(c: Cipher, v: Down, w: Down, delivered: bytes, raw: bytes)
    requires w.dec == v.dec && (raw != [] ==> v.dec.u.direct) && v.out + raw == delivered + w.out
    requires Upcoming(c, v) == Upcoming(c, w)
    ensures Shows(c, v, w, delivered, [], [], raw)
  {
    hide Upcoming;
    assert v.out + [] + [] + raw == v.out + raw;
    assert [] + Upcoming(c, w) == Upcoming(c, w);
  }

  /** After End everything read is shown as it passes. */
  lemma ThroughShows(c: Cipher, v: Down, cap: nat) returns (through: seq<bytes>)
    requires DownInv(v) && v.out == [] && v.dec.u.done && !v.dec.u.direct
    requires Reading(c, v, cap).r != Error
    ensures var p := Reading(c, v, cap);
            p.v.t == FilteredAll(v.t, through) && Shows(c, v, p.v, DataOf(p.r), [], through, [])
  {
    hide TlsRead, Plains, Stuck, Filtered;
    DoneMeans(v.dec);
    var p := TlsRead(c, v.tls, v.g, v.s, cap);
    ReadEnds(c, v, cap);
    if p.r.Ready? {
      through := [p.r.data];
      assert through[1..] == [];
      ConcatOne(p.r.data);
    } else {
      through := [];
    }
    var d := DataOf(p.r);
    assert Concat(through) == d && [] + [] + d + [] == d + [];
  }

  /** One chunk decoded while padding lasts. */
  lemma DigestShows(c: Cipher, v: Down, data: bytes) returns (raw: bytes)
    requires Stuck(v.dec) && !v.dec.u.done && v.out == []
    requires Decode(v.dec, data).status.Good?
    ensures var x := Decode(v.dec, data);
            var w := Digested(v, x);
            && w.t == FilteredAll(v.t, Nonempty(x.out))
            && w.out == x.out + raw && (!w.dec.u.direct ==> raw == []) && w.dec == x.d
            && ContentsOf(v.dec, [data] + Plains(c, v.tls.seqno, v.tls.partial + Unseen(v.g, v.s)))
            == Nonempty(x.out) + Upcoming(c, w)
  {
    hide Plains, Filtered, Decode, Stuck;
    var x := Decode(v.dec, data);
    DecodeStuck(v.dec, data);
    NotYetDirect(v.dec);
    FilteredNonempty(v.t, x.out);
    var later := Plains(c, v.tls.seqno, v.tls.partial + Unseen(v.g, v.s));
    NextContents(v.dec, data, later);
    var w := Digested(v, x);
    raw := if x.d.u.direct then v.g.buf else [];
    assert x.out + [] == x.out;
    if x.d.u.direct {
      DirectIsDone(x.d);
      NoContents(x.d, later);
      NoContents(x.d, Plains(c, w.tls.seqno, w.tls.partial + Unseen(w.g, w.s)));
    } else {
      assert Unseen(w.g, w.s) == Unseen(v.g, v.s);
    }
  }

  lemma NoContents(d: Decoder, plains: seq<bytes>)
    requires d.u.done
    ensures ContentsOf(d, plains) == []
  {
  }

  lemma DirectIsDone(d: Decoder)
    requires Stuck(d)
    ensures d.u.direct ==> d.u.done
  {
  }

  lemma NotYetDirect(d: Decoder)
    requires Stuck(d) && !d.u.done
    ensures !d.u.direct
  {
  }

  /** Going on after a decoded chunk: what both steps show, taken together. */
  lemma ShowsMore(c: Cipher, v: Down, w: Down, z: Down, delivered: bytes, out: bytes, raw: bytes,
                  framed: seq<bytes>, through: seq<bytes>, later: bytes)
    requires v.out == [] && !v.dec.u.done && !v.dec.u.direct && w.out == out + raw && (!w.dec.u.direct ==> raw == [])
    requires w.dec.u.direct ==> w.dec.u.done
    requires Upcoming(c, v) == Nonempty(out) + Upcoming(c, w)
    requires Shows(c, w, z, delivered, framed, through, later)
    ensures Shows(c, v, z, delivered, Nonempty(out) + framed, through, raw + later)
  {
    hide Upcoming, Concat, Nonempty;
    Assoc(Nonempty(out), framed, Upcoming(c, z));
    ConcatAppend(Nonempty(out), framed);
    NoParts();
    NilLeft(out);
    NilLeft(out + raw);
    assert out + [] == out;
    JoinBytes([], out, [], raw, [], w.out, Concat(framed), Concat(through), later, delivered, z.out);
    NilLeft(Concat(through));
    NilLeft(delivered);
    NilLeft(later);
  }

  /** Gluing two accounts of what was shown and what came out. */
  lemma JoinBytes(vOut: bytes, f1: bytes, t1: bytes, r1: bytes, d1: bytes, wOut: bytes, f2: bytes, t2: bytes, r2: bytes,
                  d2: bytes, zOut: bytes)
    requires vOut + f1 + t1 + r1 == d1 + wOut && wOut + f2 + t2 + r2 == d2 + zOut
    requires f2 == [] || (t1 == [] && r1 == [])
    requires r1 == [] || t2 == []
    ensures vOut + (f1 + f2) + (t1 + t2) + (r1 + r2) == (d1 + d2) + zOut
  {
    FourParts(d1, wOut, f2, t2, r2);
    Assoc(d1, d2, zOut);
    SixParts(vOut, f1, t1, r1, f2, t2, r2);
  }

  lemma FourParts(d: bytes, a: bytes, b: bytes, c: bytes, e: bytes)
    ensures d + (a + b + c + e) == (d + a) + b + c + e
  {
    Assoc(a + b, c, e);
    Assoc(a, b, c + e);
    Assoc(d, a, b + (c + e));
    Assoc(d + a, b, c + e);
    Assoc((d + a) + b, c, e);
  }

  lemma SixParts(v: bytes, f1: bytes, t1: bytes, r1: bytes, f2: bytes, t2: bytes, r2: bytes)
    requires f2 == [] || (t1 == [] && r1 == [])
    requires r1 == [] || t2 == []
    ensures v + f1 + t1 + r1 + f2 + t2 + r2 == v + (f1 + f2) + (t1 + t2) + (r1 + r2)
  {
    var base := v + f1;
    Assoc(v, f1, f2);
    if f2 == [] {
      NilRight(f1);
      NilRight(base + t1 + r1);
      Assoc(base, t1, t2);
      if r1 == [] {
        NilRight(base + t1);
        NilLeft(r2);
      } else {
        NilRight(t1);
        NilRight(base + t1 + r1);
        Assoc(base + t1, r1, r2);
      }
    } else {
      NilRight(base);
      NilLeft(t2);
      NilLeft(r2);
    }
  }

  lemma NilRight(a: bytes)
    ensures a + [] == a
  {
  }

  lemma BufferedShows(c: Cipher, v: Down, cap: nat)
    requires v.out != []
    ensures var p := Reading(c, v, cap); p.v.t == v.t && Shows(c, v, p.v, DataOf(p.r), [], [], [])
  {
    hide Upcoming, Shows;
    var p := Reading(c, v, cap);
    var n := Min(|v.out|, cap);
    assert v.out + [] == v.out[..n] + v.out[n..];
    SameUpcoming(c, v, p.v);
    ShowsNothing(c, v, p.v, v.out[..n], []);
  }

  lemma DirectShows(c: Cipher, v: Down, cap: nat) returns (raw: bytes)
    requires DownInv(v) && v.out == [] && v.dec.u.direct
    ensures var p := Reading(c, v, cap); p.v.t == v.t && Shows(c, v, p.v, DataOf(p.r), [], [], raw)
  {
    hide Upcoming, Shows, SockRead, Stuck;
    var p := Reading(c, v, cap);
    raw := DataOf(p.r);
    DirectIsDone(v.dec);
    NilLeft(raw);
    NilRight(raw);
    DoneUpcoming(c, v);
    DoneUpcoming(c, p.v);
    ShowsNothing(c, v, p.v, raw, raw);
  }

  /** What one read shows the sniffer. */
  lemma {:induction false} ReadShows(c: Cipher, v: Down, cap: nat)
    returns (framed: seq<bytes>, through: seq<bytes>, raw: bytes)
    requires DownInv(v) && Reading(c, v, cap).r != Error
    ensures var p := Reading(c, v, cap);
            p.v.t == FilteredAll(v.t, framed + through) && Shows(c, v, p.v, DataOf(p.r), framed, through, raw)
    decreases |Unseen(v.g, v.s)|, |v.tls.plain|
  {
    hide TlsRead, Decode, Stuck, FilteredAll, Shows, Upcoming, Reading, Nonempty, ContentsOf, Plains;
    framed, through, raw := [], [], [];
    FilteredNone(v.t);
    DoneMeans(v.dec);
    if v.out != [] {
      BufferedShows(c, v, cap);
    } else if v.dec.u.direct {
      raw := DirectShows(c, v, cap);
    } else if v.dec.u.done {
      through := ThroughShows(c, v, cap);
      assert [] + through == through;
    } else {
      ReadRound(c, v, cap);
      var g := v.g.(open := true);
      var p := TlsRead(c, v.tls, g, v.s, READ_CHUNK);
      TlsReadGated(c, v.dec, v.tls, g, v.s);
      TlsReadPlains(c, v.dec, v.tls, g, v.s);
      assert Unseen(g, v.s) == Unseen(v.g, v.s);
      var u := Under(v, p);
      if DataOf(p.r) == [] {
        NothingRead(c, v, u);
        ShowsNothing(c, v, u, [], []);
      } else {
        OneRead(c, v, u, p.r.data);
        var first := DigestShows(c, u, p.r.data);
        var x := Decode(v.dec, p.r.data);
        var w := Digested(u, x);
        DecodeStuck(v.dec, p.r.data);
        DirectIsDone(x.d);
        DigestKeeps(c, u, p.r.data);
        NotYetDirect(v.dec);
        var more, late, tail := ReadShows(c, w, cap);
        framed, through, raw := Nonempty(x.out) + more, late, first + tail;
        ShowsMore(c, v, w, Reading(c, v, cap).v, DataOf(Reading(c, v, cap).r), x.out, first, more, late, tail);
        FilteredTwice(v.t, Nonempty(x.out), more + late);
        assert framed + through == Nonempty(x.out) + (more + late);
      }
    }
  }

  lemma SameUpcoming(c: Cipher, v: Down, w: Down)
    requires w == v.(out := w.out, t := w.t)
    ensures Upcoming(c, w) == Upcoming(c, v)
  {
    hide Plains, ContentsOf;
  }

  lemma DoneUpcoming(c: Cipher, v: Down)
    requires v.dec.u.done
    ensures Upcoming(c, v) == []
  {
  }

  lemma NothingRead(c: Cipher, v: Down, u: Down)
    requires u.dec == v.dec
    requires ContentsOf(v.dec, Plains(c, v.tls.seqno, v.tls.partial + Unseen(v.g, v.s)))
          == ContentsOf(v.dec, Nonempty([]) + Plains(c, u.tls.seqno, u.tls.partial + Unseen(u.g, u.s)))
    ensures Upcoming(c, v) == Upcoming(c, u)
  {
    hide Plains, ContentsOf;
    var later := Plains(c, u.tls.seqno, u.tls.partial + Unseen(u.g, u.s));
    assert Nonempty([]) + later == later;
  }

  lemma OneRead(c: Cipher, v: Down, u: Down, data: bytes)
    requires u.dec == v.dec && data != []
    requires ContentsOf(v.dec, Plains(c, v.tls.seqno, v.tls.partial + Unseen(v.g, v.s)))
          == ContentsOf(v.dec, Nonempty(data) + Plains(c, u.tls.seqno, u.tls.partial + Unseen(u.g, u.s)))
    ensures Upcoming(c, v) == ContentsOf(v.dec, [data] + Plains(c, u.tls.seqno, u.tls.partial + Unseen(u.g, u.s)))
  {
    hide Plains, ContentsOf;
  }

  // ---------------------------------------------------------------------------
  // Runs
  // ---------------------------------------------------------------------------

  /** A packet shown to the sniffer, by a read or by a write. */
  datatype Packet = FromServer(b: bytes) | FromClient(b: bytes)

  function Shown(seen: seq<Packet>): seq<bytes> {
    if seen == [] then [] else [seen[0].b] + Shown(seen[1..])
  }

  function Servers(seen: seq<Packet>): seq<bytes> {
    if seen == [] then [] else (if seen[0].FromServer? then [seen[0].b] else []) + Servers(seen[1..])
  }

  function Clients(seen: seq<Packet>): seq<bytes> {
    if seen == [] then [] else (if seen[0].FromClient? then [seen[0].b] else []) + Clients(seen[1..])
  }

  /** The packets written during a list of turns. */
  function Sniffs(turns: seq<Turn>): seq<bytes> {
    if turns == [] then [] else (if turns[0].Sniff? then [turns[0].packet] else []) + Sniffs(turns[1..])
  }

  function Reads(packets: seq<bytes>): seq<Packet> {
    seq(|packets|, i requires 0 <= i < |packets| => FromServer(packets[i]))
  }

  lemma {:induction false} ShownAppend(a: seq<Packet>, b: seq<Packet>)
    ensures Shown(a + b) == Shown(a) + Shown(b)
  {
    if a == [] {
      assert a + b == b;
    } else {
      DropShort(a, b, 1);
      ShownAppend(a[1..], b);
      Assoc([a[0].b], Shown(a[1..]), Shown(b));
    }
  }

  lemma {:induction false} ServersAppend(a: seq<Packet>, b: seq<Packet>)
    ensures Servers(a + b) == Servers(a) + Servers(b)
  {
    if a == [] {
      assert a + b == b;
    } else {
      DropShort(a, b, 1);
      ServersAppend(a[1..], b);
      Assoc(if a[0].FromServer? then [a[0].b] else [], Servers(a[1..]), Servers(b));
    }
  }

  lemma {:induction false} ClientsAppend(a: seq<Packet>, b: seq<Packet>)
    ensures Clients(a + b) == Clients(a) + Clients(b)
  {
    if a == [] {
      assert a + b == b;
    } else {
      DropShort(a, b, 1);
      ClientsAppend(a[1..], b);
      Assoc(if a[0].FromClient? then [a[0].b] else [], Clients(a[1..]), Clients(b));
    }
  }

  lemma SeenAppend(a: seq<Packet>, b: seq<Packet>)
    ensures Shown(a + b) == Shown(a) + Shown(b)
    ensures Servers(a + b) == Servers(a) + Servers(b) && Clients(a + b) == Clients(a) + Clients(b)
  {
    hide *;
    ShownAppend(a, b);
    ServersAppend(a, b);
    ClientsAppend(a, b);
  }

  lemma {:induction false} ReadsSeen(packets: seq<bytes>)
    ensures Shown(Reads(packets)) == packets == Servers(Reads(packets)) && Clients(Reads(packets)) == []
  {
    if packets != [] {
      assert Reads(packets)[1..] == Reads(packets[1..]);
      ReadsSeen(packets[1..]);
    }
  }

  lemma ShowsTwice(c: Cipher, v: Down, w: Down, z: Down, d1: bytes, d2: bytes, f1: seq<bytes>, f2: seq<bytes>,
                   t1: seq<bytes>, t2: seq<bytes>, r1: bytes, r2: bytes)
    requires Shows(c, v, w, d1, f1, t1, r1) && Shows(c, w, z, d2, f2, t2, r2)
    requires w.dec.u.direct ==> w.dec.u.done
    ensures Shows(c, v, z, d1 + d2, f1 + f2, t1 + t2, r1 + r2)
    ensures (f1 + f2) + (t1 + t2) == (f1 + t1) + (f2 + t2)
  {
    hide Upcoming, Concat;
    Assoc(f1, f2, Upcoming(c, z));
    ConcatAppend(f1, f2);
    ConcatAppend(t1, t2);
    NoParts();
    JoinBytes(v.out, Concat(f1), Concat(t1), r1, d1, w.out, Concat(f2), Concat(t2), r2, d2, z.out);
    if w.dec.u.done {
      assert f1 + f2 == f1;
    } else {
      assert t1 + t2 == t2 && f1 + t1 == f1;
    }
    Assoc(f1, f2, t2);
    Assoc(f1, t1, t2);
    NilLeft(t2);
  }

  lemma NoParts()
    ensures Concat<byte>([]) == []
  {
  }

  /**
   * Over every run without an error, the sniffer has seen an interleaving of the packets written and the packets read,
   * each in order; those read are the contents of the wire's records as they decode, one packet for each record that
   * yields any, then what passed through after End; and together they are what was delivered or waits, without raw bytes.
   */
  lemma {:induction false} RunShows(c: Cipher, v: Down, turns: seq<Turn>)
    returns (seen: seq<Packet>, framed: seq<bytes>, through: seq<bytes>, raw: bytes)
    requires DownInv(v) && !ReadAll(c, v, turns).outcome.Failed?
    ensures var r := ReadAll(c, v, turns);
            && r.v.t == FilteredAll(v.t, Shown(seen))
            && Servers(seen) == framed + through
            && Clients(seen) <= Sniffs(turns) && (r.outcome.Running? ==> Clients(seen) == Sniffs(turns))
            && Shows(c, v, r.v, r.delivered, framed, through, raw)
    decreases |turns|
  {
    hide Reading, DownInv, Shows, Upcoming, Filtered, Sniffed;
    if turns == [] {
      seen, framed, through, raw := [], [], [], [];
      assert v.out + [] == [] + v.out;
      ShowsNothing(c, v, v, [], []);
    } else if turns[0].Sniff? {
      var packet := turns[0].packet;
      var w := Sniffed(v, packet);
      SniffKeeps(c, v, packet);
      seen, framed, through, raw := RunShows(c, w, turns[1..]);
      SniffedShows(c, v, packet, ReadAll(c, v, turns).v, ReadAll(c, v, turns).delivered, framed, through, raw);
      var first := [FromClient(packet)];
      SeenAppend(first, seen);
      assert first[1..] == [];
      assert Shown(first + seen) == [packet] + Shown(seen) && Clients(first + seen) == [packet] + Clients(seen);
      assert ([packet] + Shown(seen))[1..] == Shown(seen);
      assert Servers(first + seen) == [] + Servers(seen) == Servers(seen);
      PrefixOne(packet, Clients(seen), Sniffs(turns[1..]));
      seen := first + seen;
    } else {
      var p := Reading(c, v, turns[0].cap);
      ReadConserves(c, v, turns[0].cap);
      var f1, t1, r1 := ReadShows(c, v, turns[0].cap);
      ReadsSeen(f1 + t1);
      if p.r == Ready([]) && turns[0].cap > 0 {
        seen, framed, through, raw := Reads(f1 + t1), f1, t1, r1;
      } else {
        var s2, f2, t2, r2 := RunShows(c, p.v, turns[1..]);
        var later := ReadAll(c, p.v, turns[1..]);
        SeenAppend(Reads(f1 + t1), s2);
        InvDirect(p.v);
        ShowsTwice(c, v, p.v, later.v, DataOf(p.r), later.delivered, f1, f2, t1, t2, r1, r2);
        FilteredTwice(v.t, f1 + t1, Shown(s2));
        assert [] + Clients(s2) == Clients(s2) && [] + Sniffs(turns[1..]) == Sniffs(turns[1..]);
        seen, framed, through, raw := Reads(f1 + t1) + s2, f1 + f2, t1 + t2, r1 + r2;
      }
    }
  }

  lemma PrefixOne(x: bytes, a: seq<bytes>, b: seq<bytes>)
    requires a <= b
    ensures [x] + a <= [x] + b
  {
    assert ([x] + b)[1..] == b;
  }

  lemma InvDirect(v: Down)
    requires DownInv(v)
    ensures v.dec.u.direct ==> v.dec.u.done
  {
    DirectIsDone(v.dec);
  }

  lemma SniffedShows(c: Cipher, v: Down, packet: bytes, z: Down, delivered: bytes, framed: seq<bytes>,
                     through: seq<bytes>, raw: bytes)
    requires Shows(c, Sniffed(v, packet), z, delivered, framed, through, raw)
    ensures Shows(c, v, z, delivered, framed, through, raw)
    ensures Sniffed(v, packet).t == Filtered(v.t, packet)
  {
    SameUpcoming(c, v, Sniffed(v, packet));
    hide Upcoming, Filtered;
  }
}
