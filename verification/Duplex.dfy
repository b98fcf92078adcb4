/** The two directions together: what the server's ServerHello does to the client's upload (src/outbound/vision.rs). */
module Duplex {
  import opened Bytes
  import opened Framing
  import opened Sniffer
  import opened Reshaping
  import opened Padding
  import opened PaddingEnds
  import RH = ResponseHeader
  import opened Decoding
  import opened RecordGate
  import opened GateRuns
  import opened TlsReading
  import opened Downlink
  import DR = DownlinkRuns
  import opened SniffedReads
  import opened Uplink
  import UR = UplinkRuns
  import O = Outgoing

  ghost predicate OnlyReads(turns: seq<DR.Turn>) {
    forall i :: 0 <= i < |turns| ==> turns[i].Read?
  }

  lemma {:induction false} NothingSniffed(turns: seq<DR.Turn>)
    requires OnlyReads(turns)
    ensures Sniffs(turns) == []
  {
    if turns != [] {
      NothingSniffed(turns[1..]);
    }
  }

  lemma {:induction false} AllFromServer(seen: seq<Packet>)
    requires Clients(seen) == []
    ensures Shown(seen) == Servers(seen)
  {
    if seen != [] {
      assert !seen[0].FromClient?;
      AllFromServer(seen[1..]);
    }
  }

  /**
   * A ServerHello that arrives whole, as the next contents of the wire: once a run of reads has decoded anything, the
   * sniffer has its cipher, knows that TLS 1.2 or above is spoken, has stopped, and XTLS is on exactly for the allowed
   * suites.
   */
  lemma HelloIsSeen(c: Cipher, v: Down, turns: seq<DR.Turn>, h: ServerHello, rest: seq<bytes>)
    requires DownInv(v) && !v.dec.u.done && v.out == [] && v.t.budget > 0
    requires ValidServerHello(h) && SUPPORTED_VERSIONS_13 in h.extensions && |ServerHelloRecord(h)| >= 79
    requires Upcoming(c, v) == [ServerHelloRecord(h)] + rest
    requires OnlyReads(turns) && !DR.ReadAll(c, v, turns).outcome.Failed?
    requires DR.ReadAll(c, v, turns).delivered + DR.ReadAll(c, v, turns).v.out != []
    ensures var t := DR.ReadAll(c, v, turns).v.t;
            && t.cipher == h.cipher && t.isTls && t.isTls12OrAbove && t.budget == 0
            && (t.enableXtls <==> 0x1301 <= h.cipher <= 0x1304)
  {
    hide Filtered, Upcoming, DownInv, ServerHelloRecord, DR.ReadAll;
    var r := DR.ReadAll(c, v, turns);
    NothingSniffed(turns);
    var seen, framed, through, raw := RunShows(c, v, turns);
    AllFromServer(seen);
    DR.ReadAllDelivers(c, v, turns);
    InvDirect(r.v);
    FramedFirst(c, v, r.v, r.delivered, framed, through, raw, ServerHelloRecord(h), rest);
    var later := framed[1..] + through;
    assert framed + through == [ServerHelloRecord(h)] + later;
    FilteredTwice(v.t, [ServerHelloRecord(h)], later);
    OneFiltered(v.t, ServerHelloRecord(h));
    SniffsServerHello(v.t, h);
    Frozen(Filtered(v.t, ServerHelloRecord(h)), later);
  }

  /**
   * The plainest such wire: a fresh connection whose first record holds the response header and one Continue frame. Its
   * content is the next the sniffer is shown.
   */
  lemma FirstRecordIsNext(c: Cipher, t: Traffic, buf: bytes, s: Sock, asks: seq<nat>, record: bytes, later: bytes,
                          addons: bytes, id: Uuid, content: bytes, pad: nat)
    returns (rest: seq<bytes>)
    requires |addons| < 256 && 0 < |content| < 0x1_0000 && pad < 0x1_0000
    requires buf + s.unread == record + later
    requires TLS_RECORD_HEADER_LEN <= |record| == RecordLen(record)
    requires OpenRecord(c, 0, record) == Some(RH.Response(addons) + FrameWire(Some(id), 0, content, pad))
    ensures Upcoming(c, DR.Connected(t, buf, s, asks)) == [content] + rest
  {
    hide FrameWire, RH.Response, Decode, Plains;
    var p := RH.Response(addons) + FrameWire(Some(id), 0, content, pad);
    DR.FirstRecord(record, later);
    NextPlain(c, 0, record + later);
    NilLeft(buf + s.unread);
    FirstFrame(addons, id, content, pad);
    NextContents(CLIENT, p, Plains(c, 1, later));
    rest := ContentsOf(Decode(CLIENT, p).d, Plains(c, 1, later));
  }

  lemma FirstFrame(addons: bytes, id: Uuid, content: bytes, pad: nat)
    requires |addons| < 256 && |content| < 0x1_0000 && pad < 0x1_0000
    ensures Decode(CLIENT, RH.Response(addons) + FrameWire(Some(id), 0, content, pad))
         == Decoded(Decoder(true, Deframe(false, false, false), []), content, Good)
  {
    hide FrameWire, RH.Response, Unpadding, RH.Feeding;
    var f := FrameWire(Some(id), 0, content, pad);
    RH.FeedResponse(addons, f);
    NilLeft(RH.Response(addons) + f);
    CommandMeans(Some(id), 0, content, pad, []);
    assert f + [] == f && content + [] == content;
    NothingLeft();
  }

  lemma NothingLeft()
    ensures Unpadding(Deframe(false, false, false), []) == Unpadded(Deframe(false, false, false), [], [], true)
  {
  }

  lemma OneFiltered(t: Traffic, b: bytes)
    ensures FilteredAll(t, [b]) == Filtered(t, b)
  {
    assert [b][1..] == [];
  }

  lemma NothingInFront(s: seq<bytes>)
    ensures [] + s == s
  {
  }

  /** If anything was decoded, the first thing decoded is the first thing the wire holds. */
  lemma FramedFirst(c: Cipher, v: Down, w: Down, delivered: bytes, framed: seq<bytes>, through: seq<bytes>, raw: bytes,
                    first: bytes, rest: seq<bytes>)
    requires Shows(c, v, w, delivered, framed, through, raw) && Upcoming(c, v) == [first] + rest
    requires v.out == [] && delivered + w.out != []
    requires w.dec.u.direct ==> w.dec.u.done
    ensures framed != [] && framed[0] == first
  {
    NoParts();
    if framed == [] {
      NothingInFront(Upcoming(c, w));
      if w.dec.u.done {
        DoneUpcoming(c, w);
      }
    } else {
      hide Upcoming;
      assert (framed + Upcoming(c, w))[0] == framed[0];
    }
  }

  /**
   * An application_data write on a connection where XTLS is on, in one piece: the framer ends padding with Direct, and
   * any flush that completes afterwards has switched the upload to the raw socket.
   */
  lemma UploadGoesDirect(u: Up, records: seq<bytes>, draws: seq<nat>)
    requires Safe(u) && u.p.padding && u.t.isTls && u.t.enableXtls && u.t.budget == 0
    requires AllRecords(records) && 6 <= |Concat(records)| < 8171 && Concat(records)[..3] == [0x17, 0x03, 0x03]
    requires Writing(u, Concat(records), draws).r.Ready?
    ensures var q := Writing(u, Concat(records), draws);
            && q.u.p == Pad(false, true, None) && q.r.n == |Concat(records)|
            && (Flushing(q.u).r.Ready? ==> Flushing(q.u).u.raw)
  {
    hide Settled, Filtered, Padded, SnifferInv, Concat;
    var data := Concat(records);
    Frozen(u.t, [data]);
    OneFiltered(u.t, data);
    AppDataEndsPadding(u.p, u.t, records);
    WriteSafe(u, data, draws);
    SettledKeeps(u);
    UR.WriteSniffs(u, data, draws);
    var q := Writing(u, data, draws);
    SettleKeeps(q.u);
    SettledKeeps(q.u);
  }

  /**
   * Both directions: after a run of reads that decoded a whole ServerHello with an allowed suite, the client's next
   * application_data write ends padding with Direct and its next completed flush leaves TLS.
   */
  lemma HelloSwitchesUpload(c: Cipher, v: Down, turns: seq<DR.Turn>, h: ServerHello, rest: seq<bytes>,
                            u: Up, records: seq<bytes>, draws: seq<nat>)
    requires DownInv(v) && !v.dec.u.done && v.out == [] && v.t.budget > 0
    requires ValidServerHello(h) && SUPPORTED_VERSIONS_13 in h.extensions && |ServerHelloRecord(h)| >= 79
    requires 0x1301 <= h.cipher <= 0x1304
    requires Upcoming(c, v) == [ServerHelloRecord(h)] + rest
    requires OnlyReads(turns) && !DR.ReadAll(c, v, turns).outcome.Failed?
    requires DR.ReadAll(c, v, turns).delivered + DR.ReadAll(c, v, turns).v.out != []
    requires Safe(u) && u.p.padding && u.t == DR.ReadAll(c, v, turns).v.t
    requires AllRecords(records) && 6 <= |Concat(records)| < 8171 && Concat(records)[..3] == [0x17, 0x03, 0x03]
    requires Writing(u, Concat(records), draws).r.Ready?
    ensures var q := Writing(u, Concat(records), draws);
            && q.u.p == Pad(false, true, None) && q.r.n == |Concat(records)|
            && (Flushing(q.u).r.Ready? ==> Flushing(q.u).u.raw)
  {
    hide Upcoming, DownInv, Writing, Flushing, Safe, ServerHelloRecord, DR.ReadAll;
    HelloIsSeen(c, v, turns, h, rest);
    UploadGoesDirect(u, records, draws);
  }

  /**
   * From the wire: a fresh connection whose first record holds the response header and one Continue frame with such a
   * ServerHello.
   */
  lemma FreshHelloSwitchesUpload(c: Cipher, t: Traffic, buf: bytes, s: Sock, asks: seq<nat>, record: bytes, later: bytes,
                                 addons: bytes, id: Uuid, h: ServerHello, pad: nat, turns: seq<DR.Turn>,
                                 u: Up, records: seq<bytes>, draws: seq<nat>)
    requires |addons| < 256 && pad < 0x1_0000 && t.budget > 0
    requires ValidServerHello(h) && SUPPORTED_VERSIONS_13 in h.extensions && 79 <= |ServerHelloRecord(h)| < 0x1_0000
    requires 0x1301 <= h.cipher <= 0x1304
    requires buf + s.unread == record + later && 5 <= |record| == RecordLen(record)
    requires OpenRecord(c, 0, record) == Some(RH.Response(addons) + FrameWire(Some(id), 0, ServerHelloRecord(h), pad))
    requires OnlyReads(turns)
    requires var r := DR.ReadAll(c, DR.Connected(t, buf, s, asks), turns);
             !r.outcome.Failed? && r.delivered + r.v.out != [] && u.t == r.v.t
    requires Safe(u) && u.p.padding
    requires AllRecords(records) && 6 <= |Concat(records)| < 8171 && Concat(records)[..3] == [0x17, 0x03, 0x03]
    requires Writing(u, Concat(records), draws).r.Ready?
    ensures var q := Writing(u, Concat(records), draws);
            && q.u.p == Pad(false, true, None) && q.r.n == |Concat(records)|
            && (Flushing(q.u).r.Ready? ==> Flushing(q.u).u.raw)
  {
    hide Upcoming, DownInv, Writing, Flushing, Safe, ServerHelloRecord, DR.ReadAll, FrameWire, RH.Response, OpenRecord;
    DR.ConnectedInv(c, t, buf, s, asks);
    var rest := FirstRecordIsNext(c, t, buf, s, asks, record, later, addons, id, ServerHelloRecord(h), pad);
    HelloSwitchesUpload(c, DR.Connected(t, buf, s, asks), turns, h, rest, u, records, draws);
  }
}
