/** The inner-TLS sniffer shared by both directions (src/outbound/vision.rs:172-239). */
module Sniffer {
  import opened Bytes

  const TLS_APPLICATION_DATA_START: bytes := [0x17, 0x03, 0x03]
  const TLS_HANDSHAKE_START: bytes := [0x16, 0x03]
  const TLS_SERVER_HANDSHAKE_START: bytes := [0x16, 0x03, 0x03]
  const TLS_HANDSHAKE_CLIENT_HELLO: byte := 0x01
  const TLS_HANDSHAKE_SERVER_HELLO: byte := 0x02
  const TLS13_SUPPORTED_VERSIONS: bytes := [0x00, 0x2b, 0x00, 0x02, 0x03, 0x04]
  const FILTER_PACKETS := 8

  /** The `as i32` cast and i32 wrap-around. */
  function AsI32(n: int): (r: int)
    ensures -0x8000_0000 <= r < 0x8000_0000
    ensures -0x8000_0000 <= n < 0x8000_0000 ==> r == n
  {
    (n + 0x8000_0000) % 0x1_0000_0000 - 0x8000_0000
  }

  predicate XtlsCipher(cipher: nat) {
    0x1301 <= cipher <= 0x1304
  }

  datatype Traffic = Traffic(budget: int, isTls: bool, isTls12OrAbove: bool, enableXtls: bool,
                             cipher: nat, remainingServerHello: int)

  const FRESH_TRAFFIC := Traffic(FILTER_PACKETS, false, false, false, 0, -1)

  predicate IsServerHello(b: bytes) {
    |b| >= 6 && b[..3] == TLS_SERVER_HANDSHAKE_START && b[5] == TLS_HANDSHAKE_SERVER_HELLO
  }

  predicate IsClientHello(b: bytes) {
    |b| >= 6 && b[..2] == TLS_HANDSHAKE_START && b[5] == TLS_HANDSHAKE_CLIENT_HELLO
  }

  /** The cipher suite a ServerHello packet names, if it is long enough to look. */
  function CipherOf(b: bytes, announced: int, otherwise: nat): nat {
    if |b| >= 79 && announced >= 79 && 46 + b[43] as nat <= |b|
    then U16(b[44 + b[43] as nat], b[45 + b[43] as nat])
    else otherwise
  }

  /** Recognising the packet's first bytes. */
  function Recognised(t: Traffic, b: bytes): Traffic {
    if IsServerHello(b) then
      var announced := U16(b[3], b[4]) + TLS_RECORD_HEADER_LEN;
      t.(remainingServerHello := announced, isTls12OrAbove := true, isTls := true,
      cipher := CipherOf(b, announced, t.cipher))
    else if IsClientHello(b) then t.(isTls := true)
    else t
  }

  /** Looking for TLS 1.3 in what the packet holds of a ServerHello. */
  function Searched(t: Traffic, b: bytes): Traffic {
    if t.remainingServerHello <= 0 then t
    else
      var left := AsI32(t.remainingServerHello - AsI32(|b|));
      if Contains(b[..Min(t.remainingServerHello, |b|)], TLS13_SUPPORTED_VERSIONS) then
        t.(remainingServerHello := left, enableXtls := XtlsCipher(t.cipher), budget := 0)
      else if left <= 0 then t.(remainingServerHello := left, budget := 0)
      else t.(remainingServerHello := left)
  }

  function Filtered(t: Traffic, b: bytes): Traffic {
    if t.budget <= 0 then t
    else Searched(Recognised(t.(budget := t.budget - 1), b), b)
  }

  class TrafficState {
    var filterBudget: int
    var isTls: bool
    var isTls12OrAbove: bool
    var enableXtls: bool
    var cipher: nat
    var remainingServerHello: int

    constructor ()
      ensures State() == FRESH_TRAFFIC
    {
      filterBudget := FILTER_PACKETS;
      isTls, isTls12OrAbove, enableXtls := false, false, false;
      cipher, remainingServerHello := 0, -1;
    }

    function State(): Traffic
      reads this
    {
      Traffic(filterBudget, isTls, isTls12OrAbove, enableXtls, cipher, remainingServerHello)
    }

    /** Sniffs one packet. */
    method Filter(b: bytes)
      modifies this
      ensures State() == Filtered(old(State()), b)
    {
      hide Recognised, Searched;
      if filterBudget <= 0 {
        return;
      }
      filterBudget := filterBudget - 1;
      Recognise(b);
      Search(b);
    }

    /** The first half: what the packet's first bytes say. */
    method Recognise(b: bytes)
      modifies this
      ensures State() == Recognised(old(State()), b)
    {
      if |b| >= 6 {
        if b[..3] == TLS_SERVER_HANDSHAKE_START && b[5] == TLS_HANDSHAKE_SERVER_HELLO {
          remainingServerHello := U16(b[3], b[4]) + TLS_RECORD_HEADER_LEN;
          isTls12OrAbove := true;
          isTls := true;
          if |b| >= 79 && remainingServerHello >= 79 {
            var sid: nat := b[43];
            if 46 + sid <= |b| {
              cipher := U16(b[44 + sid], b[45 + sid]);
            }
          }
        } else if b[..2] == TLS_HANDSHAKE_START && b[5] == TLS_HANDSHAKE_CLIENT_HELLO {
          isTls := true;
        }
      }
    }

    /** The second half: the search for TLS 1.3 in what the packet holds of a ServerHello. */
    method Search(b: bytes)
      modifies this
      ensures State() == Searched(old(State()), b)
    {
      hide Contains;
      if remainingServerHello > 0 {
        var end := Min(remainingServerHello, |b|);
        remainingServerHello := AsI32(remainingServerHello - AsI32(|b|));
        if Contains(b[..end], TLS13_SUPPORTED_VERSIONS) {
          enableXtls := XtlsCipher(cipher);
          filterBudget := 0;
        } else if remainingServerHello <= 0 {
          filterBudget := 0;
        }
      }
    }
  }

  // ---------------------------------------------------------------------------
  // Invariants over every sequence of packets
  // ---------------------------------------------------------------------------

  function FilteredAll(t: Traffic, packets: seq<bytes>): Traffic
    decreases |packets|
  {
    if packets == [] then t else FilteredAll(Filtered(t, packets[0]), packets[1..])
  }

  ghost predicate SnifferInv(t: Traffic) {
    && 0 <= t.budget <= FILTER_PACKETS
    && (t.isTls12OrAbove ==> t.isTls)
    && (t.remainingServerHello > 0 ==> t.isTls12OrAbove)
    && (t.enableXtls ==> t.isTls12OrAbove && XtlsCipher(t.cipher) && t.budget == 0)
  }

  lemma FilterKeepsInv(t: Traffic, b: bytes)
    requires SnifferInv(t)
    ensures SnifferInv(Filtered(t, b))
    ensures Filtered(t, b).budget <= Max(t.budget - 1, 0)
    ensures !Filtered(t, b).isTls12OrAbove ==> Filtered(t, b).budget == Max(t.budget - 1, 0)
    ensures t.budget == 0 ==> Filtered(t, b) == t
    ensures t.isTls12OrAbove ==> Filtered(t, b).isTls12OrAbove
  {
  }

  /**
   * Over any sequence of packets: each one costs budget, XTLS implies TLS 1.2+ and an allowed cipher,
   * and once the budget is spent nothing changes any more.
   */
  lemma {:induction false} SnifferRun(packets: seq<bytes>, more: seq<bytes>)
    ensures var t := FilteredAll(FRESH_TRAFFIC, packets);
            && SnifferInv(t)
            && t.budget <= Max(FILTER_PACKETS - |packets|, 0)
            && (!t.isTls12OrAbove ==> t.budget == Max(FILTER_PACKETS - |packets|, 0))
            && (t.enableXtls ==> XtlsCipher(t.cipher) && FilteredAll(t, more) == t)
  {
    SnifferRunFrom(FRESH_TRAFFIC, packets);
    var t := FilteredAll(FRESH_TRAFFIC, packets);
    if t.enableXtls {
      Frozen(t, more);
    }
  }

  lemma {:induction false} SnifferRunFrom(t: Traffic, packets: seq<bytes>)
    requires SnifferInv(t)
    ensures var t' := FilteredAll(t, packets);
            && SnifferInv(t')
            && t'.budget <= Max(t.budget - |packets|, 0)
            && (!t'.isTls12OrAbove ==> t'.budget == Max(t.budget - |packets|, 0))
            && (t.isTls12OrAbove ==> t'.isTls12OrAbove)
    decreases |packets|
  {
    if packets != [] {
      FilterKeepsInv(t, packets[0]);
      SnifferRunFrom(Filtered(t, packets[0]), packets[1..]);
    }
  }

  lemma {:induction false} Frozen(t: Traffic, packets: seq<bytes>)
    requires t.budget <= 0
    ensures FilteredAll(t, packets) == t
    decreases |packets|
  {
    if packets != [] {
      Frozen(t, packets[1..]);
    }
  }

  // ---------------------------------------------------------------------------
  // A ServerHello as its sender builds it (RFC 8446 sections 4.1.3 and 4.2.1)
  // ---------------------------------------------------------------------------

  datatype AnyExtension = Extension(kind: nat, data: bytes)

  type Extension = e: AnyExtension | e.kind < 0x1_0000 && |e.data| < 0x1_0000 witness Extension(0, [])

  function ExtensionWire(e: Extension): bytes {
    Be16(e.kind) + Be16(|e.data|) + e.data
  }

  function ExtensionsWire(es: seq<Extension>): bytes {
    if es == [] then [] else ExtensionWire(es[0]) + ExtensionsWire(es[1..])
  }

  datatype ServerHello = ServerHello(random: bytes, sessionId: bytes, cipher: nat, extensions: seq<Extension>)

  const SUPPORTED_VERSIONS_13: Extension := Extension(0x002b, [0x03, 0x04])

  ghost predicate ValidServerHello(h: ServerHello) {
    && |h.random| == 32 && |h.sessionId| <= 32 && h.cipher < 0x1_0000
    && |ExtensionsWire(h.extensions)| < 0xff00
  }

  /** Everything up to and including the compression method. */
  function HelloHead(h: ServerHello, bodyLen: nat): bytes
    requires |h.sessionId| <= 32 && h.cipher < 0x1_0000 && bodyLen < 0xfffc
  {
    [0x16, 3, 3] + Be16(bodyLen + 4) + [2, 0] + Be16(bodyLen) + [3, 3]
    + h.random + [|h.sessionId|] + h.sessionId + Be16(h.cipher) + [0]
  }

  ghost function ServerHelloRecord(h: ServerHello): bytes
    requires ValidServerHello(h)
  {
    var exts := ExtensionsWire(h.extensions);
    HelloHead(h, 40 + |h.sessionId| + |exts|) + Be16(|exts|) + exts
  }

  lemma HelloHeadFields(h: ServerHello, bodyLen: nat)
    requires |h.random| == 32 && |h.sessionId| <= 32 && h.cipher < 0x1_0000 && bodyLen < 0xfffc
    ensures var b := HelloHead(h, bodyLen);
            && |b| == 47 + |h.sessionId| && b[..3] == TLS_SERVER_HANDSHAKE_START
            && U16(b[3], b[4]) == bodyLen + 4 && b[5] == TLS_HANDSHAKE_SERVER_HELLO
            && b[43] == |h.sessionId|
            && U16(b[44 + |h.sessionId|], b[45 + |h.sessionId|]) == h.cipher
  {
    var start := TLS_SERVER_HANDSHAKE_START + Be16(bodyLen + 4)
                 + [TLS_HANDSHAKE_SERVER_HELLO, 0] + Be16(bodyLen) + [3, 3];
    assert |start| == 11 && start[..3] == TLS_SERVER_HANDSHAKE_START && start[3..5] == Be16(bodyLen + 4);
    assert start[3] == start[3..5][0] && start[4] == start[3..5][1];
    var mid := start + h.random + [|h.sessionId|];
    assert mid[..11] == start && mid[43] == |h.sessionId|;
    var b := HelloHead(h, bodyLen);
    assert b == mid + h.sessionId + Be16(h.cipher) + [0];
    assert b[..44] == mid;
    assert b[44 + |h.sessionId|..46 + |h.sessionId|] == Be16(h.cipher);
    assert b[..3] == mid[..3] == start[..3];
  }

  lemma {:induction false} ExtensionFound(es: seq<Extension>)
    requires SUPPORTED_VERSIONS_13 in es
    ensures Contains(ExtensionsWire(es), TLS13_SUPPORTED_VERSIONS)
  {
    var head, tail := ExtensionWire(es[0]), ExtensionsWire(es[1..]);
    if es[0] == SUPPORTED_VERSIONS_13 {
      assert head == TLS13_SUPPORTED_VERSIONS;
      Cut(head, tail);
      assert MatchAt(head + tail, TLS13_SUPPORTED_VERSIONS, 0);
    } else {
      ExtensionFound(es[1..]);
      ContainsLater(head, tail, TLS13_SUPPORTED_VERSIONS);
    }
  }

  lemma ContainsLater(a: bytes, b: bytes, pat: bytes)
    requires Contains(b, pat)
    ensures Contains(a + b, pat)
  {
    var i :| 0 <= i <= |b| && MatchAt(b, pat, i);
    assert (a + b)[|a| + i..|a| + i + |pat|] == b[i..i + |pat|];
    assert MatchAt(a + b, pat, |a| + i);
  }

  lemma RecordFields(head: bytes, len: bytes, exts: bytes)
    requires 47 <= |head|
    ensures var b := head + len + exts;
            b[..3] == head[..3] && forall i :: 0 <= i < |head| ==> b[i] == head[i]
  {
  }

  /** The fields the sniffer reads, as they stand in a whole record. */
  lemma ServerHelloFields(h: ServerHello)
    requires ValidServerHello(h)
    ensures var b := ServerHelloRecord(h);
            && 49 <= |b| && b[..3] == TLS_SERVER_HANDSHAKE_START && b[5] == TLS_HANDSHAKE_SERVER_HELLO
            && U16(b[3], b[4]) + TLS_RECORD_HEADER_LEN == |b| && b[43] == |h.sessionId|
            && 46 + |h.sessionId| <= |b| && U16(b[44 + |h.sessionId|], b[45 + |h.sessionId|]) == h.cipher
  {
    var exts := ExtensionsWire(h.extensions);
    var head := HelloHead(h, 40 + |h.sessionId| + |exts|);
    HelloHeadFields(h, 40 + |h.sessionId| + |exts|);
    RecordFields(head, Be16(|exts|), exts);
  }

  /**
   * Any ServerHello of at least 79 bytes, given whole while budget is left, yields its own cipher suite
   * and ends the sniffing; XTLS is enabled exactly when the suite is allowed and the six bytes that
   * announce TLS 1.3 stand anywhere in the record.
   */
  lemma SniffsAnyServerHello(t: Traffic, h: ServerHello)
    requires ValidServerHello(h) && |ServerHelloRecord(h)| >= 79
    requires t.budget > 0
    ensures var b, t' := ServerHelloRecord(h), Filtered(t, ServerHelloRecord(h));
            && t'.cipher == h.cipher && t'.isTls && t'.isTls12OrAbove && t'.budget == 0
            && t'.enableXtls == if Contains(b, TLS13_SUPPORTED_VERSIONS) then XtlsCipher(h.cipher) else t.enableXtls
  {
    var b := ServerHelloRecord(h);
    ServerHelloFields(h);
    hide ServerHelloRecord, Contains;
    assert IsServerHello(b);
    assert CipherOf(b, |b|, t.cipher) == h.cipher;
    assert b[..|b|] == b;
  }

  /**
   * Sniffing inverts building: when the ServerHello's extension list offers TLS 1.3 as its sender
   * encodes it, XTLS is enabled exactly for the allowed suites.
   */
  lemma SniffsServerHello(t: Traffic, h: ServerHello)
    requires ValidServerHello(h) && SUPPORTED_VERSIONS_13 in h.extensions
    requires |ServerHelloRecord(h)| >= 79
    requires t.budget > 0
    ensures var t' := Filtered(t, ServerHelloRecord(h));
            && t'.cipher == h.cipher && t'.isTls && t'.isTls12OrAbove && t'.budget == 0
            && (t'.enableXtls <==> 0x1301 <= h.cipher <= 0x1304)
  {
    SniffsAnyServerHello(t, h);
    var exts := ExtensionsWire(h.extensions);
    ExtensionFound(h.extensions);
    ContainsLater(HelloHead(h, 40 + |h.sessionId| + |exts|) + Be16(|exts|), exts, TLS13_SUPPORTED_VERSIONS);
  }

  /** A ClientHello packet, of any TLS 1.x record version, says only that TLS is spoken; it costs one packet of budget. */
  lemma SniffsClientHello(t: Traffic, minor: byte, len: bytes, rest: bytes)
    requires |len| == 2 && t.budget > 0 && t.remainingServerHello <= 0
    ensures var b := [0x16, 3, minor] + len + [1] + rest;
            Filtered(t, b) == t.(isTls := true, budget := t.budget - 1)
  {
    var b := [0x16 as byte, 3, minor] + len + [1] + rest;
    assert b[..2] == [0x16, 3] && b[5] == 1;
  }

  /** Any other packet, outside a ServerHello, says nothing; it too costs one packet of budget. */
  lemma SaysNothing(t: Traffic, b: bytes)
    requires t.budget > 0 && t.remainingServerHello <= 0
    requires |b| >= 6 && b[..2] == [0x16, 3] ==> b[5] != 1 && (b[2] == 3 ==> b[5] != 2)
    ensures Filtered(t, b) == t.(budget := t.budget - 1)
  {
    assert |b| >= 6 && b[..3] == TLS_SERVER_HANDSHAKE_START ==> b[2] == b[..3][2] == 3 && b[..2] == b[..3][..2];
  }

  /** The cipher is read behind a session id of whatever length, if the packet reaches that far. */
  lemma CipherRead(t: Traffic, b: bytes)
    requires t.budget > 0 && |b| >= 79 && b[..3] == [0x16, 3, 3] && b[5] == 2 && U16(b[3], b[4]) >= 74
    ensures Filtered(t, b).cipher ==
            if 46 + b[43] as nat <= |b| then U16(b[44 + b[43] as nat], b[45 + b[43] as nat]) else t.cipher
  {
  }

  /** A ServerHello record of fewer than 79 bytes does not give its cipher, whatever follows it in the packet. */
  lemma ShortServerHello(t: Traffic, h: ServerHello, more: bytes)
    requires ValidServerHello(h) && |ServerHelloRecord(h)| < 79 && t.budget > 0
    ensures var t' := Filtered(t, ServerHelloRecord(h) + more); t'.cipher == t.cipher && t'.isTls12OrAbove
  {
    var b := ServerHelloRecord(h);
    ServerHelloFields(h);
    hide ServerHelloRecord, Contains;
    assert (b + more)[..3] == b[..3] && (b + more)[5] == b[5] && (b + more)[3] == b[3] && (b + more)[4] == b[4];
  }

  /**
   * What follows a ServerHello record in its packet is not searched and does not matter, whatever it holds (for packets
   * whose length a signed 32-bit number can hold).
   */
  lemma TrailingIgnored(t: Traffic, h: ServerHello, more: bytes)
    requires ValidServerHello(h) && t.budget > 0 && |ServerHelloRecord(h) + more| < 0x8000_0000
    ensures var alone, followed := Filtered(t, ServerHelloRecord(h)), Filtered(t, ServerHelloRecord(h) + more);
            alone.remainingServerHello == 0 && followed == alone.(remainingServerHello := -|more|)
  {
    var b := ServerHelloRecord(h);
    ServerHelloFields(h);
    hide ServerHelloRecord, Contains;
    var c := b + more;
    assert c[..3] == b[..3] && c[..|b|] == b == b[..|b|];
    assert forall i :: 0 <= i < |b| ==> c[i] == b[i];
  }

  // ---------------------------------------------------------------------------
  // A ServerHello in two packets
  // ---------------------------------------------------------------------------

  /** The first packet: what it holds of the record is searched, and its cipher read if it reaches that far. */
  lemma FirstPart(t: Traffic, b: bytes, k: nat, cipher: nat)
    requires 6 <= k < |b| && t.budget >= 2 && U16(b[3], b[4]) + TLS_RECORD_HEADER_LEN == |b|
    requires b[..3] == TLS_SERVER_HANDSHAKE_START && b[5] == TLS_HANDSHAKE_SERVER_HELLO
    requires 79 <= |b| && b[43] <= 32 && U16(b[44 + b[43] as nat], b[45 + b[43] as nat]) == cipher
    ensures var t' := Filtered(t, b[..k]);
            && t'.cipher == (if k >= 79 then cipher else t.cipher)
            && if Contains(b[..k], TLS13_SUPPORTED_VERSIONS) then
                 t'.budget == 0 && t'.enableXtls == XtlsCipher(t'.cipher)
               else
                 t'.budget == t.budget - 1 && t'.enableXtls == t.enableXtls && t'.remainingServerHello == |b| - k
  {
    hide Contains;
    var p := b[..k];
    assert p[..3] == b[..3] && IsServerHello(p);
    assert p[..k] == p;
  }

  /** The second packet: it is searched only while more of the record is announced. */
  lemma SecondPart(t: Traffic, b: bytes)
    requires t.budget > 0 && !IsServerHello(b) && !t.enableXtls
    requires t.remainingServerHello == |b| < 0x8000_0000
    ensures Filtered(t, b).enableXtls <==> |b| > 0 && XtlsCipher(t.cipher) && Contains(b, TLS13_SUPPORTED_VERSIONS)
  {
    hide Contains;
    assert b[..|b|] == b;
  }

  /**
   * Sniffing depends on packet boundaries. A ServerHello cut in two enables XTLS exactly when the first packet is
   * recognised, the cipher suite at hand is allowed (its own only if the first packet reaches byte 79), and the bytes
   * that announce TLS 1.3 lie whole in one of the packets.
   */
  lemma SplitServerHelloIff(t: Traffic, h: ServerHello, k: nat)
    requires ValidServerHello(h) && 79 <= |ServerHelloRecord(h)| && k < |ServerHelloRecord(h)|
    requires t.budget >= 2 && !t.enableXtls && (k < 6 ==> t.remainingServerHello <= 0)
    requires !IsServerHello(ServerHelloRecord(h)[k..])
    ensures var b := ServerHelloRecord(h);
            Filtered(Filtered(t, b[..k]), b[k..]).enableXtls <==>
            && k >= 6
            && XtlsCipher(if k >= 79 then h.cipher else t.cipher)
            && (Contains(b[..k], TLS13_SUPPORTED_VERSIONS) || Contains(b[k..], TLS13_SUPPORTED_VERSIONS))
  {
    hide Contains, Filtered, ServerHelloRecord;
    var b := ServerHelloRecord(h);
    ServerHelloFields(h);
    if k < 6 {
      Unrecognised(t, b[..k]);
      Unrecognised(Filtered(t, b[..k]), b[k..]);
    } else {
      FirstPart(t, b, k, h.cipher);
      var t1 := Filtered(t, b[..k]);
      if t1.budget == 0 {
        Frozen(t1, [b[k..]]);
        Spent(t1, b[k..]);
      } else {
        SecondPart(t1, b[k..]);
      }
    }
  }

  /** Without a ServerHello under way, a packet that does not start one changes neither verdict nor state of search. */
  lemma Unrecognised(t: Traffic, b: bytes)
    requires !IsServerHello(b) && t.remainingServerHello <= 0
    ensures Filtered(t, b).enableXtls == t.enableXtls && Filtered(t, b).remainingServerHello <= 0
  {
  }

  lemma Spent(t: Traffic, b: bytes)
    requires t.budget == 0
    ensures Filtered(t, b) == t
  {
  }

  /** On a fresh connection: the same ServerHello enables XTLS in one packet, and not when cut inside the announcement. */
  lemma SplitServerHelloMissed() returns (h: ServerHello, k: nat)
    ensures ValidServerHello(h) && 79 <= k < |ServerHelloRecord(h)|
    ensures var b := ServerHelloRecord(h);
            && Filtered(FRESH_TRAFFIC, b).enableXtls
            && !Filtered(Filtered(FRESH_TRAFFIC, b[..k]), b[k..]).enableXtls
  {
    h, k := ServerHello(Zeros(32), Zeros(32), 0x1301, [SUPPORTED_VERSIONS_13]), 84;
    hide Contains, Filtered;
    OneExtension();
    SniffsServerHello(FRESH_TRAFFIC, h);
    NoAnnouncement(h, k);
    SplitServerHelloIff(FRESH_TRAFFIC, h, k);
  }

  lemma OneExtension()
    ensures ExtensionsWire([SUPPORTED_VERSIONS_13]) == TLS13_SUPPORTED_VERSIONS
  {
    assert [SUPPORTED_VERSIONS_13][1..] == [];
  }

  lemma NoAnnouncement(h: ServerHello, k: nat)
    requires h == ServerHello(Zeros(32), Zeros(32), 0x1301, [SUPPORTED_VERSIONS_13]) && k == 84
    ensures ValidServerHello(h) && |ServerHelloRecord(h)| == 87
    ensures var b := ServerHelloRecord(h);
            && !Contains(b[..k], TLS13_SUPPORTED_VERSIONS) && !Contains(b[k..], TLS13_SUPPORTED_VERSIONS)
            && !IsServerHello(b[k..])
  {
    OneExtension();
    var head := HelloHead(h, 78);
    HelloHeadFields(h, 78);
    var b := ServerHelloRecord(h);
    assert b == head + Be16(6) + TLS13_SUPPORTED_VERSIONS;
    HeadWithout2b(h);
    forall i | 0 <= i <= k
      ensures !MatchAt(b[..k], TLS13_SUPPORTED_VERSIONS, i)
    {
      SecondByte(b[..k], i);
    }
  }

  lemma SecondByte(b: bytes, i: nat)
    ensures MatchAt(b, TLS13_SUPPORTED_VERSIONS, i) ==> i + 6 <= |b| && b[i + 1] == 0x2b
  {
    if MatchAt(b, TLS13_SUPPORTED_VERSIONS, i) {
      assert b[i..i + 6][1] == b[i + 1];
    }
  }

  lemma HeadWithout2b(h: ServerHello)
    requires h == ServerHello(Zeros(32), Zeros(32), 0x1301, [SUPPORTED_VERSIONS_13])
    ensures |HelloHead(h, 78)| == 79 && forall i | 0 <= i < 79 :: HelloHead(h, 78)[i] != 0x2b
  {
  }
}
