/** The VLESS request header and the server's reading of it (src/outbound/vless.rs). */
module VlessRequest {
  import opened Bytes

  const VERSION: byte := 0x00
  const CMD_TCP: byte := 0x01
  const ATYP_IPV4: byte := 0x01
  const ATYP_DOMAIN: byte := 0x02
  const ATYP_IPV6: byte := 0x03
  /** Protobuf field 1, length-delimited. */
  const FLOW_TAG: byte := 0x0A

  type Ip4 = b: bytes | |b| == 4 witness seq(4, _ => 0)
  type Ip6 = b: bytes | |b| == 16 witness seq(16, _ => 0)
  type Uuid = b: bytes | |b| == 16 witness seq(16, _ => 0)
  type Port = n: nat | n < 0x1_0000

  /** A domain name is held as its UTF-8 bytes. */
  datatype Address = Domain(name: bytes) | IpV4(ip4: Ip4) | IpV6(ip6: Ip6)

  datatype Target = Target(addr: Address, port: Port)

  function Addons(flow: bytes): bytes {
    if flow == [] then [] else [FLOW_TAG, AsU8(|flow|)] + flow
  }

  function AddressWire(a: Address): bytes {
    match a
    case IpV4(ip) => [ATYP_IPV4] + ip
    case Domain(name) => [ATYP_DOMAIN, AsU8(|name|)] + name
    case IpV6(ip) => [ATYP_IPV6] + ip
  }

  function TargetWire(target: Target): bytes {
    [CMD_TCP] + (Be16(target.port) + AddressWire(target.addr))
  }

  /** The header as a right-nested concatenation; every length is one byte, written through an `as u8` cast. */
  function RequestHeader(uuid: Uuid, flow: bytes, target: Target): bytes {
    [VERSION] + (uuid + ([AsU8(|Addons(flow)|)] + (Addons(flow) + TargetWire(target))))
  }

  method EncodeAddons(flow: bytes) returns (v: bytes)
    ensures v == Addons(flow)
  {
    if flow == [] {
      return [];
    }
    v := [];
    v := v + [FLOW_TAG];
    v := v + [AsU8(|flow|)];
    v := v + flow;
  }

  lemma Regroup(a: bytes, b: bytes, c: bytes, d: bytes, e: bytes, f: bytes, g: bytes)
    ensures a + b + c + d + e + f + g == a + (b + (c + (d + (e + (f + g)))))
  {
    Assoc(a + b + c + d + e, f, g);
    Assoc(a + b + c + d, e, f + g);
    Assoc(a + b + c, d, e + (f + g));
    Assoc(a + b, c, d + (e + (f + g)));
    Assoc(a, b, c + (d + (e + (f + g))));
  }

  method EncodeRequestHeader(uuid: Uuid, flow: bytes, target: Target) returns (h: bytes)
    ensures h == RequestHeader(uuid, flow, target)
  {
    hide Addons, Be16;
    var addons := EncodeAddons(flow);
    h := [VERSION];
    h := h + uuid;
    h := h + [AsU8(|addons|)];
    h := h + addons;
    h := h + [CMD_TCP];
    h := h + Be16(target.port);
    ghost var front := h;
    match target.addr {
      case IpV4(ip) =>
        h := h + [ATYP_IPV4];
        h := h + ip;
        Assoc(front, [ATYP_IPV4], ip);
      case Domain(name) =>
        h := h + [ATYP_DOMAIN];
        h := h + [AsU8(|name|)];
        h := h + name;
        assert h == front + ([ATYP_DOMAIN, AsU8(|name|)] + name);
      case IpV6(ip) =>
        h := h + [ATYP_IPV6];
        h := h + ip;
        Assoc(front, [ATYP_IPV6], ip);
    }
    hide AddressWire;
    Regroup([VERSION], uuid, [AsU8(|addons|)], addons, [CMD_TCP], Be16(target.port), AddressWire(target.addr));
  }

  // ---------------------------------------------------------------------------
  // The server's decoder, written from the format alone, with its numbers
  // ---------------------------------------------------------------------------

  datatype Parsed<+T> = Parsed(value: T, rest: bytes)

  function TakeN(b: bytes, n: nat): (r: Option<Parsed<bytes>>)
    ensures r.Some? ==> |r.value.value| == n
  {
    if n <= |b| then Some(Parsed(b[..n], b[n..])) else None
  }

  /** A base-128 number, least significant group first. */
  function Varint(b: bytes): (r: Option<Parsed<nat>>)
    ensures r.Some? ==> |r.value.rest| < |b|
    ensures r.Some? && r.value.value >= 128 ==> |r.value.rest| + 2 <= |b|
  {
    if b == [] then None
    else if b[0] < 128 then Some(Parsed(b[0] as nat, b[1..]))
    else
      match Varint(b[1..])
      case None => None
      case Some(more) => Some(Parsed(b[0] - 128 + 128 * more.value, more.rest))
  }

  /** The flow held in an addons block, which must be all of the block. */
  function ReadAddons(block: bytes): (flow: Option<bytes>)
    ensures flow.Some? ==> |flow.value| <= |block|
    ensures flow.Some? && |flow.value| >= 128 ==> |flow.value| + 3 <= |block|
  {
    if block == [] then Some([])
    else if block[0] != 0x0A then None
    else
      match Varint(block[1..])
      case None => None
      case Some(len) => if |len.rest| == len.value then Some(len.rest) else None
  }

  function ReadAddress(b: bytes): Option<Parsed<Address>> {
    if b == [] then None
    else if b[0] == 1 then
      match TakeN(b[1..], 4)
      case None => None
      case Some(ip) => Some(Parsed(IpV4(ip.value), ip.rest))
    else if b[0] == 3 then
      match TakeN(b[1..], 16)
      case None => None
      case Some(ip) => Some(Parsed(IpV6(ip.value), ip.rest))
    else if b[0] == 2 && 2 <= |b| then
      match TakeN(b[2..], b[1])
      case None => None
      case Some(name) => Some(Parsed(Domain(name.value), name.rest))
    else None
  }

  datatype Request = Request(uuid: Uuid, flow: bytes, target: Target)

  /** Command, port and address. */
  function ReadTarget(b: bytes): Option<Parsed<Target>> {
    if |b| < 3 || b[0] != 1 then None
    else
      match ReadAddress(b[3..])
      case None => None
      case Some(a) => Some(Parsed(Target(a.value, U16(b[1], b[2])), a.rest))
  }

  function ReadRequest(b: bytes): Option<Parsed<Request>> {
    if |b| < 18 || b[0] != 0 then None
    else
      match TakeN(b[18..], b[17])
      case None => None
      case Some(addons) =>
        match ReadAddons(addons.value)
        case None => None
        case Some(flow) =>
          match ReadTarget(addons.rest)
          case None => None
          case Some(t) => Some(Parsed(Request(b[1..17], flow, t.value), t.rest))
  }

  // ---------------------------------------------------------------------------
  // Round trip
  // ---------------------------------------------------------------------------

  predicate AddressFits(a: Address) {
    a.Domain? ==> |a.name| < 256
  }

  lemma TakeReads(a: bytes, suffix: bytes)
    ensures TakeN(a + suffix, |a|) == Some(Parsed(a, suffix))
  {
    Cut(a, suffix);
  }

  lemma AfterHead(head: bytes, a: bytes, suffix: bytes)
    ensures ((head + a) + suffix)[|head|..] == a + suffix
  {
    Assoc(head, a, suffix);
    Cut(head, a + suffix);
  }

  lemma AddressReads(a: Address, suffix: bytes)
    requires AddressFits(a)
    ensures ReadAddress(AddressWire(a) + suffix) == Some(Parsed(a, suffix))
  {
    var b := AddressWire(a) + suffix;
    match a
    case IpV4(ip) =>
      hide TakeN;
      AfterHead([ATYP_IPV4], ip, suffix);
      TakeReads(ip, suffix);
    case IpV6(ip) =>
      hide TakeN;
      AfterHead([ATYP_IPV6], ip, suffix);
      TakeReads(ip, suffix);
    case Domain(name) =>
      hide TakeN;
      AfterHead([ATYP_DOMAIN, AsU8(|name|)], name, suffix);
      TakeReads(name, suffix);
  }

  lemma AddonsRead(flow: bytes)
    requires |flow| < 128
    ensures ReadAddons(Addons(flow)) == Some(flow)
  {
    if flow != [] {
      assert Addons(flow)[1..] == [AsU8(|flow|)] + flow;
      assert ([AsU8(|flow|)] + flow)[1..] == flow;
    }
  }

  lemma TargetReads(t: Target, suffix: bytes)
    requires AddressFits(t.addr)
    ensures ReadTarget(TargetWire(t) + suffix) == Some(Parsed(t, suffix))
  {
    hide ReadAddress, AddressWire;
    AddressReads(t.addr, suffix);
    var b := TargetWire(t) + suffix;
    assert b[3..] == AddressWire(t.addr) + suffix;
  }

  /** The header's fixed part, whatever follows the addons. */
  lemma HeaderFields(uuid: Uuid, flow: bytes, tail: bytes)
    ensures var b := [VERSION] + (uuid + ([AsU8(|Addons(flow)|)] + (Addons(flow) + tail)));
            && 18 <= |b| && b[0] == VERSION && b[1..17] == uuid && b[17] == AsU8(|Addons(flow)|)
            && b[18..] == Addons(flow) + tail
  {
    hide Addons;
  }

  lemma SuffixInside(uuid: Uuid, flow: bytes, t: Target, suffix: bytes)
    ensures RequestHeader(uuid, flow, t) + suffix
         == [VERSION] + (uuid + ([AsU8(|Addons(flow)|)] + (Addons(flow)
            + (TargetWire(t) + suffix))))
  {
    hide Addons, Be16, AddressWire;
    var a := Addons(flow);
    var tail := TargetWire(t);
    Assoc(a, tail, suffix);
    Assoc([AsU8(|a|)], a + tail, suffix);
    Assoc(uuid, [AsU8(|a|)] + (a + tail), suffix);
    Assoc([VERSION], uuid + ([AsU8(|a|)] + (a + tail)), suffix);
  }

  /** Everything that fits its length bytes comes back, with the bytes that follow untouched. */
  lemma RequestReads(uuid: Uuid, flow: bytes, t: Target, suffix: bytes)
    requires |flow| < 128 && AddressFits(t.addr)
    ensures ReadRequest(RequestHeader(uuid, flow, t) + suffix) == Some(Parsed(Request(uuid, flow, t), suffix))
  {
    var tail := TargetWire(t) + suffix;
    SuffixInside(uuid, flow, t, suffix);
    HeaderFields(uuid, flow, tail);
    TargetReads(t, suffix);
    AddonsRead(flow);
    hide ReadTarget, ReadAddons, AddressWire, Be16;
    Cut(Addons(flow), tail);
    assert |Addons(flow)| < 256;
  }

  lemma AddressTooLong(b: bytes)
    requires ReadAddress(b).Some?
    ensures AddressFits(ReadAddress(b).value.value)
  {
  }

  /** The exact condition: a flow under 128 bytes and a domain under 256, for every suffix. */
  lemma RequestReadsIff(uuid: Uuid, flow: bytes, t: Target, suffix: bytes)
    ensures ReadRequest(RequestHeader(uuid, flow, t) + suffix) == Some(Parsed(Request(uuid, flow, t), suffix)) <==>
            |flow| < 128 && AddressFits(t.addr)
  {
    if |flow| < 128 && AddressFits(t.addr) {
      RequestReads(uuid, flow, t, suffix);
    } else {
      var b := RequestHeader(uuid, flow, t) + suffix;
      var tail := TargetWire(t) + suffix;
      SuffixInside(uuid, flow, t, suffix);
      HeaderFields(uuid, flow, tail);
      Misread(b, uuid, flow, t);
    }
  }

  /** A flow of 128 bytes or more needs a two-byte length, which the header's block length leaves no room for. */
  lemma Misread(b: bytes, uuid: Uuid, flow: bytes, t: Target)
    requires 18 <= |b| && b[17] == AsU8(|Addons(flow)|)
    requires !(|flow| < 128 && AddressFits(t.addr))
    ensures ReadRequest(b).Some? ==> ReadRequest(b).value.value != Request(uuid, flow, t)
  {
    hide ReadAddress;
    if ReadRequest(b).Some? {
      var addons := TakeN(b[18..], b[17]).value;
      AddressTooLong(addons.rest[3..]);
    }
  }
}
