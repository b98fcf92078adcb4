/** The SOCKS5 server handshake, RFC 1928 sections 3 to 5 (src/inbound/socks5.rs). */
module Socks5 {
  import opened Bytes
  import opened VlessRequest

  datatype Error =
    | UnexpectedEof
    | WriteFailed
    | UnsupportedVersion
    | NoAcceptableMethod
    | BadRequestVersion
    | OnlyConnect
    | BadAddressType
    | BadDomain

  datatype Result = Ok(target: Target) | Err(error: Error)

  const SOCKS_VERSION: byte := 0x05
  const CONNECT: byte := 0x01
  const NO_AUTH: byte := 0x00
  const NO_METHOD: byte := 0xFF
  const SOCKS_IPV4: byte := 0x01
  const SOCKS_DOMAIN: byte := 0x03
  const SOCKS_IPV6: byte := 0x04

  // ---------------------------------------------------------------------------
  // UTF-8, RFC 3629 section 4
  // ---------------------------------------------------------------------------

  predicate Trail(b: byte) {
    0x80 <= b < 0xC0
  }

  /** The length of the well-formed character at the front of `b`, or 0. */
  function CharLen(b: bytes): (n: nat)
    requires b != []
    ensures n <= |b|
  {
    if b[0] < 0x80 then 1
    else if 0xC2 <= b[0] < 0xE0 && 2 <= |b| && Trail(b[1]) then 2
    else if 0xE0 <= b[0] < 0xF0 && 3 <= |b| && Trail(b[1]) && Trail(b[2])
            && (b[0] == 0xE0 ==> 0xA0 <= b[1]) && (b[0] == 0xED ==> b[1] < 0xA0) then 3
    else if 0xF0 <= b[0] < 0xF5 && 4 <= |b| && Trail(b[1]) && Trail(b[2]) && Trail(b[3])
            && (b[0] == 0xF0 ==> 0x90 <= b[1]) && (b[0] == 0xF4 ==> b[1] < 0x90) then 4
    else 0
  }

  predicate Utf8(b: bytes)
    decreases |b|
  {
    b == [] || (CharLen(b) > 0 && Utf8(b[CharLen(b)..]))
  }

  // ---------------------------------------------------------------------------
  // The handshake
  // ---------------------------------------------------------------------------

  /** The outcome, the client bytes not read, and the bytes written back. */
  datatype Shaken = Shaken(result: Result, rest: bytes, wrote: bytes)

  /**
   * Reading `n` bytes from a stream that ends early consumes what there is; the client takes `room` more bytes before
   * writing to it fails.
   */
  function Greeted(input: bytes, room: nat): Shaken {
    if |input| < 2 then Shaken(Err(UnexpectedEof), [], [])
    else if input[0] != SOCKS_VERSION then Shaken(Err(UnsupportedVersion), input[2..], [])
    else
      var n: nat := input[1];
      var more := input[2..];
      if |more| < n then Shaken(Err(UnexpectedEof), [], [])
      else if NO_AUTH !in more[..n] then
        Shaken(Err(if room < 2 then WriteFailed else NoAcceptableMethod), more[n..], REFUSED[..Min(room, 2)])
      else if room < 2 then Shaken(Err(WriteFailed), more[n..], ACCEPTED[..room])
      else Requested(more[n..])
  }

  const ACCEPTED: bytes := [SOCKS_VERSION, NO_AUTH]
  const REFUSED: bytes := [SOCKS_VERSION, NO_METHOD]

  function Requested(input: bytes): Shaken {
    if |input| < 4 then Shaken(Err(UnexpectedEof), [], ACCEPTED)
    else
      var more := input[4..];
      if input[0] != SOCKS_VERSION then Shaken(Err(BadRequestVersion), more, ACCEPTED)
      else if input[1] != CONNECT then Shaken(Err(OnlyConnect), more, ACCEPTED)
      else Addressed(input[3], more)
  }

  /** The request past its first four bytes. */
  function Addressed(ty: byte, more: bytes): Shaken {
    if ty == SOCKS_IPV4 then
      if |more| < 4 then Shaken(Err(UnexpectedEof), [], ACCEPTED) else Ported(IpV4(more[..4]), more[4..])
    else if ty == SOCKS_IPV6 then
      if |more| < 16 then Shaken(Err(UnexpectedEof), [], ACCEPTED) else Ported(IpV6(more[..16]), more[16..])
    else if ty == SOCKS_DOMAIN then Named(more)
    else Shaken(Err(BadAddressType), more, ACCEPTED)
  }

  function Named(input: bytes): Shaken {
    if input == [] then Shaken(Err(UnexpectedEof), [], ACCEPTED)
    else
      var n: nat := input[0];
      var more := input[1..];
      if |more| < n then Shaken(Err(UnexpectedEof), [], ACCEPTED)
      else if !Utf8(more[..n]) then Shaken(Err(BadDomain), more[n..], ACCEPTED)
      else Ported(Domain(more[..n]), more[n..])
  }

  function Ported(addr: Address, input: bytes): Shaken {
    if |input| < 2 then Shaken(Err(UnexpectedEof), [], ACCEPTED)
    else Shaken(Ok(Target(addr, U16(input[0], input[1]))), input[2..], ACCEPTED)
  }

  /** The client's connection: what it will still send, and what was written to it. */
  class Client {
    var input: bytes
    var output: bytes
    /** How many more bytes can be written before a write fails. */
    var room: nat

    constructor (input: bytes, room: nat)
      ensures this.input == input && output == [] && this.room == room
    {
      this.input := input;
      output := [];
      this.room := room;
    }

    method ReadExact(n: nat) returns (got: Option<bytes>)
      modifies this`input
      ensures n <= |old(input)| ==> got == Some(old(input)[..n]) && input == old(input)[n..]
      ensures n > |old(input)| ==> got == None && input == []
    {
      if n <= |input| {
        got := Some(input[..n]);
        input := input[n..];
      } else {
        got := None;
        input := [];
      }
    }

    method WriteAll(data: bytes) returns (ok: bool)
      modifies this`output, this`room
      ensures ok <==> |data| <= old(room)
      ensures output == old(output) + data[..Min(old(room), |data|)]
      ensures room == old(room) - Min(old(room), |data|)
    {
      var n := Min(room, |data|);
      output := output + data[..n];
      room := room - n;
      ok := n == |data|;
    }
  }

  method Handshake(s: Client) returns (r: Result)
    modifies s
    ensures var h := Greeted(old(s.input), old(s.room));
            r == h.result && s.input == h.rest && s.output == old(s.output) + h.wrote
  {
    assert s.output + [] == s.output;
    var head := s.ReadExact(2);
    if head == None {
      return Err(UnexpectedEof);
    }
    if head.value[0] != SOCKS_VERSION {
      return Err(UnsupportedVersion);
    }
    var methods := s.ReadExact(head.value[1]);
    if methods == None {
      return Err(UnexpectedEof);
    }
    if NO_AUTH !in methods.value {
      var told := s.WriteAll([SOCKS_VERSION, NO_METHOD]);
      if !told {
        return Err(WriteFailed);
      }
      return Err(NoAcceptableMethod);
    }
    var told := s.WriteAll([SOCKS_VERSION, NO_AUTH]);
    if !told {
      return Err(WriteFailed);
    }
    r := ReadRequest(s);
  }

  /** The request half, after the method reply. */
  method ReadRequest(s: Client) returns (r: Result)
    modifies s`input
    ensures var h := Requested(old(s.input));
            r == h.result && s.input == h.rest
    ensures Requested(old(s.input)).wrote == ACCEPTED
  {
    hide Utf8;
    var req := s.ReadExact(4);
    if req == None {
      return Err(UnexpectedEof);
    }
    if req.value[0] != SOCKS_VERSION {
      return Err(BadRequestVersion);
    }
    if req.value[1] != CONNECT {
      return Err(OnlyConnect);
    }
    var addr: Address;
    if req.value[3] == SOCKS_IPV4 {
      var b := s.ReadExact(4);
      if b == None {
        return Err(UnexpectedEof);
      }
      addr := IpV4(b.value);
    } else if req.value[3] == SOCKS_IPV6 {
      var b := s.ReadExact(16);
      if b == None {
        return Err(UnexpectedEof);
      }
      addr := IpV6(b.value);
    } else if req.value[3] == SOCKS_DOMAIN {
      var l := s.ReadExact(1);
      if l == None {
        return Err(UnexpectedEof);
      }
      var d := s.ReadExact(l.value[0]);
      if d == None {
        return Err(UnexpectedEof);
      }
      if !Utf8(d.value) {
        return Err(BadDomain);
      }
      addr := Domain(d.value);
    } else {
      return Err(BadAddressType);
    }
    var p := s.ReadExact(2);
    if p == None {
      return Err(UnexpectedEof);
    }
    r := Ok(Target(addr, U16(p.value[0], p.value[1])));
  }

  /** The ten bytes of the reply to a CONNECT request. */
  function ReplyWire(ok: bool): bytes {
    [SOCKS_VERSION, if ok then 0x00 else 0x01, 0x00, SOCKS_IPV4, 0, 0, 0, 0, 0, 0]
  }

  /**
   * RFC 1928 section 6: version 5, reply field 0 exactly for success and 1 (general failure) otherwise, reserved 0, and
   * the IPv4 address 0.0.0.0 with port 0.
   */
  lemma ReplyFields(ok: bool)
    ensures var w := ReplyWire(ok);
            && |w| == 10 && w[0] == 5 && w[1] == (if ok then 0 else 1) && w[2] == 0 && w[3] == 1
            && w[4..8] == [0, 0, 0, 0] && U16(w[8], w[9]) == 0
  {
  }

  method Reply(s: Client, ok: bool) returns (told: bool)
    modifies s`output, s`room
    ensures told <==> 10 <= old(s.room)
    ensures s.output == old(s.output) + ReplyWire(ok)[..Min(old(s.room), 10)]
  {
    var rep := if ok then 0x00 else 0x01;
    told := s.WriteAll([SOCKS_VERSION, rep, 0x00, SOCKS_IPV4, 0, 0, 0, 0, 0, 0]);
  }

  // ---------------------------------------------------------------------------
  // What is accepted, from the RFC's grammar
  // ---------------------------------------------------------------------------

  /** RFC 1928 section 3. */
  function Greeting(methods: bytes): bytes
    requires |methods| < 256
  {
    [5, |methods|] + methods
  }

  predicate Expressible(a: Address) {
    a.Domain? ==> |a.name| < 256 && Utf8(a.name)
  }

  /** RFC 1928 section 5: the address with its type. */
  function AddressPart(a: Address): bytes
    requires Expressible(a)
  {
    match a
    case IpV4(ip) => ip
    case IpV6(ip) => ip
    case Domain(name) => [|name|] + name
  }

  function AddressType(a: Address): byte {
    match a
    case IpV4(_) => 1
    case Domain(_) => 3
    case IpV6(_) => 4
  }

  /** RFC 1928 section 4; the reserved byte may be anything. */
  function ConnectRequest(reserved: byte, t: Target): bytes
    requires Expressible(t.addr)
  {
    [5, 1, reserved, AddressType(t.addr)] + (AddressPart(t.addr) + Be16(t.port))
  }

  lemma PortReads(addr: Address, port: Port, suffix: bytes)
    ensures Ported(addr, Be16(port) + suffix) == Shaken(Ok(Target(addr, port)), suffix, ACCEPTED)
  {
    Cut(Be16(port), suffix);
  }

  lemma NamedReads(name: bytes, tail: bytes)
    requires |name| < 256 && Utf8(name)
    ensures Named(([|name|] + name) + tail) == Ported(Domain(name), tail)
  {
    hide Utf8, Ported;
    var input := ([|name| as byte] + name) + tail;
    Assoc([|name| as byte], name, tail);
    Cut([|name| as byte], name + tail);
    Cut(name, tail);
    assert input[1..] == name + tail;
  }

  lemma AddressAccepted(t: Target, tail: bytes)
    requires Expressible(t.addr)
    ensures Addressed(AddressType(t.addr), AddressPart(t.addr) + tail) == Ported(t.addr, tail)
  {
    hide Utf8, Ported, Named;
    match t.addr
    case IpV4(ip) => Cut(ip, tail);
    case IpV6(ip) => Cut(ip, tail);
    case Domain(name) => NamedReads(name, tail);
  }

  lemma RequestSplits(reserved: byte, ty: byte, more: bytes)
    ensures Requested([SOCKS_VERSION, CONNECT, reserved, ty] + more) == Addressed(ty, more)
  {
    hide Named, Ported;
    Cut([SOCKS_VERSION, CONNECT, reserved, ty], more);
  }

  lemma RequestAccepted(reserved: byte, t: Target, suffix: bytes)
    requires Expressible(t.addr)
    ensures Requested(ConnectRequest(reserved, t) + suffix) == Shaken(Ok(t), suffix, ACCEPTED)
  {
    hide Utf8, Ported, Be16, Requested, Addressed, AddressPart, AddressType;
    var head := [SOCKS_VERSION, CONNECT, reserved, AddressType(t.addr)];
    Assoc(head, AddressPart(t.addr) + Be16(t.port), suffix);
    Assoc(AddressPart(t.addr), Be16(t.port), suffix);
    RequestSplits(reserved, AddressType(t.addr), AddressPart(t.addr) + (Be16(t.port) + suffix));
    AddressAccepted(t, Be16(t.port) + suffix);
    PortReads(t.addr, t.port, suffix);
  }

  /** Every well-formed exchange that offers no-auth is accepted, consumes exactly its own bytes, and is answered once. */
  lemma WellFormedAccepted(methods: bytes, reserved: byte, t: Target, suffix: bytes, room: nat)
    requires room >= 2 && |methods| < 256 && NO_AUTH in methods && Expressible(t.addr)
    ensures Greeted(Greeting(methods) + (ConnectRequest(reserved, t) + suffix), room) == Shaken(Ok(t), suffix, ACCEPTED)
  {
    var tail := ConnectRequest(reserved, t) + suffix;
    var input := Greeting(methods) + tail;
    assert input[2..] == methods + tail;
    Cut(methods, tail);
    RequestAccepted(reserved, t, suffix);
    hide Requested, ConnectRequest;
  }

  lemma PortSplits(addr: Address, input: bytes)
    requires Ported(addr, input).result.Ok?
    ensures Ported(addr, input).result.target.addr == addr
    ensures input == Be16(Ported(addr, input).result.target.port) + Ported(addr, input).rest
  {
  }

  lemma NamedWellFormed(input: bytes)
    requires Named(input).result.Ok?
    ensures var t := Named(input).result.target;
            && Expressible(t.addr) && AddressType(t.addr) == 3
            && input == AddressPart(t.addr) + (Be16(t.port) + Named(input).rest)
  {
    hide Utf8, Ported, Be16;
    var n: nat := input[0];
    var more := input[1..];
    PortSplits(Domain(more[..n]), more[n..]);
    assert input == [input[0]] + more[..n] + more[n..];
  }

  lemma AddressWellFormed(ty: byte, more: bytes)
    requires Addressed(ty, more).result.Ok?
    ensures var t := Addressed(ty, more).result.target;
            && Expressible(t.addr) && AddressType(t.addr) == ty
            && more == AddressPart(t.addr) + (Be16(t.port) + Addressed(ty, more).rest)
  {
    hide Utf8, Named, Ported, Be16;
    if ty == SOCKS_IPV4 {
      PortSplits(IpV4(more[..4]), more[4..]);
      assert more == more[..4] + more[4..];
    } else if ty == SOCKS_IPV6 {
      PortSplits(IpV6(more[..16]), more[16..]);
      assert more == more[..16] + more[16..];
    } else {
      NamedWellFormed(more);
    }
  }

  lemma RequestWellFormed(input: bytes) returns (reserved: byte)
    requires Requested(input).result.Ok?
    ensures Expressible(Requested(input).result.target.addr)
    ensures input == ConnectRequest(reserved, Requested(input).result.target) + Requested(input).rest
  {
    hide Utf8, Addressed, AddressPart, AddressType, Be16;
    reserved := input[2];
    AddressWellFormed(input[3], input[4..]);
    var t := Requested(input).result.target;
    Assoc(AddressPart(t.addr), Be16(t.port), Requested(input).rest);
    assert input == [5, 1, reserved, input[3]] + input[4..];
    Assoc([5, 1, reserved, input[3]], AddressPart(t.addr) + Be16(t.port), Requested(input).rest);
  }

  /** Conversely only such exchanges are accepted: the handshake accepts exactly the RFC's grammar. */
  lemma AcceptedWellFormed(input: bytes, room: nat) returns (methods: bytes, reserved: byte)
    requires Greeted(input, room).result.Ok?
    ensures room >= 2 && |methods| < 256 && NO_AUTH in methods
    ensures Expressible(Greeted(input, room).result.target.addr) && Greeted(input, room).wrote == ACCEPTED
    ensures var h := Greeted(input, room);
            input == Greeting(methods) + (ConnectRequest(reserved, h.result.target) + h.rest)
  {
    var n: nat := input[1];
    methods := input[2..][..n];
    reserved := RequestWellFormed(input[2..][n..]);
    hide Requested, ConnectRequest;
    assert input == [input[0], input[1]] + methods + input[2..][n..];
  }

  /**
   * Lossless translation: whatever the handshake accepted, the VLESS server reads the same target from the header made
   * of it, and the bytes that follow are untouched; the one-byte domain length never truncates.
   */
  lemma TranslationIsLossless(input: bytes, room: nat, uuid: Uuid, flow: bytes, payload: bytes)
    requires Greeted(input, room).result.Ok? && |flow| < 128
    ensures var t := Greeted(input, room).result.target;
            VlessRequest.ReadRequest(RequestHeader(uuid, flow, t) + payload)
            == Some(Parsed(Request(uuid, flow, t), payload))
  {
    hide RequestHeader, VlessRequest.ReadRequest, Utf8, ConnectRequest, Greeted;
    var methods, reserved := AcceptedWellFormed(input, room);
    RequestReads(uuid, flow, Greeted(input, room).result.target, payload);
  }

  /**
   * What the client is told: nothing before its methods are known, then as much of one reply as it takes, and the reply
   * says which outcome it is; the handshake fails on writing exactly when the client does not take it all.
   */
  lemma ReplySaysOutcome(input: bytes, room: nat)
    ensures var h := Greeted(input, room);
            var asked := |input| >= 2 && input[0] == SOCKS_VERSION && |input| - 2 >= input[1];
            && (!asked ==> h.wrote == [])
            && (h.result == Err(WriteFailed) <==> asked && room < 2)
            && (h.result == Err(NoAcceptableMethod) <==> h.wrote == REFUSED)
            && (asked && room >= 2 ==> h.wrote == ACCEPTED || h.wrote == REFUSED)
  {
    hide Utf8;
    if |input| >= 2 && input[0] == SOCKS_VERSION && |input| - 2 >= input[1] && NO_AUTH in input[2..][..input[1]] {
      assert Requested(input[2..][input[1]..]).wrote == ACCEPTED;
    }
  }

  /** Why a request of four bytes or more is refused at once, checked in this order. */
  lemma RequestRefused(input: bytes)
    requires |input| >= 4
    ensures Requested(input).result == Err(BadRequestVersion) <==> input[0] != 5
    ensures Requested(input).result == Err(OnlyConnect) <==> input[0] == 5 && input[1] != 1
    ensures Requested(input).result == Err(BadAddressType) <==>
            input[0] == 5 && input[1] == 1 && input[3] != 1 && input[3] != 3 && input[3] != 4
  {
    hide Utf8;
  }

  /** A client whose greeting is of another version is turned away without an answer. */
  lemma GreetingRefused(input: bytes, room: nat)
    requires |input| >= 2
    ensures Greeted(input, room).result == Err(UnsupportedVersion) <==> input[0] != 5
    ensures input[0] != 5 ==> Greeted(input, room).wrote == [] && Greeted(input, room).rest == input[2..]
  {
    hide Utf8;
  }
}
