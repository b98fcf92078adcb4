/** The Vision frame and its incremental decoder (src/outbound/vision.rs). */
module Framing {
  import opened Bytes

  const CMD_PADDING_CONTINUE: byte := 0
  const CMD_PADDING_END: byte := 1
  const CMD_PADDING_DIRECT: byte := 2

  /** command(1) + contentLen(2) + paddingLen(2). */
  const HEADER_LEN := 5
  const UUID_LEN := 16
  const BUF_SIZE := 8192
  const MAX_FRAME_CONTENT := BUF_SIZE - UUID_LEN - HEADER_LEN

  const SEED_LONG_THRESHOLD := 900
  const SEED_LONG_RANGE := 500
  const SEED_LONG_BASE := 900
  const SEED_SHORT_RANGE := 256

  type Uuid = u: bytes | |u| == UUID_LEN witness seq(UUID_LEN, _ => 0)

  /** The padding length; `draw` is whatever the random generator produced. */
  function PaddingLen(contentLen: nat, longPadding: bool, draw: nat): (pad: nat)
    ensures contentLen <= MAX_FRAME_CONTENT ==> UUID_LEN + HEADER_LEN + contentLen + pad <= BUF_SIZE
    ensures contentLen > MAX_FRAME_CONTENT ==> pad == 0
    ensures longPadding && contentLen < SEED_LONG_THRESHOLD ==>
              SEED_LONG_BASE <= contentLen + pad < SEED_LONG_BASE + SEED_LONG_RANGE
    ensures !longPadding || contentLen >= SEED_LONG_THRESHOLD ==> pad < SEED_SHORT_RANGE
  {
    var pad :=
      if contentLen < SEED_LONG_THRESHOLD && longPadding
      then Max(draw % SEED_LONG_RANGE + SEED_LONG_BASE - contentLen, 0)
      else draw % SEED_SHORT_RANGE;
    var cap := Max(BUF_SIZE - (21 + contentLen), 0);
    if pad > cap then cap else pad
  }

  /** The padding in numbers: only the room left in 8192 bytes, after the 21 of identifier and header, cuts it short. */
  lemma PaddingExact(contentLen: nat, longPadding: bool, draw: nat)
    ensures longPadding && contentLen < 900 ==> PaddingLen(contentLen, longPadding, draw) == draw % 500 + 900 - contentLen
    ensures (!longPadding || contentLen >= 900) && contentLen <= 8171 ==>
              PaddingLen(contentLen, longPadding, draw) == Min(draw % 256, 8171 - contentLen)
    ensures contentLen > 8171 ==> PaddingLen(contentLen, longPadding, draw) == 0
  {
  }

  function UuidPrefix(uuid: Option<Uuid>): bytes {
    match uuid
    case Some(id) => id
    case None => []
  }

  /** The header's two lengths are written through `as u16` casts. */
  function FrameHeader(command: byte, contentLen: nat, pad: nat): (h: bytes)
    ensures |h| == HEADER_LEN && h[0] == command
    ensures contentLen < 0x1_0000 ==> h[1] as nat * 256 + h[2] as nat == contentLen
    ensures pad < 0x1_0000 ==> h[3] as nat * 256 + h[4] as nat == pad
  {
    [command] + Be16(AsU16(contentLen)) + Be16(AsU16(pad))
  }

  /** One frame on the wire. */
  function FrameWire(uuid: Option<Uuid>, command: byte, content: bytes, pad: nat): bytes {
    UuidPrefix(uuid) + (FrameHeader(command, |content|, pad) + (content + Zeros(pad)))
  }

  /** Appends one frame to `out`. */
  method XtlsPaddingInto(out: bytes, data: bytes, command: byte, uuid: Option<Uuid>, longPadding: bool, draw: nat)
    returns (grown: bytes)
    ensures grown == out + FrameWire(uuid, command, data, PaddingLen(|data|, longPadding, draw))
  {
    var pad := PaddingLen(|data|, longPadding, draw);
    grown := out;
    if uuid.Some? {
      grown := grown + uuid.value;
    }
    grown := grown + [command];
    grown := grown + Be16(AsU16(|data|));
    grown := grown + Be16(AsU16(pad));
    grown := grown + data;
    grown := grown + Zeros(pad);
  }

  // ---------------------------------------------------------------------------
  // Deframing
  // ---------------------------------------------------------------------------

  /** The deframer's three flags. */
  datatype Deframe = Deframe(expectUuid: bool, done: bool, direct: bool)

  const FRESH := Deframe(true, false, false)

  /** What one call of `unpad` leaves: state, undecoded input, output, and whether it succeeded. */
  datatype Unpadded = Unpadded(u: Deframe, rest: bytes, out: bytes, ok: bool)

  function PrefixLen(u: Deframe): nat {
    if u.expectUuid then UUID_LEN else 0
  }

  /** The five header bytes, past the UUID prefix if one is due. */
  function HeaderOf(u: Deframe, buf: bytes): (h: bytes)
    requires PrefixLen(u) + HEADER_LEN <= |buf|
    ensures |h| == HEADER_LEN
  {
    buf[PrefixLen(u)..PrefixLen(u) + HEADER_LEN]
  }

  function ContentLen(h: bytes): nat
    requires |h| == HEADER_LEN
  {
    U16(h[1], h[2])
  }

  function PadLen(h: bytes): nat
    requires |h| == HEADER_LEN
  {
    U16(h[3], h[4])
  }

  function FrameLen(u: Deframe, buf: bytes): nat
    requires PrefixLen(u) + HEADER_LEN <= |buf|
  {
    PrefixLen(u) + HEADER_LEN + ContentLen(HeaderOf(u, buf)) + PadLen(HeaderOf(u, buf))
  }

  /** A whole frame (with the UUID prefix if one is due) stands at the front of `buf`. */
  predicate WholeFrame(u: Deframe, buf: bytes) {
    && PrefixLen(u) + HEADER_LEN <= |buf|
    && FrameLen(u, buf) <= |buf|
  }

  function Body(u: Deframe, buf: bytes): bytes
    requires WholeFrame(u, buf)
  {
    buf[PrefixLen(u) + HEADER_LEN..]
  }

  function FrameContent(u: Deframe, buf: bytes): bytes
    requires WholeFrame(u, buf)
  {
    Body(u, buf)[..ContentLen(HeaderOf(u, buf))]
  }

  /** What follows the frame and its padding. */
  function FrameRest(u: Deframe, buf: bytes): (rest: bytes)
    requires WholeFrame(u, buf)
    ensures |rest| == |buf| - FrameLen(u, buf)
  {
    Body(u, buf)[ContentLen(HeaderOf(u, buf)) + PadLen(HeaderOf(u, buf))..]
  }

  /** Obeying a command; None is the unknown command. */
  function Obey(direct: bool, command: byte): Option<Deframe> {
    if command == CMD_PADDING_CONTINUE then Some(Deframe(false, false, direct))
    else if command == CMD_PADDING_END then Some(Deframe(false, true, direct))
    else if command == CMD_PADDING_DIRECT then Some(Deframe(false, true, true))
    else None
  }

  function Emit(content: bytes, r: Unpadded): Unpadded {
    r.(out := content + r.out)
  }

  function Unpadding(u: Deframe, buf: bytes): (r: Unpadded)
    ensures |r.rest| <= |buf|
    ensures r.ok && r.u.done ==> r.rest == []
    decreases |buf|
  {
    if u.done then Unpadded(u, [], buf, true)
    else if !WholeFrame(u, buf) then Unpadded(u, buf, [], true)
    else
      var rest := FrameRest(u, buf);
      match Obey(u.direct, HeaderOf(u, buf)[0])
      case None => Unpadded(Deframe(false, false, u.direct), rest, FrameContent(u, buf), false)
      case Some(v) => Emit(FrameContent(u, buf), Unpadding(v, rest))
  }

  /** Decoding one frame off the front, with `emitted` already put out. */
  lemma Peel(u: Deframe, buf: bytes, emitted: bytes)
    requires !u.done && WholeFrame(u, buf)
    ensures var rest, out := FrameRest(u, buf), emitted + FrameContent(u, buf);
            Emit(emitted, Unpadding(u, buf)) ==
            match Obey(u.direct, HeaderOf(u, buf)[0])
            case None => Unpadded(Deframe(false, false, u.direct), rest, out, false)
            case Some(v) => Emit(out, Unpadding(v, rest))
  {
    match Obey(u.direct, HeaderOf(u, buf)[0]) {
      case None =>
      case Some(v) =>
        Assoc(emitted, FrameContent(u, buf),
              Unpadding(v, FrameRest(u, buf)).out);
    }
  }

  /** With nothing to decode, decoding stops at once. */
  lemma Settle(u: Deframe, buf: bytes, emitted: bytes)
    ensures u.done ==> Emit(emitted, Unpadding(u, buf)) == Unpadded(u, [], emitted + buf, true)
    ensures !u.done && !WholeFrame(u, buf) ==> Emit(emitted, Unpadding(u, buf)) == Unpadded(u, buf, emitted, true)
  {
  }

  lemma FrameShrinks(u: Deframe, buf: bytes)
    requires WholeFrame(u, buf)
    ensures |FrameRest(u, buf)| < |buf|
  {
  }

  class Unpadder {
    var expectUuid: bool
    var done: bool
    var direct: bool

    constructor ()
      ensures State() == FRESH
    {
      expectUuid, done, direct := true, false, false;
    }

    function State(): Deframe
      reads this
    {
      Deframe(expectUuid, done, direct)
    }

    /** Decodes as many whole frames as `buf` holds, appending their contents to `out`. */
    method Unpad(buf: bytes, out: bytes) returns (rest: bytes, grown: bytes, ok: bool)
      modifies this
      ensures Unpadded(State(), rest, grown, ok) == Emit(out, Unpadding(old(State()), buf))
    {
      hide Unpadding, Emit, WholeFrame, FrameRest, FrameContent, HeaderOf, Obey;
      ghost var goal := Emit(out, Unpadding(State(), buf));
      rest, grown := buf, out;
      while true
        invariant Emit(grown, Unpadding(State(), rest)) == goal
        decreases |rest|
      {
        Settle(State(), rest, grown);
        if done {
          grown := grown + rest;
          rest := [];
          return rest, grown, true;
        }
        ghost var u, all, before := State(), rest, grown;
        var whole, known;
        whole, rest, grown, known := TakeFrame(rest, grown);
        if !whole {
          return rest, grown, true;
        }
        Peel(u, all, before);
        FrameShrinks(u, all);
        if !known {
          return rest, grown, false;
        }
      }
    }

    /** One frame off the front of `buf`, if a whole one is there. */
    method TakeFrame(buf: bytes, out: bytes) returns (whole: bool, rest: bytes, grown: bytes, known: bool)
      requires !done
      modifies this
      ensures whole == WholeFrame(old(State()), buf)
      ensures !whole ==> rest == buf && grown == out && State() == old(State())
      ensures whole ==>
                && rest == FrameRest(old(State()), buf) && grown == out + FrameContent(old(State()), buf)
                && var v := Obey(old(direct), HeaderOf(old(State()), buf)[0]);
                   known == v.Some? && State() == if known then v.value else Deframe(false, false, old(direct))
    {
      hide Obey;
      rest, grown, known := buf, out, true;
      var prefix := if expectUuid then UUID_LEN else 0;
      if |buf| < prefix + HEADER_LEN {
        return false, rest, grown, known;
      }
      var h := buf[prefix..prefix + HEADER_LEN];
      var command := h[0];
      var contentLen := U16(h[1], h[2]);
      var padLen := U16(h[3], h[4]);
      var total := prefix + HEADER_LEN + contentLen + padLen;
      if |buf| < total {
        return false, rest, grown, known;
      }
      rest := rest[prefix + HEADER_LEN..];
      expectUuid := false;
      grown := grown + rest[..contentLen];
      rest := rest[contentLen + padLen..];
      whole := true;
      known := TakeCommand(command);
    }

    /** Acting on a frame's command. */
    method TakeCommand(command: byte) returns (known: bool)
      requires !done && !expectUuid
      modifies this
      ensures known == Obey(old(direct), command).Some?
      ensures State() == if known then Obey(old(direct), command).value else old(State())
    {
      if command == CMD_PADDING_CONTINUE {
      } else if command == CMD_PADDING_END {
        done := true;
      } else if command == CMD_PADDING_DIRECT {
        done := true;
        direct := true;
      } else {
        return false;
      }
      known := true;
    }
  }

  // ---------------------------------------------------------------------------
  // Incremental decoding
  // ---------------------------------------------------------------------------

  /** Goes on with `b` after the call that left `r`; after an error nothing more is read. */
  function Resume(r: Unpadded, b: bytes): Unpadded {
    if r.ok then Emit(r.out, Unpadding(r.u, r.rest + b)) else r.(rest := r.rest + b)
  }

  lemma FrameStays(u: Deframe, a: bytes, b: bytes)
    requires WholeFrame(u, a)
    ensures WholeFrame(u, a + b) && HeaderOf(u, a + b) == HeaderOf(u, a)
    ensures FrameContent(u, a + b) == FrameContent(u, a)
    ensures FrameRest(u, a + b) == FrameRest(u, a) + b
  {
    var h := HeaderOf(u, a);
    assert HeaderOf(u, a + b) == h;
    DropShort(a, b, PrefixLen(u) + HEADER_LEN);
    DropShort(Body(u, a), b, ContentLen(h));
    DropShort(Body(u, a), b, ContentLen(h) + PadLen(h));
  }

  /** Decoding `a + b` at once is decoding `a` and then, unless that failed, going on with `b`. */
  lemma {:induction false} UnpadSplit(u: Deframe, a: bytes, b: bytes)
    ensures Unpadding(u, a + b) == Resume(Unpadding(u, a), b)
    decreases |a|
  {
    if u.done {
      assert [] + b == b;
    } else if WholeFrame(u, a) {
      FrameStays(u, a, b);
      var rest := FrameRest(u, a);
      match Obey(u.direct, HeaderOf(u, a)[0]) {
        case None =>
        case Some(v) =>
          UnpadSplit(v, rest, b);
          var r := Unpadding(v, rest);
          if r.ok {
            Assoc(FrameContent(u, a), r.out, Unpadding(r.u, r.rest + b).out);
          }
      }
    } else {
      assert [] + Unpadding(u, a + b).out == Unpadding(u, a + b).out;
    }
  }

  /** What a call leaves behind holds no further whole frame. */
  lemma {:induction false} UnpadStuck(u: Deframe, buf: bytes)
    requires Unpadding(u, buf).ok
    ensures var r := Unpadding(u, buf); Unpadding(r.u, r.rest) == Unpadded(r.u, r.rest, [], true)
    decreases |buf|
  {
    if !u.done && WholeFrame(u, buf) {
      var v := Obey(u.direct, HeaderOf(u, buf)[0]).value;
      UnpadStuck(v, FrameRest(u, buf));
    }
  }

  /** The fields of a frame that starts a longer input, read where the decoder looks for them. */
  lemma FrameFields(uuid: Option<Uuid>, command: byte, content: bytes, pad: nat, tail: bytes)
    requires |content| < 0x1_0000 && pad < 0x1_0000
    ensures var u, w := Deframe(uuid.Some?, false, false), FrameWire(uuid, command, content, pad) + tail;
            && WholeFrame(u, w) && HeaderOf(u, w)[0] == command
            && FrameContent(u, w) == content && FrameRest(u, w) == tail
  {
    var u, w := Deframe(uuid.Some?, false, false), FrameWire(uuid, command, content, pad) + tail;
    var p, h, body := UuidPrefix(uuid), FrameHeader(command, |content|, pad), content + (Zeros(pad) + tail);
    assert w == p + (h + body) by {
      Assoc(p, h + (content + Zeros(pad)), tail);
      Assoc(h, content + Zeros(pad), tail);
      Assoc(content, Zeros(pad), tail);
    }
    assert HeaderOf(u, w) == h && Body(u, w) == body by { ParseHead(p, h, body); }
    Cut(content, Zeros(pad) + tail);
    DropDrop(body, |content|, pad);
    Cut(Zeros(pad), tail);
  }

  lemma ParseHead(p: bytes, h: bytes, body: bytes)
    ensures (p + (h + body))[|p|..|p| + |h|] == h
    ensures (p + (h + body))[|p| + |h|..] == body
  {
  }

  /** The decoder reads back exactly one well-formed frame, whatever its padding, then goes on. */
  lemma UnpadFrame(uuid: Option<Uuid>, command: byte, content: bytes, pad: nat, tail: bytes)
    requires |content| < 0x1_0000 && pad < 0x1_0000
    requires Obey(false, command).Some?
    ensures Unpadding(Deframe(uuid.Some?, false, false), FrameWire(uuid, command, content, pad) + tail)
         == Emit(content, Unpadding(Obey(false, command).value, tail))
  {
    FrameFields(uuid, command, content, pad, tail);
  }

  /** The frame byte by byte: the identifier if one is due, command, content length, padding length, content, padding. */
  lemma FrameLayout(uuid: Option<Uuid>, command: byte, content: bytes, pad: nat)
    requires |content| < 0x1_0000 && pad < 0x1_0000
    ensures var w, o := FrameWire(uuid, command, content, pad), if uuid.Some? then 16 else 0;
            && |w| == o + 5 + |content| + pad
            && (uuid.Some? ==> w[..16] == uuid.value)
            && w[o] == command
            && w[o + 1] as nat * 256 + w[o + 2] as nat == |content|
            && w[o + 3] as nat * 256 + w[o + 4] as nat == pad
            && w[o + 5..o + 5 + |content|] == content
            && w[o + 5 + |content|..] == Zeros(pad)
  {
    hide FrameHeader;
    var id, h, z := UuidPrefix(uuid), FrameHeader(command, |content|, pad), Zeros(pad);
    var w := id + (h + (content + z));
    Cut(id, h + (content + z));
    Cut(h, content + z);
    Cut(content, z);
    var o := |id|;
    assert w[o..] == h + (content + z);
    assert w[o] == w[o..][0] && w[o + 1] == w[o..][1] && w[o + 2] == w[o..][2];
    assert w[o + 3] == w[o..][3] && w[o + 4] == w[o..][4];
    assert w[o + 5..] == w[o..][5..];
    assert w[o + 5..o + 5 + |content|] == w[o + 5..][..|content|];
    assert w[o + 5 + |content|..] == w[o + 5..][|content|..];
  }

  /** Commands 0, 1 and 2 continue padding, end it, and end it with the switch to raw bytes; any other is an error. */
  lemma CommandMeans(uuid: Option<Uuid>, command: byte, content: bytes, pad: nat, tail: bytes)
    requires |content| < 0x1_0000 && pad < 0x1_0000
    ensures var r := Unpadding(Deframe(uuid.Some?, false, false), FrameWire(uuid, command, content, pad) + tail);
            && (command == 0 ==> r == Emit(content, Unpadding(Deframe(false, false, false), tail)))
            && (command == 1 ==> r == Unpadded(Deframe(false, true, false), [], content + tail, true))
            && (command == 2 ==> r == Unpadded(Deframe(false, true, true), [], content + tail, true))
            && (command > 2 ==> !r.ok && r.out == content && r.rest == tail)
  {
    FrameFields(uuid, command, content, pad, tail);
  }
}
