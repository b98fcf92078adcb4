/**
 * Whole runs of the framer: any writes, any sniffed downlink packets in between, any padding. The peer's
 * deframer gives back what was written and agrees on how padding ended.
 */
module PaddingRuns {
  import opened Bytes
  import opened Framing
  import opened Sniffer
  import opened Reshaping
  import opened Decoding
  import opened Padding

  // ---------------------------------------------------------------------------
  // One call
  // ---------------------------------------------------------------------------

  /** Inside the loop over the pieces, `direct` already says how the last frame will end padding. */
  ghost predicate Consistent(p: Pad, t: Traffic) {
    && (t.enableXtls ==> t.isTls12OrAbove)
    && (p.padding ==> !p.direct)
    && (!p.padding ==> p.direct == t.enableXtls)
  }

  ghost predicate Fit(pieces: seq<bytes>) {
    forall i :: 0 <= i < |pieces| ==> |pieces[i]| <= MAX_FRAME_CONTENT
  }

  /** No length field is truncated, and with its UUID and padding the frame fits the peer's buffer. */
  lemma FrameFits(f: Frame, draw: nat)
    requires |f.content| <= MAX_FRAME_CONTENT
    ensures var pad := PaddingLen(|f.content|, f.longPadding, draw);
            && AsU16(|f.content|) == |f.content| && AsU16(pad) == pad
            && UUID_LEN + HEADER_LEN + |f.content| + pad <= BUF_SIZE
            && |WireOf(f, draw)| <= BUF_SIZE
  {
  }

  /** The peer reads a pushed frame and goes on with the rest of the plan. */
  lemma PushDecodes(f: Frame, rest: Plan, draws: seq<nat>)
    requires |f.content| <= MAX_FRAME_CONTENT && Obey(false, f.command).Some?
    ensures Unpadding(Deframe(f.uuid.Some?, false, false), PlanWire(Push(f, rest), draws))
         == Emit(f.content, Unpadding(Obey(false, f.command).value, PlanWire(rest, Later(draws))))
  {
    hide Unpadding, PlanWire, WireOf;
    var w := PlanWire(Push(f, rest), draws);
    PushWire(f, rest, [], draws);
    NilLeft(w);
    NilLeft(WireOf(f, Draw(draws)));
    FrameFits(f, Draw(draws));
    WireIsFrame(f, Draw(draws));
    UnpadFrame(f.uuid, f.command, f.content, PaddingLen(|f.content|, f.longPadding, Draw(draws)),
               PlanWire(rest, Later(draws)));
  }

  lemma WireIsFrame(f: Frame, draw: nat)
    ensures WireOf(f, draw) == FrameWire(f.uuid, f.command, f.content, PaddingLen(|f.content|, f.longPadding, draw))
  {
  }

  /** How the peer's deframer stands when the framer is in state `p`. */
  function Peer(p: Pad): Deframe {
    Deframe(p.uuid.Some?, !p.padding, p.direct)
  }

  /** What one plan must mean to the peer. */
  ghost predicate Conveys(expectUuid: bool, plan: Plan, draws: seq<nat>, data: bytes) {
    Unpadding(Deframe(expectUuid, false, false), PlanWire(plan, draws)) == Unpadded(Peer(plan.p), [], data, true)
  }

  lemma PushConveys(f: Frame, rest: Plan, draws: seq<nat>, data: bytes)
    requires |f.content| <= MAX_FRAME_CONTENT && f.command == CMD_PADDING_CONTINUE
    requires Conveys(false, rest, Later(draws), data)
    ensures Conveys(f.uuid.Some?, Push(f, rest), draws, f.content + data)
  {
    hide Unpadding, PlanWire;
    PushDecodes(f, rest, draws);
  }

  /** The last frame of a plan, followed by bytes outside any frame only if it ends padding. */
  lemma LastConveys(f: Frame, p: Pad, tail: bytes, draws: seq<nat>)
    requires |f.content| <= MAX_FRAME_CONTENT && Obey(false, f.command) == Some(Peer(p))
    requires p.padding ==> tail == []
    ensures Conveys(f.uuid.Some?, Plan(p, [f], tail), draws, f.content + tail)
  {
    hide Unpadding;
    var rest := Plan(p, [], tail);
    PushDecodes(f, rest, draws);
    assert [f] + [] == [f];
    assert FramesWire([], Later(draws)) == [];
    NilLeft(tail);
    assert PlanWire(rest, Later(draws)) == tail;
    Settle(Peer(p), tail, f.content);
    assert p.padding ==> f.content + tail == f.content;
  }

  /**
   * What one call writes decodes to exactly its input, and the peer ends up knowing whether padding is
   * over and whether it ended in Direct.
   */
  lemma {:induction false} PlanDecodes(p: Pad, t: Traffic, pieces: seq<bytes>, complete: bool, longPadding: bool,
                                       draws: seq<nat>)
    requires pieces != [] && Fit(pieces) && Consistent(p, t)
    ensures Conveys(p.uuid.Some?, Planned(p, t, pieces, complete, longPadding), draws, Concat(pieces))
    decreases |pieces|
  {
    hide Conveys, WireOf;
    var b, last := pieces[0], |pieces| == 1;
    assert last ==> pieces[1..] == [] && b + Concat(pieces[1..]) == b + [];
    if HandshakeOver(t, b, complete) {
      var q := Pad(false, t.enableXtls, None);
      if last {
        var f := Frame(p.uuid, EndCommand(t), b, true);
        LastConveys(f, q, [], draws);
        assert [f] + [] == [f] && Planned(p, t, pieces, complete, longPadding) == Plan(q, [f], []);
      } else {
        PlanDecodes(q, t, pieces[1..], complete, false, Later(draws));
        PushConveys(Frame(p.uuid, CMD_PADDING_CONTINUE, b, true), Planned(q, t, pieces[1..], complete, false), draws,
                    Concat(pieces[1..]));
      }
    } else if GivesUp(t) {
      LastConveys(Frame(p.uuid, CMD_PADDING_END, b, longPadding), Pad(false, p.direct, None), Concat(pieces[1..]),
                  draws);
    } else {
      var q := p.(uuid := None);
      if last {
        var f := Frame(p.uuid, if !p.padding then EndCommand(t) else CMD_PADDING_CONTINUE, b, longPadding);
        LastConveys(f, q, [], draws);
        assert [f] + [] == [f] && Planned(p, t, pieces, complete, longPadding) == Plan(q, [f], []);
      } else {
        PlanDecodes(q, t, pieces[1..], complete, longPadding, Later(draws));
        PushConveys(Frame(p.uuid, CMD_PADDING_CONTINUE, b, longPadding),
                    Planned(q, t, pieces[1..], complete, longPadding), draws, Concat(pieces[1..]));
      }
    }
  }

  // ---------------------------------------------------------------------------
  // The frames of one call
  // ---------------------------------------------------------------------------

  /**
   * All frames but the last continue padding; the last one ends it exactly when padding is over, with
   * Direct exactly when the framer says so; only the first carries the UUID; bytes outside frames
   * follow only an End.
   */
  ghost predicate WellEnded(uuid: Option<Uuid>, frames: seq<Frame>, tail: bytes, p: Pad) {
    && frames != [] && frames[0].uuid == uuid
    && (forall i :: 0 < i < |frames| ==> frames[i].uuid == None)
    && (forall i :: 0 <= i < |frames| - 1 ==> frames[i].command == CMD_PADDING_CONTINUE)
    && frames[|frames| - 1].command == (if p.padding then CMD_PADDING_CONTINUE
                                        else if p.direct then CMD_PADDING_DIRECT else CMD_PADDING_END)
    && (tail != [] ==> !p.padding && !p.direct)
    && (forall i :: 0 <= i < |frames| ==> |frames[i].content| <= MAX_FRAME_CONTENT)
    && p.uuid == None && (p.direct ==> !p.padding)
  }

  lemma PushWellEnded(f: Frame, rest: Plan)
    requires f.command == CMD_PADDING_CONTINUE && |f.content| <= MAX_FRAME_CONTENT
    requires WellEnded(None, rest.frames, rest.tail, rest.p)
    ensures var plan := Push(f, rest); WellEnded(f.uuid, plan.frames, plan.tail, plan.p)
  {
    forall i | 0 < i < |Push(f, rest).frames|
      ensures Push(f, rest).frames[i] == rest.frames[i - 1]
    {
    }
  }

  lemma OneWellEnded(f: Frame, tail: bytes, p: Pad)
    requires f.command == CMD_PADDING_END && |f.content| <= MAX_FRAME_CONTENT && p == Pad(false, false, None)
    ensures WellEnded(f.uuid, [f], tail, p)
  {
  }

  lemma {:induction false} PlanWellEnded(p: Pad, t: Traffic, pieces: seq<bytes>, complete: bool, longPadding: bool)
    requires pieces != [] && Fit(pieces) && Consistent(p, t)
    ensures var plan := Planned(p, t, pieces, complete, longPadding); WellEnded(p.uuid, plan.frames, plan.tail, plan.p)
    decreases |pieces|
  {
    if |pieces| > 1 {
      hide WellEnded;
      var b, q := pieces[0], p.(uuid := None);
      if HandshakeOver(t, b, complete) {
        PlanWellEnded(Pad(false, t.enableXtls, None), t, pieces[1..], complete, false);
        PushWellEnded(Frame(p.uuid, CMD_PADDING_CONTINUE, b, true),
                      Planned(Pad(false, t.enableXtls, None), t, pieces[1..], complete, false));
      } else if GivesUp(t) {
        OneWellEnded(Frame(p.uuid, CMD_PADDING_END, b, longPadding), Concat(pieces[1..]), Pad(false, p.direct, None));
      } else {
        PlanWellEnded(q, t, pieces[1..], complete, longPadding);
        PushWellEnded(Frame(p.uuid, CMD_PADDING_CONTINUE, b, longPadding),
                      Planned(q, t, pieces[1..], complete, longPadding));
      }
    }
  }

  // ---------------------------------------------------------------------------
  // Runs
  // ---------------------------------------------------------------------------

  /** A write of the uplink, or a downlink packet passing the shared sniffer. */
  datatype Event = Write(data: bytes, draws: seq<nat>) | Sniff(packet: bytes)

  /** `wire` is everything written so far, `accepted` everything it should stand for. */
  datatype Run = Run(p: Pad, t: Traffic, wire: bytes, accepted: bytes, frames: seq<Frame>, writes: nat, packets: nat)

  /** A new connection, with the camouflage frame if there was no first payload. */
  function Start(id: Uuid, camouflage: Option<nat>): Run {
    var blank := Run(Pad(true, false, Some(id)), FRESH_TRAFFIC, [], [], [], 0, 0);
    match camouflage
    case None => blank
    case Some(draw) =>
      var f := Frame(Some(id), CMD_PADDING_CONTINUE, CAMOUFLAGE, true);
      blank.(p := blank.p.(uuid := None), wire := WireOf(f, draw), frames := [f])
  }

  function Next(r: Run, e: Event): Run {
    match e
    case Sniff(packet) => r.(t := Filtered(r.t, packet), packets := r.packets + 1)
    case Write(data, draws) =>
      var t := Filtered(r.t, data);
      var plan := Padded(r.p, t, data);
      Run(plan.p, t, r.wire + PlanWire(plan, draws), r.accepted + data, r.frames + plan.frames,
          r.writes + 1, r.packets + 1)
  }

  function After(r: Run, events: seq<Event>): Run
    decreases |events|
  {
    if events == [] then r else After(Next(r, events[0]), events[1..])
  }

  /** A run of a new connection leads to `r`. */
  ghost predicate Reached(id: Uuid, camouflage: Option<nat>, events: seq<Event>, r: Run) {
    r == After(Start(id, camouflage), events)
  }

  /** The peer has read everything and stands where the framer stands. */
  ghost predicate InStep(r: Run) {
    Unpadding(FRESH, r.wire) == Unpadded(Peer(r.p), [], r.accepted, true)
  }

  ghost predicate Sound(r: Run) {
    && SnifferInv(r.t)
    && (r.p.direct ==> !r.p.padding)
    && (r.p.uuid.Some? ==> r.p.padding && r.frames == [])
    && InStep(r)
  }

  lemma StartSound(id: Uuid, camouflage: Option<nat>)
    ensures Sound(Start(id, camouflage))
  {
    hide Unpadding, WireOf;
    match camouflage {
      case None =>
        Settle(FRESH, [], []);
      case Some(draw) =>
        var f := Frame(Some(id), CMD_PADDING_CONTINUE, CAMOUFLAGE, true);
        LastConveys(f, Pad(true, false, None), [], [draw]);
        var w := WireOf(f, draw);
        PushWire(f, Plan(Pad(true, false, None), [], []), [], [draw]);
        assert [f] + [] == [f] && w + [] == w;
        NilLeft(PlanWire(Plan(Pad(true, false, None), [f], []), [draw]));
        NilLeft(w);
        NilLeft<byte>([]);
    }
  }

  lemma WriteInStep(r: Run, data: bytes, draws: seq<nat>)
    requires Sound(r)
    ensures InStep(Next(r, Write(data, draws)))
  {
    hide Unpadding, PlanWire;
    var t := Filtered(r.t, data);
    FilterKeepsInv(r.t, data);
    var plan := Padded(r.p, t, data);
    var w := PlanWire(plan, draws);
    UnpadSplit(FRESH, r.wire, w);
    NilLeft(w);
    if r.p.padding {
      PiecesPartition(data);
      PlanDecodes(r.p, t, Pieces(data), Complete(data), t.isTls, draws);
    } else {
      RawWire(r.p, data, draws);
      Settle(Peer(r.p), data, r.accepted);
    }
  }

  lemma RawWire(p: Pad, data: bytes, draws: seq<nat>)
    ensures PlanWire(Plan(p, [], data), draws) == data
  {
    NilLeft(data);
  }

  lemma NextSound(r: Run, e: Event)
    requires Sound(r)
    ensures Sound(Next(r, e))
  {
    hide Unpadding, PlanWire;
    match e {
      case Sniff(packet) =>
        FilterKeepsInv(r.t, packet);
      case Write(data, draws) =>
        FilterKeepsInv(r.t, data);
        WriteInStep(r, data, draws);
        if r.p.padding {
          PiecesPartition(data);
          PlanWellEnded(r.p, Filtered(r.t, data), Pieces(data), Complete(data), Filtered(r.t, data).isTls);
        }
    }
  }

  lemma {:induction false} RunSound(r: Run, events: seq<Event>)
    requires Sound(r)
    ensures Sound(After(r, events))
    decreases |events|
  {
    if events != [] {
      NextSound(r, events[0]);
      RunSound(Next(r, events[0]), events[1..]);
    }
  }

  /**
   * Round trip: whatever was written, sniffed and drawn, and however the wire bytes are cut up on the
   * way, the peer's deframer returns the concatenated writes, and its `done` and `direct` match.
   */
  lemma RoundTrip(id: Uuid, camouflage: Option<nat>, events: seq<Event>, r: Run, chunks: seq<bytes>)
    requires Reached(id, camouflage, events, r) && Concat(chunks) == r.wire
    ensures && DecodeAll(Decoder(true, FRESH, []), chunks) == Decoded(Decoder(true, Peer(r.p), []), r.accepted, Good)
            && r.accepted == Written(events)
  {
    hide WireOf;
    StartSound(id, camouflage);
    RunSound(Start(id, camouflage), events);
    var d := Decoder(true, FRESH, []);
    PastHeaderStuck();
    ChunkingIrrelevant(d, chunks);
    NilLeft(r.wire);
    AcceptedIsWritten(Start(id, camouflage), events);
    NilLeft(Written(events));
  }

  function Written(events: seq<Event>): bytes
    decreases |events|
  {
    if events == [] then []
    else (if events[0].Write? then events[0].data else []) + Written(events[1..])
  }

  lemma {:induction false} AcceptedIsWritten(r: Run, events: seq<Event>)
    ensures After(r, events).accepted == r.accepted + Written(events)
    decreases |events|
  {
    if events == [] {
    } else {
      AcceptedIsWritten(Next(r, events[0]), events[1..]);
      if events[0].Write? {
        Assoc(r.accepted, events[0].data, Written(events[1..]));
      } else {
        NilLeft(Written(events[1..]));
      }
    }
  }

  // ---------------------------------------------------------------------------
  // The terminal command
  // ---------------------------------------------------------------------------

  /** All frames of the run so far taken together are well ended. */
  ghost predicate RunEnded(id: Uuid, r: Run) {
    if r.frames == [] then r.p == Pad(true, false, Some(id)) else WellEnded(Some(id), r.frames, [], r.p)
  }

  lemma NextEnded(id: Uuid, r: Run, e: Event)
    requires Sound(r) && RunEnded(id, r)
    ensures RunEnded(id, Next(r, e))
    ensures !r.p.padding ==> Next(r, e).frames == r.frames && Next(r, e).p == r.p
  {
    if e.Write? && r.p.padding {
      hide WellEnded, InStep, Planned;
      var t := Filtered(r.t, e.data);
      FilterKeepsInv(r.t, e.data);
      PiecesPartition(e.data);
      PlanWellEnded(r.p, t, Pieces(e.data), Complete(e.data), t.isTls);
      var plan := Padded(r.p, t, e.data);
      AppendWellEnded(id, r, plan);
    }
  }

  /** Frames that keep padding on, followed by a well-ended plan, are well ended. */
  lemma AppendWellEnded(id: Uuid, r: Run, plan: Plan)
    requires RunEnded(id, r) && r.p.padding
    requires WellEnded(r.p.uuid, plan.frames, plan.tail, plan.p)
    ensures WellEnded(Some(id), r.frames + plan.frames, [], plan.p)
  {
    var all := r.frames + plan.frames;
    forall i | 0 <= i < |all|
      ensures all[i] == if i < |r.frames| then r.frames[i] else plan.frames[i - |r.frames|]
    {
    }
  }

  lemma {:induction false} EndedFrom(id: Uuid, r: Run, events: seq<Event>)
    requires Sound(r) && RunEnded(id, r)
    ensures RunEnded(id, After(r, events))
    ensures !r.p.padding ==> After(r, events).frames == r.frames && After(r, events).p == r.p
    decreases |events|
  {
    if events != [] {
      NextSound(r, events[0]);
      NextEnded(id, r, events[0]);
      EndedFrom(id, Next(r, events[0]), events[1..]);
    }
  }

  /**
   * Over a whole run: only the first frame carries the UUID; every frame but the last one continues
   * padding; padding is over exactly when the last frame ends it, with Direct exactly when `direct` is
   * set; and once padding is over no event adds a frame or changes the verdict.
   */
  lemma TerminalCommand(id: Uuid, camouflage: Option<nat>, events: seq<Event>, r: Run, more: seq<Event>)
    requires Reached(id, camouflage, events, r)
    ensures && RunEnded(id, r)
            && (!r.p.padding ==> After(r, more).frames == r.frames && After(r, more).p == r.p)
  {
    hide WireOf;
    StartSound(id, camouflage);
    RunSound(Start(id, camouflage), events);
    EndedFrom(id, Start(id, camouflage), events);
    EndedFrom(id, r, more);
  }

  // ---------------------------------------------------------------------------
  // How long padding lasts
  // ---------------------------------------------------------------------------

  lemma {:induction false} KeepsPadding(p: Pad, t: Traffic, pieces: seq<bytes>, complete: bool, longPadding: bool)
    requires p.padding && !(t.isTls && complete) && !GivesUp(t)
    ensures Planned(p, t, pieces, complete, longPadding).p.padding
    decreases |pieces|
  {
    if pieces != [] {
      KeepsPadding(p.(uuid := None), t, pieces[1..], complete, longPadding);
    }
  }

  /** The first payload of a blank connection never ends padding. */
  lemma FirstPayloadKeepsPadding(id: Uuid, camouflage: Option<nat>, data: bytes, draws: seq<nat>)
    ensures Next(Start(id, camouflage), Write(data, draws)).p.padding
  {
    hide WireOf;
    var r := Start(id, camouflage);
    var t := Filtered(r.t, data);
    assert |data| >= 6 ==> data[..2][0] == data[0] && data[..3][0] == data[0];
    KeepsPadding(r.p, t, Pieces(data), Complete(data), t.isTls);
  }

  /** A write on a nearly spent budget ends padding. */
  lemma GivingUpEndsPadding(p: Pad, t: Traffic, data: bytes)
    requires GivesUp(t)
    ensures !Padded(p, t, data).p.padding
  {
    if p.padding {
      EndsPadding(p, t, Pieces(data), Complete(data), t.isTls);
    }
  }

  lemma {:induction false} EndsPadding(p: Pad, t: Traffic, pieces: seq<bytes>, complete: bool, longPadding: bool)
    requires GivesUp(t) && (pieces == [] ==> !p.padding)
    ensures !Planned(p, t, pieces, complete, longPadding).p.padding
    decreases |pieces|
  {
    if pieces != [] && HandshakeOver(t, pieces[0], complete) {
      EndsPadding(Pad(false, t.enableXtls, None), t, pieces[1..], complete, false);
    }
  }

  ghost predicate Bounded(r: Run) {
    && SnifferInv(r.t) && r.writes <= r.packets
    && (!r.t.isTls12OrAbove ==> r.t.budget == Max(FILTER_PACKETS - r.packets, 0))
    && (r.p.padding && !r.t.isTls12OrAbove ==> r.writes <= 6)
  }

  lemma NextBounded(r: Run, e: Event)
    requires Bounded(r)
    ensures Bounded(Next(r, e))
  {
    hide Padded;
    match e {
      case Sniff(packet) =>
        FilterKeepsInv(r.t, packet);
      case Write(data, draws) =>
        FilterKeepsInv(r.t, data);
        if GivesUp(Filtered(r.t, data)) {
          GivingUpEndsPadding(r.p, Filtered(r.t, data), data);
        }
    }
  }

  /** While no ServerHello has been seen, padding survives at most six writes. */
  lemma {:induction false} PaddingIsBounded(r: Run, events: seq<Event>)
    requires Bounded(r)
    ensures Bounded(After(r, events))
    decreases |events|
  {
    if events != [] {
      NextBounded(r, events[0]);
      PaddingIsBounded(Next(r, events[0]), events[1..]);
    }
  }

  lemma AtMostSixPaddedWrites(id: Uuid, camouflage: Option<nat>, events: seq<Event>, r: Run)
    requires Reached(id, camouflage, events, r)
    ensures r.p.padding && !r.t.isTls12OrAbove ==> r.writes <= 6
  {
    hide WireOf;
    PaddingIsBounded(Start(id, camouflage), events);
  }
}
