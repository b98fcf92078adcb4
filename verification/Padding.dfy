/** The uplink framer (src/outbound/vision.rs:241-319) and its agreement with the peer's deframer. */
module Padding {
  import opened Bytes
  import opened Framing
  import opened Sniffer
  import opened Reshaping

  datatype Pad = Pad(padding: bool, direct: bool, uuid: Option<Uuid>)

  /** One frame to be written; only the amount of padding is still open. */
  datatype Frame = Frame(uuid: Option<Uuid>, command: byte, content: bytes, longPadding: bool)

  /** What one call of `pad_into` writes: frames, then bytes outside any frame. */
  datatype Plan = Plan(p: Pad, frames: seq<Frame>, tail: bytes)

  function EndCommand(t: Traffic): byte {
    if t.enableXtls then CMD_PADDING_DIRECT else CMD_PADDING_END
  }

  /** A piece that ends the inner handshake. */
  predicate HandshakeOver(t: Traffic, piece: bytes, complete: bool) {
    t.isTls && |piece| >= 6 && piece[..3] == TLS_APPLICATION_DATA_START && complete
  }

  /** The sniffing budget is nearly spent and no TLS 1.2+ was seen. */
  predicate GivesUp(t: Traffic) {
    !t.isTls12OrAbove && t.budget <= 1
  }

  function Push(f: Frame, rest: Plan): Plan {
    rest.(frames := [f] + rest.frames)
  }

  function Planned(p: Pad, t: Traffic, pieces: seq<bytes>, complete: bool, longPadding: bool): (plan: Plan)
    decreases |pieces|
  {
    if pieces == [] then Plan(p, [], [])
    else
      var b, last, taken := pieces[0], |pieces| == 1, p.(uuid := None);
      if HandshakeOver(t, b, complete) then
        Push(Frame(p.uuid, if last then EndCommand(t) else CMD_PADDING_CONTINUE, b, true),
             Planned(taken.(padding := false, direct := t.enableXtls), t, pieces[1..], complete, false))
      else if GivesUp(t) then
        Plan(taken.(padding := false), [Frame(p.uuid, CMD_PADDING_END, b, longPadding)], Concat(pieces[1..]))
      else
        Push(Frame(p.uuid, if last && !p.padding then EndCommand(t) else CMD_PADDING_CONTINUE, b, longPadding),
             Planned(taken, t, pieces[1..], complete, longPadding))
  }

  /** `pad_into`, with `t` the sniffer's state after it has looked at `data`. */
  function Padded(p: Pad, t: Traffic, data: bytes): Plan {
    if !p.padding then Plan(p, [], data)
    else Planned(p, t, Pieces(data), Complete(data), t.isTls)
  }

  function Draw(draws: seq<nat>): nat {
    if draws == [] then 0 else draws[0]
  }

  function Later(draws: seq<nat>): seq<nat> {
    if draws == [] then [] else draws[1..]
  }

  function WireOf(f: Frame, draw: nat): bytes {
    FrameWire(f.uuid, f.command, f.content, PaddingLen(|f.content|, f.longPadding, draw))
  }

  function FramesWire(frames: seq<Frame>, draws: seq<nat>): bytes {
    if frames == [] then [] else WireOf(frames[0], Draw(draws)) + FramesWire(frames[1..], Later(draws))
  }

  /** Every frame has a draw of its own. */
  lemma DrawForEach(frames: seq<Frame>, draws: seq<nat>, f: Frame, draw: nat)
    ensures FramesWire([f] + frames, [draw] + draws) == WireOf(f, draw) + FramesWire(frames, draws)
  {
    hide WireOf;
    assert ([f] + frames)[1..] == frames && ([draw] + draws)[1..] == draws;
  }

  function PlanWire(plan: Plan, draws: seq<nat>): bytes {
    FramesWire(plan.frames, draws) + plan.tail
  }

  const CAMOUFLAGE: bytes := []

  class Padder {
    var padding: bool
    var direct: bool
    var uuid: Option<Uuid>

    constructor (id: Uuid)
      ensures State() == Pad(true, false, Some(id))
    {
      padding, direct, uuid := true, false, Some(id);
    }

    function State(): Pad
      reads this
    {
      Pad(padding, direct, uuid)
    }

    /** The empty first frame that hides the VLESS header when there is no first payload. */
    method Camouflage(draw: nat) returns (wire: bytes)
      modifies this
      ensures State() == old(State()).(uuid := None)
      ensures wire == WireOf(Frame(old(uuid), CMD_PADDING_CONTINUE, CAMOUFLAGE, true), draw)
    {
      hide FrameWire, PaddingLen;
      var id := uuid;
      uuid := None;
      wire := XtlsPaddingInto([], CAMOUFLAGE, CMD_PADDING_CONTINUE, id, true, draw);
      NilLeft(WireOf(Frame(id, CMD_PADDING_CONTINUE, CAMOUFLAGE, true), draw));
    }

    /** Frames one write, appending to `out`. */
    method PadInto(data: bytes, traffic: TrafficState, out: bytes, draws: seq<nat>) returns (grown: bytes)
      modifies this, traffic
      ensures traffic.State() == Filtered(old(traffic.State()), data)
      ensures var plan := Padded(old(State()), traffic.State(), data);
              State() == plan.p && grown == out + PlanWire(plan, draws)
    {
      traffic.Filter(data);
      if !padding {
        assert FramesWire([], draws) + data == data;
        return out + data;
      }
      var complete := IsCompleteRecord(data);
      var pieces := Reshape(data);
      grown := FramePieces(pieces, traffic, complete, out, draws);
    }

    /** The source's loop over the pieces. */
    method FramePieces(pieces: seq<bytes>, traffic: TrafficState, complete: bool, out: bytes, draws: seq<nat>)
      returns (grown: bytes)
      modifies this
      ensures var plan := Planned(old(State()), traffic.State(), pieces, complete, traffic.isTls);
              State() == plan.p && grown == out + PlanWire(plan, draws)
    {
      hide Planned, PlanWire, FramesWire, WireOf;
      ghost var t := traffic.State();
      var longPadding := traffic.isTls;
      ghost var goal := Planned(State(), t, pieces, complete, longPadding);
      var i, more := 0, draws;
      grown := out;
      while i < |pieces|
        invariant 0 <= i <= |pieces|
        invariant Planned(State(), t, pieces[i..], complete, longPadding).p == goal.p
        invariant grown + PlanWire(Planned(State(), t, pieces[i..], complete, longPadding), more)
               == out + PlanWire(goal, draws)
      {
        PlanStep(State(), t, pieces[i..], complete, longPadding, grown, more);
        assert pieces[i..][1..] == pieces[i + 1..];
        var over;
        grown, longPadding, over :=
          FramePiece(pieces[i], i == |pieces| - 1, traffic, complete, longPadding, grown, Draw(more));
        if over {
          grown := AppendAll(grown, pieces[i + 1..]);
          return;
        }
        more := Later(more);
        i := i + 1;
      }
      assert pieces[i..] == [];
      PlanNothing(State(), t, complete, longPadding, grown, more);
    }

    /** The body of that loop for one piece; `over` when the rest of the pieces must go out unframed. */
    method FramePiece(b: bytes, last: bool, traffic: TrafficState, complete: bool, longPadding: bool, out: bytes, draw: nat)
      returns (grown: bytes, stillLong: bool, over: bool)
      modifies this
      ensures var t, id := traffic.State(), old(uuid);
              if HandshakeOver(t, b, complete) then
                && State() == Pad(false, t.enableXtls, None) && !stillLong && !over
                && grown == out + WireOf(Frame(id, if last then EndCommand(t) else CMD_PADDING_CONTINUE, b, true), draw)
              else if GivesUp(t) then
                && State() == Pad(false, old(direct), None) && over
                && grown == out + WireOf(Frame(id, CMD_PADDING_END, b, longPadding), draw)
              else
                && State() == Pad(old(padding), old(direct), None) && stillLong == longPadding && !over
                && grown == out + WireOf(Frame(id, if last && !padding then EndCommand(t) else CMD_PADDING_CONTINUE,
                                               b, longPadding), draw)
    {
      hide FrameWire, PaddingLen;
      var id := uuid;
      uuid := None;
      stillLong, over := longPadding, false;
      if traffic.isTls && |b| >= 6 && b[..3] == TLS_APPLICATION_DATA_START && complete {
        padding := false;
        direct := traffic.enableXtls;
        var command := if last then EndCommand(traffic.State()) else CMD_PADDING_CONTINUE;
        grown := XtlsPaddingInto(out, b, command, id, true, draw);
        stillLong := false;
      } else if !traffic.isTls12OrAbove && traffic.filterBudget <= 1 {
        padding := false;
        grown := XtlsPaddingInto(out, b, CMD_PADDING_END, id, longPadding, draw);
        over := true;
      } else {
        var command := if last && !padding then EndCommand(traffic.State()) else CMD_PADDING_CONTINUE;
        grown := XtlsPaddingInto(out, b, command, id, longPadding, draw);
      }
    }

    method AppendAll(out: bytes, rest: seq<bytes>) returns (grown: bytes)
      ensures grown == out + Concat(rest)
    {
      grown := out;
      for j := 0 to |rest|
        invariant grown + Concat(rest[j..]) == out + Concat(rest)
      {
        Assoc(grown, rest[j], Concat(rest[j + 1..]));
        assert rest[j..][1..] == rest[j + 1..];
        grown := grown + rest[j];
      }
    }
  }

  lemma PlanNothing(p: Pad, t: Traffic, complete: bool, longPadding: bool, grown: bytes, draws: seq<nat>)
    ensures Planned(p, t, [], complete, longPadding).p == p
    ensures grown + PlanWire(Planned(p, t, [], complete, longPadding), draws) == grown
  {
    var nothing: bytes := [];
    assert nothing + nothing == nothing && grown + nothing == grown;
  }

  lemma PushWire(f: Frame, rest: Plan, grown: bytes, draws: seq<nat>)
    ensures grown + PlanWire(Push(f, rest), draws)
         == grown + WireOf(f, Draw(draws)) + PlanWire(rest, Later(draws))
  {
    var frames := Push(f, rest).frames;
    assert frames[1..] == rest.frames;
    Assoc(WireOf(f, Draw(draws)), FramesWire(rest.frames, Later(draws)), rest.tail);
    Assoc(grown, WireOf(f, Draw(draws)), PlanWire(rest, Later(draws)));
  }

  /** One round of the loop over the pieces. */
  lemma PlanStep(p: Pad, t: Traffic, pieces: seq<bytes>, complete: bool, longPadding: bool, grown: bytes,
                 draws: seq<nat>)
    requires pieces != []
    ensures var plan, b, last := Planned(p, t, pieces, complete, longPadding), pieces[0], |pieces| == 1;
            if HandshakeOver(t, b, complete) then
              var rest := Planned(Pad(false, t.enableXtls, None), t, pieces[1..], complete, false);
              var f := Frame(p.uuid, if last then EndCommand(t) else CMD_PADDING_CONTINUE, b, true);
              && plan.p == rest.p
              && grown + PlanWire(plan, draws) == grown + WireOf(f, Draw(draws)) + PlanWire(rest, Later(draws))
            else if GivesUp(t) then
              var f := Frame(p.uuid, CMD_PADDING_END, b, longPadding);
              && plan.p == Pad(false, p.direct, None)
              && grown + PlanWire(plan, draws) == grown + WireOf(f, Draw(draws)) + Concat(pieces[1..])
            else
              var rest := Planned(Pad(p.padding, p.direct, None), t, pieces[1..], complete, longPadding);
              var f := Frame(p.uuid, if last && !p.padding then EndCommand(t) else CMD_PADDING_CONTINUE, b,
                             longPadding);
              && plan.p == rest.p
              && grown + PlanWire(plan, draws) == grown + WireOf(f, Draw(draws)) + PlanWire(rest, Later(draws))
  {
    var b, last := pieces[0], |pieces| == 1;
    if HandshakeOver(t, b, complete) {
      PushWire(Frame(p.uuid, if last then EndCommand(t) else CMD_PADDING_CONTINUE, b, true),
               Planned(Pad(false, t.enableXtls, None), t, pieces[1..], complete, false), grown, draws);
    } else if GivesUp(t) {
      var f, rest := Frame(p.uuid, CMD_PADDING_END, b, longPadding), Plan(p, [], Concat(pieces[1..]));
      PushWire(f, rest, grown, draws);
      assert [] + rest.tail == rest.tail;
      assert [f] + [] == [f];
    } else {
      PushWire(Frame(p.uuid, if last && !p.padding then EndCommand(t) else CMD_PADDING_CONTINUE, b, longPadding),
               Planned(Pad(p.padding, p.direct, None), t, pieces[1..], complete, longPadding), grown, draws);
    }
  }
}
