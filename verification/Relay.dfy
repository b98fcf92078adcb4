/** The relay's shared idle clock, its watchdog and its two pumps (src/relay.rs). Times are in nanoseconds. */
module Relay {
  import opened Bytes

  const MILLI := 1_000_000

  datatype Timeouts = Timeouts(idle: nat, halfClose: nat)

  // ---------------------------------------------------------------------------
  // The shared activity record
  // ---------------------------------------------------------------------------

  /** `permit` is the notification that `notify_one` leaves until a waiter takes it. */
  datatype Act = Act(start: nat, lastMs: nat, halfClosed: bool, permit: bool)

  function Touched(a: Act, now: nat): Act
    requires a.start <= now
  {
    a.(lastMs := (now - a.start) / MILLI)
  }

  function HalfClosing(a: Act, now: nat): Act
    requires a.start <= now
  {
    Touched(a.(halfClosed := true), now).(permit := true)
  }

  function Limit(a: Act, t: Timeouts): nat {
    if a.halfClosed then t.halfClose else t.idle
  }

  function DeadlineOf(a: Act, t: Timeouts): nat {
    a.start + a.lastMs * MILLI + Limit(a, t)
  }

  class Activity {
    const start: nat
    var lastMs: nat
    var halfClosed: bool
    var permit: bool

    function State(): Act
      reads this
    {
      Act(start, lastMs, halfClosed, permit)
    }

    constructor (now: nat)
      ensures State() == Act(now, 0, false, false)
    {
      start := now;
      lastMs := 0;
      halfClosed := false;
      permit := false;
    }

    method Touch(now: nat)
      requires start <= now
      modifies this`lastMs
      ensures State() == Touched(old(State()), now)
    {
      lastMs := (now - start) / MILLI;
    }

    method HalfClose(now: nat)
      requires start <= now
      modifies this
      ensures State() == HalfClosing(old(State()), now)
    {
      halfClosed := true;
      Touch(now);
      permit := true;
    }

    method Deadline(t: Timeouts) returns (d: nat)
      ensures d == DeadlineOf(State(), t)
    {
      var limit := if halfClosed then t.halfClose else t.idle;
      d := start + lastMs * MILLI + limit;
    }
  }

  // ---------------------------------------------------------------------------
  // The watchdog
  // ---------------------------------------------------------------------------

  /** At the top of its loop, waiting for a time or a notification, or returned. */
  datatype Watch = Top | Asleep(until: nat) | Expired

  datatype Polled = Polled(act: Act, watch: Watch)

  function Measure(w: Watch, permit: bool, now: nat): nat {
    (match w
     case Top => 2
     case Asleep(until) => if until <= now then 1 else 0
     case Expired => 0) + (if permit then 1 else 0)
  }

  /** One round at the top of the loop. */
  function Rearm(a: Act, t: Timeouts, now: nat): Watch {
    if now >= DeadlineOf(a, t) then Expired else Asleep(DeadlineOf(a, t))
  }

  /**
   * One poll of the watchdog at time `now`. When the timer and a notification are both ready, `timerFirst` is the
   * arbitrary choice between them; the timer's branch leaves the notification where it is.
   */
  function Polling(a: Act, t: Timeouts, w: Watch, now: nat, timerFirst: bool): Polled
    decreases Measure(w, a.permit, now)
  {
    match w
    case Expired => Polled(a, w)
    case Top => Polling(a, t, Rearm(a, t, now), now, timerFirst)
    case Asleep(until) =>
      if until <= now && (timerFirst || !a.permit) then Polling(a, t, Rearm(a, t, now), now, timerFirst)
      else if a.permit then Polling(a.(permit := false), t, Rearm(a, t, now), now, timerFirst)
      else Polled(a, w)
  }

  class Watchdog {
    const activity: Activity
    const timeouts: Timeouts
    var watch: Watch

    constructor (activity: Activity, timeouts: Timeouts)
      ensures this.activity == activity && this.timeouts == timeouts && watch == Top
    {
      this.activity := activity;
      this.timeouts := timeouts;
      watch := Top;
    }

    method Poll(now: nat, timerFirst: bool)
      modifies this, activity`permit
      ensures Polled(activity.State(), watch)
           == Polling(old(activity.State()), timeouts, old(watch), now, timerFirst)
    {
      while watch != Expired
        invariant Polling(activity.State(), timeouts, watch, now, timerFirst)
               == Polling(old(activity.State()), timeouts, old(watch), now, timerFirst)
        decreases Measure(watch, activity.permit, now)
      {
        if watch.Asleep? {
          if watch.until <= now && (timerFirst || !activity.permit) {
            // the timer's branch
          } else if activity.permit {
            activity.permit := false;
          } else {
            return;
          }
        }
        var deadline := activity.Deadline(timeouts);
        if now >= deadline {
          watch := Expired;
        } else {
          watch := Asleep(deadline);
        }
      }
    }
  }

  predicate Woken(a: Act, w: Watch, now: nat) {
    w.Top? || (w.Asleep? && (w.until <= now || a.permit))
  }

  /** What a poll means, without its loop and without the arbitrary choice. */
  lemma {:induction false} PollMeaning(a: Act, t: Timeouts, w: Watch, now: nat, timerFirst: bool)
    ensures var r := Polling(a, t, w, now, timerFirst);
            && r.act.(permit := a.permit) == a
            && (!Woken(a, w, now) ==> r == Polled(a, w))
            && (Woken(a, w, now) && now >= DeadlineOf(a, t) ==> r.watch == Expired)
            && (Woken(a, w, now) && now < DeadlineOf(a, t) ==>
                  r == Polled(a.(permit := false), Asleep(DeadlineOf(a, t))))
    decreases Measure(w, a.permit, now)
  {
    match w
    case Expired =>
    case Top =>
      PollMeaning(a, t, Rearm(a, t, now), now, timerFirst);
    case Asleep(until) =>
      if until <= now && (timerFirst || !a.permit) {
        PollMeaning(a, t, Rearm(a, t, now), now, timerFirst);
      } else if a.permit {
        PollMeaning(a.(permit := false), t, Rearm(a, t, now), now, timerFirst);
      }
  }

  // ---------------------------------------------------------------------------
  // The pumps
  // ---------------------------------------------------------------------------

  datatype Phase = Reading | Sending(left: bytes) | Flushing | Closing | Done

  /**
   * `input` and `output` are everything read from one side and written to the other so far; `flushed` is how much of the
   * output the last completed flush covered.
   */
  datatype Pump = Pump(phase: Phase, input: bytes, output: bytes, flushed: nat)

  const NEW_PUMP := Pump(Reading, [], [], 0)

  /** Read until end of file, then shut the other side; each chunk is written out and flushed before the next read. */
  function ReadBy(p: Pump, chunk: bytes): Pump {
    if p.phase != Reading then p
    else if chunk == [] then p.(phase := Closing)
    else p.(phase := Sending(chunk), input := p.input + chunk)
  }

  function Noted(a: Act, now: nat, chunk: bytes): Act
    requires a.start <= now
  {
    if chunk == [] then HalfClosing(a, now) else Touched(a, now)
  }

  function WrittenBy(p: Pump, n: nat): Pump {
    if p.phase.Sending? && 0 < n <= |p.phase.left| then
      var left := p.phase.left[n..];
      p.(phase := if left == [] then Flushing else Sending(left), output := p.output + p.phase.left[..n])
    else p
  }

  function FlushedBy(p: Pump): Pump {
    if p.phase == Flushing then p.(phase := Reading, flushed := |p.output|) else p
  }

  function ShutBy(p: Pump): Pump {
    if p.phase == Closing then p.(phase := Done) else p
  }

  /** The pump's loop, one completed operation at a time. */
  class PumpTask {
    const activity: Activity
    var phase: Phase
    ghost var input: bytes
    ghost var output: bytes
    ghost var flushed: nat

    ghost function Value(): Pump
      reads this
    {
      Pump(phase, input, output, flushed)
    }

    constructor (activity: Activity)
      ensures Value() == NEW_PUMP && this.activity == activity
    {
      this.activity := activity;
      phase := Reading;
      input, output, flushed := [], [], 0;
    }

    method OnRead(now: nat, chunk: bytes)
      requires activity.start <= now && phase == Reading
      modifies this, activity
      ensures Value() == ReadBy(old(Value()), chunk)
      ensures activity.State() == Noted(old(activity.State()), now, chunk)
    {
      if chunk == [] {
        activity.HalfClose(now);
        phase := Closing;
        return;
      }
      activity.Touch(now);
      phase := Sending(chunk);
      input := input + chunk;
    }

    /** One write of `write_all` took `n` bytes; a write of none is an error there. */
    method OnWrote(n: nat)
      requires phase.Sending? && 0 < n <= |phase.left|
      modifies this
      ensures Value() == WrittenBy(old(Value()), n)
    {
      output := output + phase.left[..n];
      var left := phase.left[n..];
      phase := if left == [] then Flushing else Sending(left);
    }

    method OnFlushed()
      requires phase == Flushing
      modifies this
      ensures Value() == FlushedBy(old(Value()))
    {
      flushed := |output|;
      phase := Reading;
    }

    method OnShutDown()
      requires phase == Closing
      modifies this
      ensures Value() == ShutBy(old(Value()))
    {
      phase := Done;
    }
  }

  // ---------------------------------------------------------------------------
  // The whole relay as a machine
  // ---------------------------------------------------------------------------

  datatype Outcome = Running | Finished | IdleClosed | Failed

  /** `touched` is the time of the last touch, or the start. */
  datatype State = State(now: nat, act: Act, watch: Watch, up: Pump, down: Pump, outcome: Outcome, touched: nat)

  datatype Event =
    | Advance(ns: nat)
    | PollWatchdog(timerFirst: bool)
    | Read(upward: bool, chunk: bytes)
    | Wrote(upward: bool, n: nat)
    | Flushed(upward: bool)
    | ShutDown(upward: bool)
    | Broken

  function Begin(now: nat): State {
    State(now, Act(now, 0, false, false), Top, NEW_PUMP, NEW_PUMP, Running, now)
  }

  function PumpOf(s: State, upward: bool): Pump {
    if upward then s.up else s.down
  }

  function SetPump(s: State, upward: bool, p: Pump): State {
    if upward then s.(up := p) else s.(down := p)
  }

  function Reads(s: State, upward: bool, chunk: bytes): State
    requires s.act.start <= s.now
  {
    var p := PumpOf(s, upward);
    if p.phase != Reading then s
    else SetPump(s, upward, ReadBy(p, chunk)).(act := Noted(s.act, s.now, chunk), touched := s.now)
  }

  function Writes(s: State, upward: bool, n: nat): State {
    SetPump(s, upward, WrittenBy(PumpOf(s, upward), n))
  }

  function Flushes(s: State, upward: bool): State {
    SetPump(s, upward, FlushedBy(PumpOf(s, upward)))
  }

  /** The relay is over when both pumps are. */
  function Shuts(s: State, upward: bool): State {
    var next := SetPump(s, upward, ShutBy(PumpOf(s, upward)));
    if next.up.phase == Done && next.down.phase == Done then next.(outcome := Finished) else next
  }

  function Watches(s: State, t: Timeouts, timerFirst: bool): State {
    var r := Polling(s.act, t, s.watch, s.now, timerFirst);
    s.(act := r.act, watch := r.watch, outcome := if r.watch == Expired then IdleClosed else s.outcome)
  }

  function Step(s: State, t: Timeouts, e: Event): State
    requires s.act.start <= s.now
  {
    if s.outcome != Running then s
    else
      match e
      case Advance(ns) => s.(now := s.now + ns)
      case PollWatchdog(timerFirst) => Watches(s, t, timerFirst)
      case Read(upward, chunk) => Reads(s, upward, chunk)
      case Wrote(upward, n) => Writes(s, upward, n)
      case Flushed(upward) => Flushes(s, upward)
      case ShutDown(upward) => Shuts(s, upward)
      case Broken => s.(outcome := Failed)
  }

  // ---------------------------------------------------------------------------
  // Invariants of every run
  // ---------------------------------------------------------------------------

  predicate Clock(s: State) {
    && s.act.start <= s.touched <= s.now
    && s.act.lastMs == (s.touched - s.act.start) / MILLI
  }

  /** No lost wake-up: the watchdog sleeps no longer than the current deadline, or is about to be woken. */
  predicate Armed(s: State, t: Timeouts) {
    s.watch.Asleep? ==> s.watch.until <= DeadlineOf(s.act, t) || s.act.permit
  }

  /** The watchdog returned only at or after the deadline, and the relay closed with it. */
  predicate Timely(s: State, t: Timeouts) {
    s.watch == Expired <==> s.outcome == IdleClosed && DeadlineOf(s.act, t) <= s.now
  }

  function Pending(p: Pump): bytes {
    if p.phase.Sending? then p.phase.left else []
  }

  predicate Conserves(p: Pump) {
    && p.input == p.output + Pending(p)
    && (p.phase.Sending? ==> p.phase.left != [])
  }

  /** Everything written has been flushed whenever the pump waits for input or is past its end. */
  predicate FlushedBeforeReading(p: Pump) {
    p.phase == Reading || p.phase == Closing || p.phase == Done ==> p.flushed == |p.output|
  }

  predicate SawEof(p: Pump) {
    p.phase == Closing || p.phase == Done
  }

  predicate Moving(s: State) {
    && Conserves(s.up) && Conserves(s.down)
    && FlushedBeforeReading(s.up) && FlushedBeforeReading(s.down)
    && (s.act.halfClosed <==> SawEof(s.up) || SawEof(s.down))
    && (s.outcome == Finished <==> s.up.phase == Done && s.down.phase == Done)
  }

  predicate Inv(s: State, t: Timeouts) {
    Clock(s) && Armed(s, t) && Timely(s, t) && (s.outcome == IdleClosed ==> s.watch == Expired) && Moving(s)
  }

  lemma InvBegin(now: nat, t: Timeouts)
    ensures Inv(Begin(now), t)
  {
  }

  lemma TouchRaises(s: State, t: Timeouts)
    requires Clock(s)
    ensures DeadlineOf(s.act, t) <= DeadlineOf(Touched(s.act, s.now), t)
  {
    Monotone(s.touched - s.act.start, s.now - s.act.start);
  }

  lemma Monotone(a: nat, b: nat)
    requires a <= b
    ensures a / MILLI <= b / MILLI
  {
  }

  lemma PumpConserves(p: Pump, n: nat)
    requires Conserves(p) && p.phase.Sending? && n <= |p.phase.left|
    ensures (p.output + p.phase.left[..n]) + p.phase.left[n..] == p.input
  {
    assert p.phase.left[..n] + p.phase.left[n..] == p.phase.left;
    Assoc(p.output, p.phase.left[..n], p.phase.left[n..]);
  }

  lemma InvReads(s: State, t: Timeouts, upward: bool, chunk: bytes)
    requires Inv(s, t) && s.outcome == Running
    ensures Inv(Reads(s, upward, chunk), t)
  {
    TouchRaises(s, t);
    hide DeadlineOf;
  }

  lemma InvWatches(s: State, t: Timeouts, timerFirst: bool)
    requires Inv(s, t) && s.outcome == Running
    ensures Inv(Watches(s, t, timerFirst), t)
  {
    PollMeaning(s.act, t, s.watch, s.now, timerFirst);
    hide Polling;
  }

  lemma InvStep(s: State, t: Timeouts, e: Event)
    requires Inv(s, t)
    ensures Inv(Step(s, t, e), t)
  {
    if s.outcome == Running {
      match e
      case Read(upward, chunk) => InvReads(s, t, upward, chunk);
      case PollWatchdog(timerFirst) => InvWatches(s, t, timerFirst);
      case Wrote(upward, n) =>
        var p := PumpOf(s, upward);
        if p.phase.Sending? && n <= |p.phase.left| {
          PumpConserves(p, n);
        }
      case _ =>
    }
  }

  /** Every state along a run of events. */
  function Run(s: State, t: Timeouts, events: seq<Event>): (r: State)
    requires Inv(s, t)
    ensures Inv(r, t)
    decreases |events|
  {
    if events == [] then s
    else
      InvStep(s, t, events[0]);
      Run(Step(s, t, events[0]), t, events[1..])
  }

  /** The run from a fresh relay. */
  function Live(start: nat, t: Timeouts, events: seq<Event>): (s: State)
    ensures Inv(s, t)
  {
    InvBegin(start, t);
    Run(Begin(start), t, events)
  }

  // ---------------------------------------------------------------------------
  // Safety and liveness of the watchdog
  // ---------------------------------------------------------------------------

  /**
   * The idle close comes no earlier than the deadline in force, hence more than the limit less one millisecond after
   * the last touch, on every run.
   */
  lemma NeverEarly(start: nat, t: Timeouts, events: seq<Event>)
    ensures var s := Live(start, t, events);
            s.outcome == IdleClosed ==>
              DeadlineOf(s.act, t) <= s.now && s.touched + Limit(s.act, t) < s.now + MILLI
  {
    hide Run;
    var s := Live(start, t, events);
    Truncated(s.touched - s.act.start);
  }

  lemma Truncated(n: nat)
    ensures n / MILLI * MILLI <= n < n / MILLI * MILLI + MILLI
  {
  }

  /**
   * The millisecond clock can close before a full limit without data has passed. A close at the deadline itself waits
   * for the whole limit exactly when the last touch fell on a whole millisecond since the start.
   */
  lemma FullLimitIff(s: State, t: Timeouts)
    requires Inv(s, t) && s.now == DeadlineOf(s.act, t)
    ensures s.touched + Limit(s.act, t) <= s.now <==> (s.touched - s.act.start) % MILLI == 0
  {
    var n := s.touched - s.act.start;
    assert n == n / MILLI * MILLI + n % MILLI;
  }

  lemma RunCons(s: State, t: Timeouts, e: Event, rest: seq<Event>)
    requires Inv(s, t)
    ensures Inv(Step(s, t, e), t) && Run(s, t, [e] + rest) == Run(Step(s, t, e), t, rest)
  {
    InvStep(s, t, e);
    assert ([e] + rest)[1..] == rest;
  }

  /** For every limit and every fraction of a millisecond there is a run that closes that much too early. */
  lemma EarlyByAFraction(start: nat, t: Timeouts, fraction: nat, chunk: bytes)
    requires fraction < MILLI <= t.idle && chunk != []
    ensures var last := [Advance(t.idle - fraction)] + [PollWatchdog(true)];
            var s := Live(start, t, [Advance(fraction)] + ([Read(true, chunk)] + last));
            s.outcome == IdleClosed && s.now == s.touched + Limit(s.act, t) - fraction
  {
    hide Run, Inv;
    InvBegin(start, t);
    var s0 := Begin(start);
    var last := [Advance(t.idle - fraction)] + [PollWatchdog(true)];
    RunCons(s0, t, Advance(fraction), [Read(true, chunk)] + last);
    var s1 := Step(s0, t, Advance(fraction));
    RunCons(s1, t, Read(true, chunk), last);
    var s2 := Step(s1, t, Read(true, chunk));
    RunCons(s2, t, Advance(t.idle - fraction), [PollWatchdog(true)]);
    var s3 := Step(s2, t, Advance(t.idle - fraction));
    NilRight(PollWatchdog(true));
    RunCons(s3, t, PollWatchdog(true), []);
    RunNil(Step(s3, t, PollWatchdog(true)), t);
    assert s3.now == DeadlineOf(s3.act, t);
    PollMeaning(s3.act, t, s3.watch, s3.now, true);
    assert Run(s0, t, [Advance(fraction)] + ([Read(true, chunk)] + last)) == Step(s3, t, PollWatchdog(true));
  }

  lemma NilRight(e: Event)
    ensures [e] + [] == [e]
  {
  }

  lemma RunNil(s: State, t: Timeouts)
    requires Inv(s, t)
    ensures Run(s, t, []) == s
  {
  }

  /** A poll closes the relay exactly when the deadline has come, provided the watchdog is due to run. */
  lemma PollClosesIff(s: State, t: Timeouts, timerFirst: bool)
    requires Inv(s, t) && s.outcome == Running
    ensures Step(s, t, PollWatchdog(timerFirst)).outcome == IdleClosed <==> DeadlineOf(s.act, t) <= s.now
  {
    hide Polling;
    PollMeaning(s.act, t, s.watch, s.now, timerFirst);
  }

  /**
   * No lost wake-up: in every state of every run, a sleeping watchdog whose deadline has come is ready to run, even
   * when the limit shrank after it fell asleep.
   */
  lemma NoLostWakeup(start: nat, t: Timeouts, events: seq<Event>)
    ensures var s := Live(start, t, events);
            s.outcome == Running && DeadlineOf(s.act, t) <= s.now ==> Woken(s.act, s.watch, s.now)
  {
    hide Run;
  }

  /**
   * On every run each pump has written a prefix of what it read; whenever it waits for more input, or is past its end of
   * file, everything it read has been written and flushed; and a relay that finished has carried everything both ways.
   */
  lemma PumpsCarryEverything(start: nat, t: Timeouts, events: seq<Event>, upward: bool)
    ensures var s := Live(start, t, events);
            var p := PumpOf(s, upward);
            && p.output <= p.input
            && (p.phase == Reading || SawEof(p) || s.outcome == Finished ==> p.output == p.input && p.flushed == |p.input|)
            && (SawEof(p) ==> Limit(s.act, t) == t.halfClose)
  {
    hide Run;
  }

  /**
   * A pump takes new input only when what it read before has been written and flushed: on every run, a read that is
   * taken finds everything flushed.
   */
  lemma ReadsAfterFlush(start: nat, t: Timeouts, events: seq<Event>, upward: bool, chunk: bytes)
    ensures var s := Live(start, t, events);
            var p, q := PumpOf(s, upward), PumpOf(Step(s, t, Read(upward, chunk)), upward);
            q != p ==> p.flushed == |p.input| && q.input == p.input + chunk
  {
    hide Run;
    var p := PumpOf(Live(start, t, events), upward);
    assert p.input + [] == p.input;
  }

  // ---------------------------------------------------------------------------
  // Progress of a pump
  // ---------------------------------------------------------------------------

  /** One write after the other, of the given sizes. */
  function Writings(upward: bool, sizes: seq<nat>): seq<Event> {
    if sizes == [] then [] else [Wrote(upward, sizes[0])] + Writings(upward, sizes[1..])
  }

  /** The sizes by which writes of at least one byte take `n` bytes in all. */
  predicate AddUpTo(sizes: seq<nat>, n: nat) {
    if sizes == [] then n == 0 else 0 < sizes[0] <= n && AddUpTo(sizes[1..], n - sizes[0])
  }

  lemma {:induction false} RunAppend(s: State, t: Timeouts, a: seq<Event>, b: seq<Event>)
    requires Inv(s, t)
    ensures Run(s, t, a + b) == Run(Run(s, t, a), t, b)
    decreases |a|
  {
    if a == [] {
      assert a + b == b;
    } else {
      InvStep(s, t, a[0]);
      DropShort(a, b, 1);
      RunAppend(Step(s, t, a[0]), t, a[1..], b);
    }
  }

  lemma RunOne(s: State, t: Timeouts, e: Event)
    requires Inv(s, t)
    ensures Run(s, t, [e]) == Step(s, t, e)
  {
    NilRight(e);
    RunCons(s, t, e, []);
    RunNil(Step(s, t, e), t);
  }

  lemma {:induction false} WritesSend(s: State, t: Timeouts, upward: bool, sizes: seq<nat>)
    requires Inv(s, t) && s.outcome == Running
    requires var p := PumpOf(s, upward); p.phase.Sending? && AddUpTo(sizes, |p.phase.left|)
    ensures var p := PumpOf(s, upward);
            Run(s, t, Writings(upward, sizes)) == SetPump(s, upward, Pump(Flushing, p.input, p.input, p.flushed))
    decreases |sizes|
  {
    var p := PumpOf(s, upward);
    var e := Wrote(upward, sizes[0]);
    RunCons(s, t, e, Writings(upward, sizes[1..]));
    PumpConserves(p, sizes[0]);
    var left := p.phase.left[sizes[0]..];
    if left == [] {
      assert sizes[1..] == [];
      RunNil(Step(s, t, e), t);
      assert PumpOf(Step(s, t, e), upward).output + [] == p.input;
    } else {
      WritesSend(Step(s, t, e), t, upward, sizes[1..]);
    }
  }

  /**
   * A chunk read is carried: once it has been written, in writes of any sizes, and flushed, the pump is ready for the next
   * one with all of it on the other side, and neither the other pump nor the relay has been disturbed.
   */
  lemma ChunkIsCarried(s: State, t: Timeouts, upward: bool, chunk: bytes, sizes: seq<nat>)
    requires Inv(s, t) && s.outcome == Running && PumpOf(s, upward).phase == Reading
    requires chunk != [] && AddUpTo(sizes, |chunk|)
    ensures var p, r := PumpOf(s, upward), Run(s, t, [Read(upward, chunk)] + (Writings(upward, sizes) + [Flushed(upward)]));
            && PumpOf(r, upward) == Pump(Reading, p.input + chunk, p.output + chunk, |p.output + chunk|)
            && PumpOf(r, !upward) == PumpOf(s, !upward) && r.outcome == Running
  {
    hide Run, Inv;
    RunCons(s, t, Read(upward, chunk), Writings(upward, sizes) + [Flushed(upward)]);
    var a := Step(s, t, Read(upward, chunk));
    RunAppend(a, t, Writings(upward, sizes), [Flushed(upward)]);
    WritesSend(a, t, upward, sizes);
    RunOne(Run(a, t, Writings(upward, sizes)), t, Flushed(upward));
    AllOut(s, t, upward);
  }

  lemma AllOut(s: State, t: Timeouts, upward: bool)
    requires Inv(s, t) && PumpOf(s, upward).phase == Reading
    ensures PumpOf(s, upward).output == PumpOf(s, upward).input
  {
    assert PumpOf(s, upward).output + [] == PumpOf(s, upward).output;
  }

  /** The end of file is passed on: the other side's write half is shut, and the relay finishes with the second pump. */
  lemma EndIsPassedOn(s: State, t: Timeouts, upward: bool)
    requires Inv(s, t) && s.outcome == Running && PumpOf(s, upward).phase == Reading
    ensures var p, r := PumpOf(s, upward), Run(s, t, [Read(upward, [])] + [ShutDown(upward)]);
            && PumpOf(r, upward) == p.(phase := Done) && PumpOf(r, !upward) == PumpOf(s, !upward)
            && r.act.halfClosed
            && r.outcome == if PumpOf(s, !upward).phase == Done then Finished else Running
  {
    RunCons(s, t, Read(upward, []), [ShutDown(upward)]);
    RunOne(Step(s, t, Read(upward, [])), t, ShutDown(upward));
  }
}
