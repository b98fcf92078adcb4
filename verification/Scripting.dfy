/** Replaying one random script, with at most one draw replaced (src/outbound/reality.rs). */
module Scripting {
  import opened Bytes
  import opened Keystream

  /** The draw number to replace and what to put there. */
  datatype Replace = Replace(at: nat, value: bytes)

  /**
   * The code run under a script, seen from the random source: given the draws so far, `ask` is the size of the next
   * one, or None when it is finished, and `emit` is then its records, or None when it failed. `limit` bounds the
   * number of draws: code that always terminates has such a bound, since each draw has finitely many values.
   */
  datatype Builder = Builder(limit: nat, ask: seq<bytes> -> Option<nat>, emit: seq<bytes> -> Option<bytes>) {
    function Wants(draws: seq<bytes>): Option<nat> {
      if |draws| < limit then ask(draws) else None
    }
  }

  datatype Played = Played(records: Option<bytes>, calls: seq<bytes>)

  /** Draw number `index` of `n` bytes, taken when `pos` keystream bytes are gone. */
  function Answer(hash: bytes -> Block, seed: Block, replace: Option<Replace>, pos: nat, index: nat, n: nat): (d: bytes)
    ensures |d| == n
  {
    if replace.Some? && replace.value.at == index && |replace.value.value| == n
    then replace.value.value
    else Slice(hash, seed, pos, n)
  }

  function Play(hash: bytes -> Block, seed: Block, replace: Option<Replace>, pos: nat, calls: seq<bytes>, b: Builder)
    : Played
    decreases b.limit - |calls|
  {
    match b.Wants(calls)
    case None => Played(b.emit(calls), calls)
    case Some(n) =>
      Play(hash, seed, replace, pos + n, calls + [Answer(hash, seed, replace, pos, |calls|, n)], b)
  }

  class Script {
    const stream: SeedStream
    const replace: Option<Replace>
    var calls: seq<bytes>

    constructor (hash: bytes -> Block, seed: Block, replace: Option<Replace>)
      ensures fresh(stream) && stream.Valid() && stream.pos == 0 && stream.hash == hash && stream.seed == seed
      ensures calls == [] && this.replace == replace
    {
      stream := new SeedStream(hash, seed);
      this.replace := replace;
      calls := [];
    }

    /** Keystream first, then the replacement: a replaced draw still consumes its keystream bytes. */
    method Fill(buf: array<byte>)
      requires stream.Valid()
      modifies this, stream, buf
      ensures stream.Valid() && stream.pos == old(stream.pos) + buf.Length
      ensures buf[..] == Answer(stream.hash, stream.seed, replace, old(stream.pos), |old(calls)|, buf.Length)
      ensures calls == old(calls) + [buf[..]]
    {
      stream.Fill(buf);
      var index := |calls|;
      if replace.Some? && replace.value.at == index && |replace.value.value| == buf.Length {
        forall k | 0 <= k < buf.Length {
          buf[k] := replace.value.value[k];
        }
      }
      calls := calls + [buf[..]];
    }
  }

  /** The thread-local slot behind the random source the TLS library is given. */
  class ScriptedRandom {
    var script: Script?

    constructor ()
      ensures script == null
    {
      script := null;
    }

    /** `system` is what the system's own random source would deliver. */
    method Fill(buf: array<byte>, system: bytes)
      requires |system| == buf.Length
      requires script != null ==> script.stream.Valid()
      modifies script, if script != null then {script.stream} else {}, buf
      ensures script == null ==> buf[..] == system
      ensures script != null ==>
                && script.stream.Valid()
                && script.stream.pos == old(script.stream.pos) + buf.Length
                && buf[..] == Answer(script.stream.hash, script.stream.seed, script.replace,
                                     old(script.stream.pos), |old(script.calls)|, buf.Length)
                && script.calls == old(script.calls) + [buf[..]]
    {
      if script != null {
        script.Fill(buf);
      } else {
        forall k | 0 <= k < buf.Length {
          buf[k] := system[k];
        }
      }
    }

    /** Runs `f` with a script in the slot; returns what it emitted and the log of its draws. */
    method WithScript(hash: bytes -> Block, seed: Block, replace: Option<Replace>, f: Builder)
      returns (records: Option<bytes>, calls: seq<bytes>)
      modifies this
      ensures script == null
      ensures Played(records, calls) == Play(hash, seed, replace, 0, [], f)
    {
      var active := new Script(hash, seed, replace);
      script := active;
      var wants := f.Wants([]);
      while wants.Some?
        invariant script == active && fresh(active) && fresh(active.stream) && active.stream.Valid()
        invariant active.stream.hash == hash && active.stream.seed == seed && active.replace == replace
        invariant wants == f.Wants(active.calls)
        invariant Play(hash, seed, replace, active.stream.pos, active.calls, f) == Play(hash, seed, replace, 0, [], f)
        modifies active, active.stream
        decreases f.limit - |active.calls|
      {
        var buf := new byte[wants.value];
        Fill(buf, Zeros(wants.value));
        wants := f.Wants(active.calls);
      }
      records, calls := f.emit(active.calls), active.calls;
      script := null;
    }
  }

  // ---------------------------------------------------------------------------
  // Runs seen from outside: which draw lists a builder accepts, and what it emits for them
  // ---------------------------------------------------------------------------

  /** `draws` answer the first requests of `b`. */
  ghost predicate Answers(b: Builder, draws: seq<bytes>) {
    forall k | 0 <= k < |draws| :: b.Wants(draws[..k]) == Some(|draws[k]|)
  }

  /** `draws` answer exactly the requests of `b`. */
  ghost predicate Accepts(b: Builder, draws: seq<bytes>) {
    Answers(b, draws) && b.Wants(draws) == None
  }

  /** `draws` are what the script answers from position `pos` and draw number `index` on. */
  predicate Scripted(hash: bytes -> Block, seed: Block, replace: Option<Replace>, pos: nat, index: nat, draws: seq<bytes>)
    decreases |draws|
  {
    draws == [] ||
    (&& draws[0] == Answer(hash, seed, replace, pos, index, |draws[0]|)
     && Scripted(hash, seed, replace, pos + |draws[0]|, index + 1, draws[1..]))
  }

  lemma AnswersOneMore(b: Builder, draws: seq<bytes>, d: bytes)
    requires Answers(b, draws) && b.Wants(draws) == Some(|d|)
    ensures Answers(b, draws + [d])
  {
    forall k | 0 <= k < |draws + [d]|
      ensures b.Wants((draws + [d])[..k]) == Some(|(draws + [d])[k]|)
    {
      DropShort(draws, [d], k);
      if k == |draws| {
        assert draws[..k] == draws;
      }
    }
  }

  /** A run logs exactly the draws it was given, and they are the script's. */
  lemma {:induction false} PlayLogs(hash: bytes -> Block, seed: Block, replace: Option<Replace>, pos: nat, calls: seq<bytes>,
                                    b: Builder) returns (draws: seq<bytes>)
    requires Answers(b, calls)
    ensures Scripted(hash, seed, replace, pos, |calls|, draws)
    ensures Accepts(b, calls + draws)
    ensures Play(hash, seed, replace, pos, calls, b) == Played(b.emit(calls + draws), calls + draws)
    decreases b.limit - |calls|
  {
    match b.Wants(calls)
    case None =>
      draws := [];
      assert calls + draws == calls;
    case Some(n) =>
      hide Slice, Answer, Answers, Builder.Wants;
      var d := Answer(hash, seed, replace, pos, |calls|, n);
      AnswersOneMore(b, calls, d);
      Bounded(b, calls);
      var later := PlayLogs(hash, seed, replace, pos + n, calls + [d], b);
      draws := [d] + later;
      assert draws[1..] == later;
      Assoc(calls, [d], later);
  }

  lemma Bounded(b: Builder, draws: seq<bytes>)
    requires b.Wants(draws).Some?
    ensures |draws| < b.limit
  {
  }

  lemma NextAnswer(b: Builder, calls: seq<bytes>, draws: seq<bytes>)
    requires draws != [] && Answers(b, calls + draws)
    ensures b.Wants(calls) == Some(|draws[0]|)
  {
    var k := |calls|;
    Cut(calls, draws);
    assert b.Wants((calls + draws)[..k]) == Some(|(calls + draws)[k]|);
  }

  /** Conversely the script's answers determine the run. */
  lemma {:induction false} PlayDetermined(hash: bytes -> Block, seed: Block, replace: Option<Replace>, pos: nat,
                                          calls: seq<bytes>, b: Builder, draws: seq<bytes>)
    requires Accepts(b, calls + draws) && Scripted(hash, seed, replace, pos, |calls|, draws)
    ensures Play(hash, seed, replace, pos, calls, b) == Played(b.emit(calls + draws), calls + draws)
    decreases |draws|
  {
    if draws == [] {
      assert calls + draws == calls;
    } else {
      hide Slice, Answer, Answers, Builder.Wants;
      NextAnswer(b, calls, draws);
      assert [draws[0]] + draws[1..] == draws;
      Assoc(calls, [draws[0]], draws[1..]);
      PlayDetermined(hash, seed, replace, pos + |draws[0]|, calls + [draws[0]], b, draws[1..]);
    }
  }

  /** Replacing one draw by another of its length leaves every other answer of the script alone. */
  lemma {:induction false} SwapOneDraw(hash: bytes -> Block, seed: Block, pos: nat, index: nat, draws: seq<bytes>, i: nat,
                                       value: bytes)
    requires Scripted(hash, seed, None, pos, index, draws)
    requires i < index + |draws|
    requires index <= i ==> |value| == |draws[i - index]|
    ensures Scripted(hash, seed, Some(Replace(i, value)), pos, index,
                     if i < index then draws else draws[i - index := value])
    decreases |draws|
  {
    if draws != [] {
      var swapped := if i < index then draws else draws[i - index := value];
      hide Slice;
      SwapOneDraw(hash, seed, pos + |draws[0]|, index + 1, draws[1..], i, value);
      assert swapped[1..] == if i < index + 1 then draws[1..] else draws[1..][i - (index + 1) := value];
    }
  }

  /**
   * The replay theorem. When the builder would take `value` in place of draw `i`, the second pass over the same seed
   * logs the first pass's draws with exactly that one exchanged, and emits what the builder makes of them.
   */
  lemma Replay(hash: bytes -> Block, seed: Block, b: Builder, i: nat, value: bytes)
    requires i < |Play(hash, seed, None, 0, [], b).calls|
    requires |value| == |Play(hash, seed, None, 0, [], b).calls[i]|
    requires Accepts(b, Play(hash, seed, None, 0, [], b).calls[i := value])
    ensures var first := Play(hash, seed, None, 0, [], b);
            Play(hash, seed, Some(Replace(i, value)), 0, [], b)
            == Played(b.emit(first.calls[i := value]), first.calls[i := value])
  {
    hide Slice, Answer, Accepts, Scripted, Play;
    assert Answers(b, []);
    var draws := PlayLogs(hash, seed, None, 0, [], b);
    NilLeft(draws);
    SwapOneDraw(hash, seed, 0, 0, draws, i, value);
    NilLeft(draws[i := value]);
    PlayDetermined(hash, seed, Some(Replace(i, value)), 0, [], b, draws[i := value]);
  }
}
