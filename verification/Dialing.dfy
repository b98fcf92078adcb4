/** Happy Eyeballs connection attempts, RFC 8305 section 5, the DNS cache and dial retries (src/net.rs). */
module Dialing {
  import opened Bytes
  import opened Interleaving

  /** How one connection attempt ended: connected, refused, or its task failed. */
  datatype Answer = Connected(conn: nat) | Refused(error: nat) | Panicked(error: nat)

  datatype DialError = NotFound | Io(error: nat) | Other(error: nat) | NoAddress | ConnectTimeout | NoAttempt

  datatype Result<+T> = Ok(value: T) | Err(error: DialError)

  /**
   * What the runtime does at one wait: while addresses are pending the stagger delay may elapse first; otherwise some
   * running attempt completes.
   */
  datatype Choice = Choice(delayFirst: bool, pick: nat, answer: Answer)

  datatype Completion = Completion(addr: SockAddr, answer: Answer)

  /** Addresses not started, attempts running, and the attempts completed so far in order. */
  datatype Race = Race(pending: seq<SockAddr>, attempts: seq<SockAddr>, log: seq<Completion>)

  datatype Raced = Raced(result: Result<nat>, finish: Race)

  function ErrorOf(a: Answer): DialError
    requires !a.Connected?
  {
    match a
    case Refused(e) => Io(e)
    case Panicked(e) => Other(e)
  }

  function LastError(log: seq<Completion>): DialError {
    if log == [] || log[|log| - 1].answer.Connected? then NotFound else ErrorOf(log[|log| - 1].answer)
  }

  function RemoveAt<T>(s: seq<T>, i: nat): (r: seq<T>)
    requires i < |s|
    ensures |r| == |s| - 1
  {
    s[..i] + s[i + 1..]
  }

  function StartNext(r: Race): Race {
    if r.pending == [] then r
    else Race(r.pending[1..], r.attempts + [r.pending[0]], r.log)
  }

  function Complete(r: Race, c: Choice): Race
    requires r.attempts != []
  {
    var i := c.pick % |r.attempts|;
    Race(r.pending, RemoveAt(r.attempts, i), r.log + [Completion(r.attempts[i], c.answer)])
  }

  function Racing(r: Race, choices: nat -> Choice, k: nat): Raced
    decreases 2 * |r.pending| + |r.attempts|
  {
    var s := StartNext(r);
    if s.attempts == [] then Raced(Err(LastError(s.log)), s)
    else if s.pending != [] && choices(k).delayFirst then Racing(s, choices, k + 1)
    else
      var next := Complete(s, choices(k));
      if choices(k).answer.Connected? then Raced(Ok(choices(k).answer.conn), next)
      else Racing(next, choices, k + 1)
  }

  /** The attempts race; `log` records every completion. */
  method ConnectAny(addrs: seq<SockAddr>, choices: nat -> Choice) returns (r: Result<nat>, log: seq<Completion>)
    ensures var raced := Racing(Race(addrs, [], []), choices, 0);
            r == raced.result && log == raced.finish.log
  {
    var pending, attempts := addrs, [];
    var last := NotFound;
    log := [];
    var k := 0;
    while true
      invariant last == LastError(log)
      invariant Racing(Race(pending, attempts, log), choices, k) == Racing(Race(addrs, [], []), choices, 0)
      decreases 2 * |pending| + |attempts|
    {
      if pending != [] {
        attempts := attempts + [pending[0]];
        pending := pending[1..];
      }
      if attempts == [] {
        return Err(last), log;
      }
      var c := choices(k);
      k := k + 1;
      if pending != [] && c.delayFirst {
        continue;
      }
      var i := c.pick % |attempts|;
      log := log + [Completion(attempts[i], c.answer)];
      attempts := RemoveAt(attempts, i);
      match c.answer
      case Connected(conn) => return Ok(conn), log;
      case Refused(e) => last := Io(e);
      case Panicked(e) => last := Other(e);
    }
  }

  // ---------------------------------------------------------------------------
  // What a race means
  // ---------------------------------------------------------------------------

  function Addresses(log: seq<Completion>): (r: seq<SockAddr>)
    ensures |r| == |log|
  {
    seq(|log|, k requires 0 <= k < |log| => log[k].addr)
  }

  predicate AllFailed(log: seq<Completion>) {
    forall c | c in log :: !c.answer.Connected?
  }

  /** The addresses started so far. */
  function Started(addrs: seq<SockAddr>, r: Race): seq<SockAddr>
    requires |r.pending| <= |addrs|
  {
    addrs[..|addrs| - |r.pending|]
  }

  /** Every started address is either running or has completed, and none has been skipped or started twice. */
  ghost predicate Accounts(addrs: seq<SockAddr>, r: Race) {
    && |r.pending| <= |addrs|
    && Started(addrs, r) + r.pending == addrs
    && multiset(Started(addrs, r)) == multiset(r.attempts) + multiset(Addresses(r.log))
  }

  lemma StartAccounts(addrs: seq<SockAddr>, r: Race)
    requires Accounts(addrs, r)
    ensures Accounts(addrs, StartNext(r))
  {
    if r.pending != [] {
      var n := |addrs| - |r.pending|;
      assert addrs[n..] == r.pending;
      assert addrs[..n + 1] == addrs[..n] + [r.pending[0]];
    }
  }

  lemma RemoveAtCounts<T>(s: seq<T>, i: nat)
    requires i < |s|
    ensures multiset(s) == multiset(RemoveAt(s, i)) + multiset{s[i]}
  {
    assert s == s[..i] + [s[i]] + s[i + 1..];
  }

  lemma AddressesNext(log: seq<Completion>, c: Completion)
    ensures Addresses(log + [c]) == Addresses(log) + [c.addr]
  {
  }

  lemma CompleteAccounts(addrs: seq<SockAddr>, r: Race, c: Choice)
    requires Accounts(addrs, r) && r.attempts != []
    ensures Accounts(addrs, Complete(r, c))
  {
    var i := c.pick % |r.attempts|;
    RemoveAtCounts(r.attempts, i);
    AddressesNext(r.log, Completion(r.attempts[i], c.answer));
    hide RemoveAt, Addresses;
  }

  /** What the end of a race must look like. */
  ghost predicate Decided(addrs: seq<SockAddr>, o: Raced) {
    && Accounts(addrs, o.finish)
    && (o.result.Err? ==>
          && o.finish.pending == [] && o.finish.attempts == []
          && AllFailed(o.finish.log)
          && o.result.error == LastError(o.finish.log))
    && (o.result.Ok? ==>
          && o.finish.log != []
          && AllFailed(o.finish.log[..|o.finish.log| - 1])
          && o.finish.log[|o.finish.log| - 1].answer == Connected(o.result.value))
  }

  lemma {:induction false} RaceDecided(addrs: seq<SockAddr>, r: Race, choices: nat -> Choice, k: nat)
    requires Accounts(addrs, r) && AllFailed(r.log)
    ensures Decided(addrs, Racing(r, choices, k))
    decreases 2 * |r.pending| + |r.attempts|
  {
    var s := StartNext(r);
    StartAccounts(addrs, r);
    if s.attempts != [] {
      if s.pending != [] && choices(k).delayFirst {
        RaceDecided(addrs, s, choices, k + 1);
      } else {
        var next := Complete(s, choices(k));
        CompleteAccounts(addrs, s, choices(k));
        assert next.log[..|next.log| - 1] == s.log;
        if !choices(k).answer.Connected? {
          RaceDecided(addrs, next, choices, k + 1);
        }
      }
    }
  }

  /**
   * Completeness of the race over every schedule: a prefix of the list is started, each once; an error means that all
   * were started and all failed, and is the last failure, or NotFound exactly for the empty list; a connection is the
   * first success.
   */
  lemma RaceIsComplete(addrs: seq<SockAddr>, choices: nat -> Choice)
    ensures var o := Racing(Race(addrs, [], []), choices, 0);
            && Decided(addrs, o)
            && Started(addrs, o.finish) <= addrs
            && (o.result.Err? <==> AllFailed(o.finish.log))
            && (o.result.Err? ==> multiset(Addresses(o.finish.log)) == multiset(addrs))
            && (o.result == Err(NotFound) <==> addrs == [])
            && (o.result.Err? && addrs != [] ==>
                  && o.finish.log != []
                  && var last := o.finish.log[|o.finish.log| - 1].answer;
                     || (last.Refused? && o.result.error == Io(last.error))
                     || (last.Panicked? && o.result.error == Other(last.error)))
  {
    hide Racing;
    var o := Racing(Race(addrs, [], []), choices, 0);
    assert Addresses([]) == [];
    RaceDecided(addrs, Race(addrs, [], []), choices, 0);
    if o.result.Err? {
      assert Started(addrs, o.finish) == addrs;
      if addrs == [] {
        assert |multiset(Addresses(o.finish.log))| == 0;
      } else {
        assert |multiset(Addresses(o.finish.log))| == |addrs|;
      }
    } else {
      assert o.finish.log[|o.finish.log| - 1] in o.finish.log;
    }
  }

  /** After `i` turns of waiting the first `i` addresses are running and the others are still to come. */
  function Waiting(addrs: seq<SockAddr>, i: nat): Race
    requires i <= |addrs|
  {
    Race(addrs[i..], addrs[..i], [])
  }

  lemma {:induction false} StaggeredFrom(addrs: seq<SockAddr>, choices: nat -> Choice, i: nat, n: nat)
    requires i <= n < |addrs|
    requires forall k | i <= k < n :: choices(k).delayFirst
    requires (n + 1 < |addrs| ==> !choices(n).delayFirst) && choices(n).answer.Connected?
    ensures var o := Racing(Waiting(addrs, i), choices, i);
            && o.result == Ok(choices(n).answer.conn) && o.finish.pending == addrs[n + 1..]
            && o.finish.log == [Completion(addrs[choices(n).pick % (n + 1)], choices(n).answer)]
    decreases n - i
  {
    var s := StartNext(Waiting(addrs, i));
    assert addrs[..i] + [addrs[i]] == addrs[..i + 1] && addrs[i..][1..] == addrs[i + 1..];
    assert s == Waiting(addrs, i + 1);
    if i < n {
      assert choices(i).delayFirst;
      StaggeredFrom(addrs, choices, i + 1, n);
    } else {
      assert [] + [Completion(addrs[choices(n).pick % (n + 1)], choices(n).answer)]
          == [Completion(addrs[choices(n).pick % (n + 1)], choices(n).answer)];
    }
  }

  /**
   * RFC 8305 section 5, staggered starts: when the delay elapses `n` times before anything completes, the first n + 1
   * addresses are running side by side, any of them may win, and no other has been started.
   */
  lemma StaggeredStarts(addrs: seq<SockAddr>, choices: nat -> Choice, n: nat)
    requires n < |addrs| && (forall k | 0 <= k < n :: choices(k).delayFirst)
    requires (n + 1 < |addrs| ==> !choices(n).delayFirst) && choices(n).answer.Connected?
    ensures var o := Racing(Race(addrs, [], []), choices, 0);
            && o.result == Ok(choices(n).answer.conn) && o.finish.pending == addrs[n + 1..]
            && o.finish.log == [Completion(addrs[choices(n).pick % (n + 1)], choices(n).answer)]
  {
    assert addrs[0..] == addrs && addrs[..0] == [];
    StaggeredFrom(addrs, choices, 0, n);
  }

  lemma {:induction false} RefusedFrom(addrs: seq<SockAddr>, choices: nat -> Choice, i: nat, n: nat, log: seq<Completion>)
    requires i <= n < |addrs| && Addresses(log) == addrs[..i] && AllFailed(log)
    requires forall k | i <= k <= n :: !choices(k).delayFirst
    requires forall k | i <= k < n :: !choices(k).answer.Connected?
    requires choices(n).answer.Connected?
    ensures var o := Racing(Race(addrs[i..], [], log), choices, i);
            && o.result == Ok(choices(n).answer.conn) && Addresses(o.finish.log) == addrs[..n + 1]
            && o.finish.pending == addrs[n + 1..]
    decreases n - i
  {
    hide Addresses;
    var r := Race(addrs[i..], [], log);
    var s := StartNext(r);
    assert [] + [addrs[i]] == [addrs[i]] && addrs[i..][1..] == addrs[i + 1..];
    assert s == Race(addrs[i + 1..], [addrs[i]], log);
    var done := Completion(addrs[i], choices(i).answer);
    assert !choices(i).delayFirst;
    assert RemoveAt([addrs[i]], 0) == [];
    assert Complete(s, choices(i)) == Race(addrs[i + 1..], [], log + [done]);
    AddressesNext(log, done);
    assert addrs[..i] + [addrs[i]] == addrs[..i + 1];
    if i < n {
      assert !choices(i).answer.Connected?;
      RefusedFrom(addrs, choices, i + 1, n, log + [done]);
    }
  }

  /** A refused address is followed at once by the next: after `n` refusals in a row the address numbered `n` connects. */
  lemma RefusalsFallThrough(addrs: seq<SockAddr>, choices: nat -> Choice, n: nat)
    requires n < |addrs| && (forall k | 0 <= k <= n :: !choices(k).delayFirst)
    requires (forall k | 0 <= k < n :: !choices(k).answer.Connected?) && choices(n).answer.Connected?
    ensures var o := Racing(Race(addrs, [], []), choices, 0);
            && o.result == Ok(choices(n).answer.conn) && Addresses(o.finish.log) == addrs[..n + 1]
            && o.finish.pending == addrs[n + 1..]
  {
    assert addrs[0..] == addrs && addrs[..0] == [] && Addresses([]) == [];
    RefusedFrom(addrs, choices, 0, n, []);
  }

  // ---------------------------------------------------------------------------
  // The DNS cache
  // ---------------------------------------------------------------------------

  type Key = (string, nat)

  datatype Entry = Entry(at: nat, addrs: seq<SockAddr>)

  datatype Lookup = Found(addrs: seq<SockAddr>) | LookupFailed(error: nat)

  datatype Resolved = Resolved(entries: map<Key, Entry>, result: Result<seq<SockAddr>>, asked: bool)

  predicate Fresh(entries: map<Key, Entry>, key: Key, ttl: nat, now: nat) {
    key in entries && now - entries[key].at < ttl
  }

  /** `now` is the time of the call, `later` the time after the lookup. */
  function Resolving(entries: map<Key, Entry>, key: Key, ttl: nat, now: nat, later: nat, lookup: Lookup): Resolved {
    if Fresh(entries, key, ttl, now) then Resolved(entries, Ok(entries[key].addrs), false)
    else
      match lookup
      case LookupFailed(e) => Resolved(entries, Err(Io(e)), true)
      case Found(addrs) =>
        if addrs == [] then Resolved(entries, Err(NoAddress), true)
        else Resolved(entries[key := Entry(later, addrs)], Ok(addrs), true)
  }

  class DnsCache {
    var entries: map<Key, Entry>

    constructor ()
      ensures entries == map[]
    {
      entries := map[];
    }

    method ResolveWith(key: Key, ttl: nat, now: nat, later: nat, lookup: Lookup)
      returns (r: Result<seq<SockAddr>>, asked: bool)
      modifies this
      ensures Resolved(entries, r, asked) == Resolving(old(entries), key, ttl, now, later, lookup)
    {
      if key in entries {
        var entry := entries[key];
        if now - entry.at < ttl {
          return Ok(entry.addrs), false;
        }
      }
      match lookup
      case LookupFailed(e) =>
        return Err(Io(e)), true;
      case Found(addrs) =>
        if addrs == [] {
          return Err(NoAddress), true;
        }
        entries := entries[key := Entry(later, addrs)];
        return Ok(addrs), true;
    }

    method Invalidate(key: Key)
      modifies this
      ensures entries == old(entries) - {key}
    {
      entries := entries - {key};
    }
  }

  /** An entry as old as the limit, or none at all, means a lookup; its outcome is the answer, and addresses are kept. */
  lemma StaleAsksAgain(entries: map<Key, Entry>, key: Key, ttl: nat, now: nat, later: nat, lookup: Lookup)
    requires key !in entries || entries[key].at + ttl <= now
    ensures var r := Resolving(entries, key, ttl, now, later, lookup);
            && r.asked
            && (lookup.Found? && lookup.addrs != [] ==>
                  r.result == Ok(lookup.addrs) && r.entries == entries[key := Entry(later, lookup.addrs)])
            && (lookup.LookupFailed? ==> r.result == Err(Io(lookup.error)) && r.entries == entries)
            && (lookup == Found([]) ==> r.result == Err(NoAddress) && r.entries == entries)
  {
  }

  datatype CacheOp = Resolve(key: Key, now: nat, later: nat, lookup: Lookup) | Invalidate(key: Key)

  function Apply(entries: map<Key, Entry>, ttl: nat, op: CacheOp): map<Key, Entry> {
    match op
    case Resolve(key, now, later, lookup) => Resolving(entries, key, ttl, now, later, lookup).entries
    case Invalidate(key) => entries - {key}
  }

  function ApplyAll(entries: map<Key, Entry>, ttl: nat, ops: seq<CacheOp>): map<Key, Entry>
    decreases |ops|
  {
    if ops == [] then entries else ApplyAll(Apply(entries, ttl, ops[0]), ttl, ops[1..])
  }

  /**
   * Between a successful lookup and its expiry or invalidation, whatever happens to other keys and however often this
   * one is resolved, callers get exactly the addresses of that lookup and no further lookup is made.
   */
  lemma {:induction false} ServesLastLookup(entries: map<Key, Entry>, ttl: nat, key: Key, stored: Entry,
                                            ops: seq<CacheOp>, now: nat, later: nat, lookup: Lookup)
    requires key in entries && entries[key] == stored
    requires forall op | op in ops && op.key == key :: op.Resolve? && op.now - stored.at < ttl
    requires now - stored.at < ttl
    ensures Resolving(ApplyAll(entries, ttl, ops), key, ttl, now, later, lookup)
         == Resolved(ApplyAll(entries, ttl, ops), Ok(stored.addrs), false)
    decreases |ops|
  {
    if ops != [] {
      assert ops[0] in ops;
      ServesLastLookup(Apply(entries, ttl, ops[0]), ttl, key, stored, ops[1..], now, later, lookup);
    }
  }

  // ---------------------------------------------------------------------------
  // Dialling with retries
  // ---------------------------------------------------------------------------

  const DNS_TTL := 60_000
  const BACKOFF := 200

  /** One try's environment: times in milliseconds, the lookup, the race, a timeout, an error setting socket options. */
  datatype Try = Try(now: nat, later: nat, lookup: Lookup, race: nat -> Choice, timedOut: bool, options: Option<nat>)

  datatype Target = Target(key: Key, literal: Option<SockAddr>)

  datatype Tried = Tried(entries: map<Key, Entry>, result: Result<nat>)

  /** Resolving and connecting, before the timeout is considered. */
  function Connecting(entries: map<Key, Entry>, target: Target, t: Try): Tried {
    var resolved :=
      if target.literal.Some? then Resolved(entries, Ok([target.literal.value]), false)
      else Resolving(entries, target.key, DNS_TTL, t.now, t.later, t.lookup);
    match resolved.result
    case Err(e) => Tried(resolved.entries, Err(e))
    case Ok(addrs) => Tried(resolved.entries, Racing(Race(Interleaved(addrs), [], []), t.race, 0).result)
  }

  /**
   * A try races the resolved addresses in the one order that keeps each family's order and alternates from the first
   * address's family: RFC 8305 section 4. The cache is good for 60 seconds.
   */
  lemma TryRacesInOrder(entries: map<Key, Entry>, target: Target, t: Try, addrs: seq<SockAddr>, order: seq<SockAddr>)
    requires target.literal == None && addrs != []
    requires Resolving(entries, target.key, 60_000, t.now, t.later, t.lookup).result == Ok(addrs)
    requires (forall v6 :: Family(order, v6) == Family(addrs, v6)) && Alternates(order) && Leads(order, addrs[0].V6?)
    ensures Connecting(entries, target, t).result == Racing(Race(order, [], []), t.race, 0).result
  {
    hide Alternates, Leads, Family, Racing, Resolving;
    InterleavedIff(addrs, order);
  }

  /** An address given as a literal is the only one tried and leaves the cache alone. */
  lemma LiteralIsTried(entries: map<Key, Entry>, target: Target, t: Try)
    requires target.literal.Some?
    ensures Connecting(entries, target, t) == Tried(entries, Racing(Race([target.literal.value], [], []), t.race, 0).result)
  {
    hide Racing;
    var a := target.literal.value;
    assert [a][1..] == [];
    assert Family([a], a.V6?) == [a] && Family([a], !a.V6?) == [];
    UniformAlternate([a], []);
    assert [a] + [] == [a];
  }

  /** `gaveUp` when no try connected in time. */
  datatype Dialed = Dialed(entries: map<Key, Entry>, result: Result<nat>, slept: nat, gaveUp: bool)

  /** Tries number `attempt` to `retries`; `last` is the error so far and `slept` the time spent backing off. */
  function DialFrom(entries: map<Key, Entry>, target: Target, retries: nat, tries: nat -> Try, attempt: nat,
                    last: DialError, slept: nat): Dialed
    requires attempt <= retries + 1
    decreases retries + 1 - attempt
  {
    if attempt == retries + 1 then Dialed(entries, Err(last), slept, true)
    else
      var t := tries(attempt);
      var c := Connecting(entries, target, t);
      if !t.timedOut && c.result.Ok? then
        Dialed(c.entries, if t.options.Some? then Err(Io(t.options.value)) else c.result, slept, false)
      else
        var error := if t.timedOut then ConnectTimeout else c.result.error;
        DialFrom(c.entries - {target.key}, target, retries, tries, attempt + 1, error,
                 slept + if attempt < retries then BACKOFF * (attempt + 1) else 0)
  }

  /** One try: resolve, order, race. */
  method ResolveAndConnect(cache: DnsCache, target: Target, t: Try) returns (r: Result<nat>)
    modifies cache
    ensures Tried(cache.entries, r) == Connecting(old(cache.entries), target, t)
  {
    hide Resolving, Interleaved, Racing;
    var addrs := Ok([]);
    if target.literal.Some? {
      addrs := Ok([target.literal.value]);
    } else {
      var found, asked := cache.ResolveWith(target.key, DNS_TTL, t.now, t.later, t.lookup);
      addrs := found;
    }
    if addrs.Err? {
      return Err(addrs.error);
    }
    var order := Interleave(addrs.value);
    var raced, log := ConnectAny(order, t.race);
    r := raced;
  }

  method Dial(cache: DnsCache, target: Target, retries: nat, tries: nat -> Try)
    returns (r: Result<nat>, slept: nat, gaveUp: bool)
    modifies cache
    ensures Dialed(cache.entries, r, slept, gaveUp) == DialFrom(old(cache.entries), target, retries, tries, 0, NoAttempt, 0)
  {
    hide Connecting;
    var last := NoAttempt;
    slept := 0;
    for attempt := 0 to retries + 1
      invariant DialFrom(cache.entries, target, retries, tries, attempt, last, slept)
             == DialFrom(old(cache.entries), target, retries, tries, 0, NoAttempt, 0)
    {
      var t := tries(attempt);
      var connected := ResolveAndConnect(cache, target, t);
      if !t.timedOut && connected.Ok? {
        if t.options.Some? {
          return Err(Io(t.options.value)), slept, false;
        }
        return connected, slept, false;
      }
      cache.Invalidate(target.key);
      last := if t.timedOut then ConnectTimeout else connected.error;
      if attempt < retries {
        slept := slept + BACKOFF * (attempt + 1);
      }
    }
    return Err(last), slept, true;
  }

  /** Try `k` was in time and connected. */
  ghost predicate Connects(entries: map<Key, Entry>, target: Target, t: Try, d: Dialed) {
    var c := Connecting(entries, target, t);
    && !t.timedOut && c.result.Ok? && d.entries == c.entries
    && d.result == if t.options.Some? then Err(Io(t.options.value)) else c.result
  }

  /** A try that timed out, however far it had come, or failed to resolve or connect. */
  ghost predicate Fails(entries: map<Key, Entry>, target: Target, t: Try) {
    t.timedOut || Connecting(entries, target, t).result.Err?
  }

  /** Tries `from` to `to` failed, all but the first with the name forgotten. */
  ghost predicate AllFail(entries: map<Key, Entry>, target: Target, tries: nat -> Try, from: nat, to: nat) {
    forall j | from <= j < to :: Fails(if j == from then entries else entries - {target.key}, target, tries(j))
  }

  /** What a dial from try number `attempt` on came to; `k` is the try that connected, if one did. */
  ghost predicate Outcome(entries: map<Key, Entry>, target: Target, retries: nat, tries: nat -> Try, attempt: nat, k: nat,
                          d: Dialed)
  {
    if d.gaveUp then
      && d.result.Err? && d.entries == entries - {target.key} && 2 * d.slept == 200 * Triangle(retries)
      && AllFail(entries, target, tries, attempt, retries + 1)
    else
      && attempt <= k <= retries && 2 * d.slept == 200 * Triangle(k)
      && Connects(if k == attempt then entries else entries - {target.key}, target, tries(k), d)
      && AllFail(entries, target, tries, attempt, k)
  }

  lemma OneMoreFails(entries: map<Key, Entry>, later: map<Key, Entry>, target: Target, retries: nat, tries: nat -> Try,
                     attempt: nat, k: nat, d: Dialed)
    requires Fails(entries, target, tries(attempt)) && later == entries - {target.key}
    requires Outcome(later, target, retries, tries, attempt + 1, k, d)
    ensures Outcome(entries, target, retries, tries, attempt, k, d)
  {
    hide Fails, Connects, Triangle;
    assert later - {target.key} == later;
  }

  /** One try of the recursion. */
  lemma DialStep(entries: map<Key, Entry>, target: Target, retries: nat, tries: nat -> Try, attempt: nat, last: DialError,
                 slept: nat)
    requires attempt <= retries
    ensures var t := tries(attempt);
            var d := DialFrom(entries, target, retries, tries, attempt, last, slept);
            if Fails(entries, target, t) then
              var later := entries - {target.key};
              var error := if t.timedOut then ConnectTimeout else FailureOf(entries, target, t);
              d == DialFrom(later, target, retries, tries, attempt + 1, error,
                            slept + if attempt < retries then BACKOFF * (attempt + 1) else 0)
            else
              Connects(entries, target, t, d) && !d.gaveUp && d.slept == slept
  {
    ConnectingKeepsOthers(entries, target, tries(attempt));
    hide Connecting;
  }

  /**
   * Retries: the outcome is that of the first try that connects in time, after 200 + 400 + .. milliseconds of backing
   * off, one step for each failure before it; every failure forgot the name's addresses, so that try asked the
   * resolver again. A dial that gave up has backed off between all its tries and leaves the name forgotten. Other names
   * are never touched by a failure.
   */
  lemma {:induction false} DialOutcome(entries: map<Key, Entry>, target: Target, retries: nat, tries: nat -> Try,
                                       attempt: nat, last: DialError, slept: nat)
    returns (k: nat)
    requires attempt <= retries + 1
    requires 2 * slept == 200 * Triangle(Min(attempt, retries))
    requires attempt == retries + 1 ==> target.key !in entries
    ensures Outcome(entries, target, retries, tries, attempt, k,
                    DialFrom(entries, target, retries, tries, attempt, last, slept))
    decreases retries + 1 - attempt
  {
    if attempt == retries + 1 {
      assert entries - {target.key} == entries;
      k := 0;
    } else {
      hide DialFrom, Triangle, Fails, Connects;
      var t := tries(attempt);
      DialStep(entries, target, retries, tries, attempt, last, slept);
      if Fails(entries, target, t) {
        hide Outcome;
        NextTriangle(attempt);
        var error := if t.timedOut then ConnectTimeout else FailureOf(entries, target, t);
        k := DialOutcome(entries - {target.key}, target, retries, tries, attempt + 1, error,
                         slept + if attempt < retries then BACKOFF * (attempt + 1) else 0);
        OneMoreFails(entries, entries - {target.key}, target, retries, tries, attempt, k,
                     DialFrom(entries, target, retries, tries, attempt, last, slept));
      } else {
        k := attempt;
      }
    }
  }

  ghost function FailureOf(entries: map<Key, Entry>, target: Target, t: Try): DialError
    requires Fails(entries, target, t) && !t.timedOut
  {
    Connecting(entries, target, t).result.error
  }

  /** n * (n + 1), twice the sum of the first n numbers. */
  function Triangle(n: nat): nat {
    n * (n + 1)
  }

  lemma NextTriangle(n: nat)
    ensures Triangle(n + 1) == Triangle(n) + 2 * (n + 1)
  {
  }

  lemma ConnectingKeepsOthers(entries: map<Key, Entry>, target: Target, t: Try)
    ensures Connecting(entries, target, t).entries - {target.key} == entries - {target.key}
  {
  }
}
