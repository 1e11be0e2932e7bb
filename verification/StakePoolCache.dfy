/**
 * `readStakePool` and `invalidateStakePoolCache` of Frontend/src/chain/staking.js: a four-second
 * cache over a single-flight read, guarded by a generation counter.
 */
module StakePoolCache {
  import opened Common

  const CACHE_MS: int := 4000

  /** A cached pool and the read it came from. */
  datatype Cached = Cached(read: nat, pool: nat)

  datatype Progress = Fetching | Settled | Finished   // settled: its `finally` has not run yet

  /** One RPC read: the generation its closure captured and the step at which it began. */
  datatype Fetch = Fetch(generation: nat, begun: nat, progress: Progress)

  datatype State = State(
    cache: Option<Cached>,
    cacheAt: int,
    request: Option<nat>,
    generation: nat,
    fetches: seq<Fetch>,
    step: nat)

  datatype Event =
    | Call(force: bool, now: int)
    | Invalidate
    | Succeed(fetch: nat, pool: Option<nat>, now: int)   // a missing account yields no pool
    | Fail(fetch: nat)
    | Settle(fetch: nat)                                 // the `finally` callback

  function Invalidated(s: State): State {
    s.(generation := s.generation + 1, cache := None, cacheAt := 0, request := None)
  }

  predicate CacheFresh(s: State, now: int) { s.cache.Some? && now - s.cacheAt < CACHE_MS }

  /** The read whose result a caller receives. */
  function Answer(s: State, force: bool, now: int): nat {
    var s := if force then Invalidated(s) else s;
    if CacheFresh(s, now) then s.cache.value.read
    else if s.request.Some? then s.request.value
    else |s.fetches|
  }

  function Called(s: State, force: bool, now: int): State {
    var s := if force then Invalidated(s) else s;
    if CacheFresh(s, now) || s.request.Some? then s
    else s.(fetches := s.fetches + [Fetch(s.generation, s.step, Fetching)], request := Some(|s.fetches|))
  }

  predicate Pending(s: State, i: nat, p: Progress) { i < |s.fetches| && s.fetches[i].progress == p }

  function Mark(s: State, i: nat, p: Progress): State
    requires i < |s.fetches|
  {
    s.(fetches := s.fetches[i := s.fetches[i].(progress := p)])
  }

  function React(s: State, e: Event): State {
    match e
    case Call(force, now) => Called(s, force, now)
    case Invalidate => Invalidated(s)
    case Succeed(i, pool, now) =>
      if !Pending(s, i, Fetching) then s
      else
        var s := Mark(s, i, Settled);
        if s.fetches[i].generation != s.generation then s
        else s.(cache := if pool.Some? then Some(Cached(i, pool.value)) else None, cacheAt := now)
    case Fail(i) => if Pending(s, i, Fetching) then Mark(s, i, Settled) else s
    case Settle(i) =>
      if !Pending(s, i, Settled) then s
      else Mark(s, i, Finished).(request := if s.request == Some(i) then None else s.request)
  }

  function Next(s: State, e: Event): State { React(s, e).(step := s.step + 1) }

  const Init: State := State(None, 0, None, 0, [], 0)

  function Run(es: seq<Event>): State {
    if es == [] then Init else Next(Run(es[..|es| - 1]), es[|es| - 1])
  }

  // ----- the module's own variables -----

  class Cache {
    var stakePoolCache: Option<Cached>
    var stakePoolCacheAt: int
    var stakePoolRequest: Option<nat>
    var stakePoolCacheGeneration: nat
    var fetches: seq<Fetch>
    var step: nat                 // how many handlers have run so far
    ghost var invalidated: int    // step of the last invalidation, or -1

    ghost function View(): State reads this {
      State(stakePoolCache, stakePoolCacheAt, stakePoolRequest, stakePoolCacheGeneration, fetches, step)
    }

    /** Exactly the invariant of every interleaving. */
    ghost predicate Valid() reads this { Inv(View(), invalidated) }

    constructor ()
      ensures Valid() && View() == Init && invalidated == -1
    {
      stakePoolCache, stakePoolCacheAt, stakePoolRequest := None, 0, None;
      stakePoolCacheGeneration, fetches, step := 0, [], 0;
      invalidated := -1;
    }

    method InvalidateStakePoolCache()
      requires Valid()
      modifies this
      ensures Valid() && View() == Next(old(View()), Invalidate) && invalidated == old(step)
    {
      NextKeepsInv(View(), invalidated, Invalidate);
      stakePoolCacheGeneration := stakePoolCacheGeneration + 1;
      stakePoolCache, stakePoolCacheAt := None, 0;
      stakePoolRequest := None;
      invalidated := step;
      step := step + 1;
    }

    /** The read handed to the caller began no earlier than the last invalidation, its own included. */
    method ReadStakePool(force: bool, now: int) returns (read: nat)
      requires Valid()
      modifies this
      ensures Valid() && View() == Next(old(View()), Call(force, now))
      ensures invalidated == if force then old(step) else old(invalidated)
      ensures read == Answer(old(View()), force, now)
      ensures read < |fetches| && fetches[read].begun >= invalidated
    {
      CallKeepsInv(View(), invalidated, force, now);
      var began := step;
      if force {
        InvalidateStakePoolCache();
      } else {
        step := step + 1;
      }
      if stakePoolCache.Some? && now - stakePoolCacheAt < CACHE_MS { return stakePoolCache.value.read; }
      if stakePoolRequest.Some? { return stakePoolRequest.value; }
      read := |fetches|;
      fetches := fetches + [Fetch(stakePoolCacheGeneration, began, Fetching)];
      stakePoolRequest := Some(read);
    }

    method OnFetched(i: nat, pool: Option<nat>, now: int)
      requires Valid() && Pending(View(), i, Fetching)
      modifies this
      ensures Valid() && View() == Next(old(View()), Succeed(i, pool, now)) && invalidated == old(invalidated)
    {
      SucceedKeepsInv(View(), invalidated, i, pool, now);
      fetches := fetches[i := fetches[i].(progress := Settled)];
      if fetches[i].generation == stakePoolCacheGeneration {
        stakePoolCache := if pool.Some? then Some(Cached(i, pool.value)) else None;
        stakePoolCacheAt := now;
      }
      step := step + 1;
    }

    method OnFailed(i: nat)
      requires Valid() && Pending(View(), i, Fetching)
      modifies this
      ensures Valid() && View() == Next(old(View()), Fail(i)) && invalidated == old(invalidated)
    {
      FailKeepsInv(View(), invalidated, i);
      fetches := fetches[i := fetches[i].(progress := Settled)];
      step := step + 1;
    }

    method OnFinally(i: nat)
      requires Valid() && Pending(View(), i, Settled)
      modifies this
      ensures Valid() && View() == Next(old(View()), Settle(i)) && invalidated == old(invalidated)
    {
      SettleKeepsInv(View(), invalidated, i);
      fetches := fetches[i := fetches[i].(progress := Finished)];
      if stakePoolRequest == Some(i) { stakePoolRequest := None; }
      step := step + 1;
    }
  }

  // ----- every interleaving -----

  /** Step of the last invalidation, explicit or by a forced call, or -1. */
  function LastInvalidation(es: seq<Event>): int {
    if es == [] then -1
    else
      var last := es[|es| - 1];
      if last.Invalidate? || (last.Call? && last.force) then |es| - 1 else LastInvalidation(es[..|es| - 1])
  }

  ghost predicate Inv(s: State, invalidated: int) {
    && invalidated < s.step
    // generations never run ahead, and the current one began with the last invalidation
    && (forall i :: 0 <= i < |s.fetches| ==> s.fetches[i].generation <= s.generation && s.fetches[i].begun < s.step)
    && (forall i :: 0 <= i < |s.fetches| ==>
          (s.fetches[i].generation == s.generation <==> s.fetches[i].begun >= invalidated))
    && (s.cache.Some? ==> s.cache.value.read < |s.fetches| && s.fetches[s.cache.value.read].generation == s.generation)
    && (s.request.Some? ==> s.request.value < |s.fetches| && s.fetches[s.request.value].generation == s.generation)
    && (s.request.Some? ==> s.fetches[s.request.value].progress != Finished)
    // single flight: an unfinished read of this generation is the registered request
    && (forall i :: 0 <= i < |s.fetches| && s.fetches[i].generation == s.generation && s.fetches[i].progress != Finished
          ==> s.request == Some(i))
  }

  lemma InvalidatedKeepsInv(s: State, invalidated: int)
    requires Inv(s, invalidated)
    ensures var t := Invalidated(s); Inv(t.(step := s.step + 1), s.step)
  {
  }

  lemma CallKeepsInv(s: State, invalidated: int, force: bool, now: int)
    requires Inv(s, invalidated)
    ensures Inv(Next(s, Call(force, now)), if force then s.step else invalidated)
    ensures Answer(s, force, now) < |Next(s, Call(force, now)).fetches|
    ensures Next(s, Call(force, now)).fetches[Answer(s, force, now)].begun >= if force then s.step else invalidated
  {
    if force { InvalidatedKeepsInv(s, invalidated); }
  }

  lemma SucceedKeepsInv(s: State, invalidated: int, i: nat, pool: Option<nat>, now: int)
    requires Inv(s, invalidated)
    ensures Inv(Next(s, Succeed(i, pool, now)), invalidated)
  {
  }

  lemma FailKeepsInv(s: State, invalidated: int, i: nat)
    requires Inv(s, invalidated)
    ensures Inv(Next(s, Fail(i)), invalidated)
  {
  }

  lemma SettleKeepsInv(s: State, invalidated: int, i: nat)
    requires Inv(s, invalidated)
    ensures Inv(Next(s, Settle(i)), invalidated)
  {
  }

  lemma NextKeepsInv(s: State, invalidated: int, e: Event)
    requires Inv(s, invalidated)
    ensures Inv(Next(s, e), if e.Invalidate? || (e.Call? && e.force) then s.step else invalidated)
  {
    match e
    case Call(force, now) => CallKeepsInv(s, invalidated, force, now);
    case Invalidate => InvalidatedKeepsInv(s, invalidated);
    case Succeed(i, pool, now) => SucceedKeepsInv(s, invalidated, i, pool, now);
    case Fail(i) => FailKeepsInv(s, invalidated, i);
    case Settle(i) => SettleKeepsInv(s, invalidated, i);
  }

  lemma {:induction false} RunKeepsInv(es: seq<Event>)
    ensures Run(es).step == |es| && Inv(Run(es), LastInvalidation(es))
  {
    if es != [] {
      var rest := es[..|es| - 1];
      RunKeepsInv(rest);
      NextKeepsInv(Run(rest), LastInvalidation(rest), es[|es| - 1]);
    }
  }

  /** The cache only ever holds a value whose read began in the current generation, that is, no earlier
      than the last invalidation. */
  lemma CacheIsCurrent(es: seq<Event>)
    ensures var s := Run(es);
      s.cache.Some? ==>
        && s.cache.value.read < |s.fetches|
        && s.fetches[s.cache.value.read].generation == s.generation
        && s.fetches[s.cache.value.read].begun >= LastInvalidation(es)
  {
    RunKeepsInv(es);
  }

  /** A caller never receives a read begun before an invalidation that preceded the call. */
  lemma CallerNeverGetsStaleRead(es: seq<Event>, force: bool, now: int)
    ensures var s, t, r := Run(es), Run(es + [Call(force, now)]), Answer(Run(es), force, now);
      r < |t.fetches| && t.fetches[r].begun >= LastInvalidation(es + [Call(force, now)])
  {
    var all := es + [Call(force, now)];
    assert all[..|es|] == es;
    RunKeepsInv(es);
    CallKeepsInv(Run(es), LastInvalidation(es), force, now);
  }

  /** A read that is over is handed out only from the cache, and only for four seconds. */
  lemma FinishedReadExpires(es: seq<Event>, force: bool, now: int)
    requires Pending(Run(es), Answer(Run(es), force, now), Finished)
    ensures var s := Run(es);
      !force && s.cache.Some? && s.cache.value.read == Answer(s, force, now) && now < s.cacheAt + 4000
  {
    RunKeepsInv(es);
  }

  /** Two reads of one generation are never in the air together. */
  lemma SingleFlight(es: seq<Event>, i: nat, j: nat)
    requires i < |Run(es).fetches| && j < |Run(es).fetches|
    requires Run(es).fetches[i].generation == Run(es).fetches[j].generation == Run(es).generation
    requires Run(es).fetches[i].progress == Run(es).fetches[j].progress == Fetching
    ensures i == j
  {
    RunKeepsInv(es);
  }

  /** A failed read leaves the door open: once it has settled, the next call starts another. */
  lemma FailureIsRetried(es: seq<Event>, i: nat, now: int)
    requires Run(es).request == Some(i) && i < |Run(es).fetches| && Run(es).fetches[i].progress == Fetching
    requires !CacheFresh(Run(es), now)
    ensures var s := Run(es + [Fail(i), Settle(i)]);
      s.request.None? && Answer(s, false, now) == |s.fetches|
  {
    var all := es + [Fail(i), Settle(i)];
    assert all[..|all| - 1] == es + [Fail(i)] && (es + [Fail(i)])[..|es|] == es;
  }

  // ----- what a caller gets -----

  lemma {:induction false} RunSnoc(es: seq<Event>, e: Event)
    ensures Run(es + [e]) == Next(Run(es), e)
  {
    assert (es + [e])[..|es|] == es;
  }

  /** A read that succeeds, begun no earlier than the last invalidation, fills the cache, and for four seconds
      every unforced call gets it. */
  lemma {:induction false} ReadFillsCache(es: seq<Event>, i: nat, pool: nat, now: int, later: int)
    requires Pending(Run(es), i, Fetching) && Run(es).fetches[i].begun >= LastInvalidation(es)
    ensures var t := Run(es + [Succeed(i, Some(pool), now)]);
      && t.cache == Some(Cached(i, pool)) && t.cacheAt == now
      && (later < now + 4000 ==> Answer(t, false, later) == i && Next(t, Call(false, later)).fetches == t.fetches)
  {
    RunKeepsInv(es);
    RunSnoc(es, Succeed(i, Some(pool), now));
  }

  /** A pool account that does not exist leaves no value behind. */
  lemma {:induction false} MissingPoolClears(es: seq<Event>, i: nat, now: int)
    requires Pending(Run(es), i, Fetching) && Run(es).fetches[i].begun >= LastInvalidation(es)
    ensures Run(es + [Succeed(i, None, now)]).cache == None
  {
    RunKeepsInv(es);
    RunSnoc(es, Succeed(i, None, now));
  }

  /** A read overtaken by an invalidation changes neither the cache nor the registered request. */
  lemma {:induction false} StaleReadIgnored(es: seq<Event>, i: nat, pool: Option<nat>, now: int)
    requires Pending(Run(es), i, Fetching) && Run(es).fetches[i].begun < LastInvalidation(es)
    ensures var s, t := Run(es), Run(es + [Succeed(i, pool, now)]);
      t.cache == s.cache && t.cacheAt == s.cacheAt && t.request == s.request && t.generation == s.generation
  {
    RunKeepsInv(es);
    RunSnoc(es, Succeed(i, pool, now));
  }

  /** Neither an invalidation nor a result. */
  predicate Quiet(e: Event) { e.Fail? || e.Settle? || (e.Call? && !e.force) }

  /** The cache keeps its value until it is invalidated or another read succeeds. */
  lemma {:induction false} CacheUntil(es: seq<Event>, n: nat)
    requires n <= |es| && forall k :: n <= k < |es| ==> Quiet(es[k])
    ensures Run(es).cache == Run(es[..n]).cache && Run(es).cacheAt == Run(es[..n]).cacheAt
    decreases |es|
  {
    if n == |es| {
      assert es[..n] == es;
    } else {
      assert es[..|es| - 1][..n] == es[..n];
      CacheUntil(es[..|es| - 1], n);
    }
  }

  /** Without a fresh value, a call joins the read in flight and begins none; with neither, it begins one. */
  lemma {:induction false} CallJoinsOrBegins(es: seq<Event>, now: int)
    requires Run(es).cache == None || now >= Run(es).cacheAt + 4000
    ensures var s, t := Run(es), Run(es + [Call(false, now)]);
      && (s.request.Some? ==> Answer(s, false, now) == s.request.value && t.fetches == s.fetches)
      && (s.request.None? ==>
            Answer(s, false, now) == |s.fetches|
            && t.fetches == s.fetches + [Fetch(s.generation, |es|, Fetching)] && t.request == Some(|s.fetches|))
  {
    RunKeepsInv(es);
    RunSnoc(es, Call(false, now));
  }

  /** A forced call always begins a read of its own, under a new generation. */
  lemma {:induction false} ForcedCallBegins(es: seq<Event>, now: int)
    ensures var s, t := Run(es), Run(es + [Call(true, now)]);
      && Answer(s, true, now) == |s.fetches| && t.cache == None && t.generation > s.generation
      && t.fetches == s.fetches + [Fetch(t.generation, |es|, Fetching)] && t.request == Some(|s.fetches|)
  {
    RunKeepsInv(es);
    RunSnoc(es, Call(true, now));
  }

  /** An invalidation forgets the cached value and lets go of the read in flight. */
  lemma {:induction false} InvalidationForgets(es: seq<Event>)
    ensures var s, t := Run(es), Run(es + [Invalidate]);
      t.cache == None && t.request == None && t.generation > s.generation && t.fetches == s.fetches
  {
    RunSnoc(es, Invalidate);
  }
}
