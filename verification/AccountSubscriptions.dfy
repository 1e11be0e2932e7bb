/**
 * Frontend/src/chain/protocol-realtime.js: one account subscription shared by every listener of an
 * address, started lazily, retried with back-off, and given up with the last listener.
 */
module AccountSubscriptions {
  import opened Common

  /** How far the entry's `startRequest` has got. After the body settles, its `finally` still has to
      run; both are microtasks, so no timer can fire in between. */
  datatype Phase = Idle | InFlight | Removing(sub: nat) | Settled

  datatype Entry = Entry(
    key: nat,
    listeners: set<nat>,
    id: Option<nat>,
    phase: Phase,
    retryTimer: bool,
    retryDelayMs: nat,
    owned: set<nat>)              // RPC registrations made for this entry and not yet given up

  /** The closure returned to a subscriber. */
  datatype Handle = Handle(entry: nat, listener: nat, used: bool)

  datatype State = State(
    active: map<nat, nat>,        // accountSubscriptions: address to entry
    entries: seq<Entry>,          // every entry object ever created
    handles: seq<Handle>)

  datatype Event =
    | Subscribe(key: nat, listener: nat)
    | Unsubscribe(handle: nat)
    | Resolve(entry: nat, id: nat)      // onAccountChange answered
    | Reject(entry: nat)                // the cluster check or onAccountChange failed
    | Removed(entry: nat)               // removeAccountChangeListener finished, well or not
    | Finish(entry: nat)                // the `finally` callback
    | Fire(entry: nat)                  // the retry timer

  // ----- one entry -----

  function NewEntry(key: nat): Entry { Entry(key, {}, None, Idle, false, 1000, {}) }

  function Start(e: Entry): Entry {
    if e.id.Some? || e.phase != Idle || e.listeners == {} then e else e.(phase := InFlight)
  }

  function ScheduleRetry(e: Entry): Entry {
    if e.listeners == {} || e.retryTimer then e
    else e.(retryTimer := true, retryDelayMs := if e.retryDelayMs * 2 < 15000 then e.retryDelayMs * 2 else 15000)
  }

  function Resolved(e: Entry, id: nat): Entry {
    var e := e.(owned := e.owned + {id});
    if e.listeners == {} then e.(phase := Removing(id))
    else e.(id := Some(id), retryDelayMs := 1000, phase := Settled)
  }

  function Released(e: Entry): Entry {
    e.(retryTimer := false, id := None, owned := if e.id.Some? then e.owned - {e.id.value} else e.owned)
  }

  // ----- one step; an event that cannot happen now changes nothing -----

  predicate NoMicrotask(s: State) { forall i :: 0 <= i < |s.entries| ==> s.entries[i].phase != Settled }

  function Put(s: State, i: nat, e: Entry): State
    requires i < |s.entries|
  {
    s.(entries := s.entries[i := e])
  }

  function Next(s: State, ev: Event): State {
    match ev
    case Subscribe(key, listener) =>
      var known := key in s.active && s.active[key] < |s.entries|;
      var i := if known then s.active[key] else |s.entries|;
      var base := if known then s else s.(active := s.active[key := i], entries := s.entries + [NewEntry(key)]);
      var e := base.entries[i];
      Put(base, i, Start(e.(listeners := e.listeners + {listener})))
        .(handles := s.handles + [Handle(i, listener, false)])
    case Unsubscribe(h) =>
      if h >= |s.handles| || s.handles[h].entry >= |s.entries| then s
      else
        var i := s.handles[h].entry;
        var e := s.entries[i].(listeners := s.entries[i].listeners - {s.handles[h].listener});
        var marked := s.(handles := s.handles[h := s.handles[h].(used := true)]);
        if e.listeners != {} then Put(marked, i, e)
        else Put(marked, i, Released(e)).(active := s.active - {e.key})
    case Resolve(i, id) =>
      if i < |s.entries| && s.entries[i].phase == InFlight then Put(s, i, Resolved(s.entries[i], id)) else s
    case Reject(i) =>
      if i < |s.entries| && s.entries[i].phase == InFlight
      then Put(s, i, ScheduleRetry(s.entries[i]).(phase := Settled)) else s
    case Removed(i) =>
      if i < |s.entries| && s.entries[i].phase.Removing?
      then Put(s, i, s.entries[i].(phase := Settled, owned := s.entries[i].owned - {s.entries[i].phase.sub})) else s
    case Finish(i) =>
      if i < |s.entries| && s.entries[i].phase == Settled then Put(s, i, s.entries[i].(phase := Idle)) else s
    case Fire(i) =>
      if i < |s.entries| && s.entries[i].retryTimer && NoMicrotask(s)
      then Put(s, i, Start(s.entries[i].(retryTimer := false))) else s
  }

  function RunAll(s: State, evs: seq<Event>): State {
    if evs == [] then s else Next(RunAll(s, evs[..|evs| - 1]), evs[|evs| - 1])
  }

  const Init: State := State(map[], [], [])

  // ----- the registry as the code keeps it -----

  class Registry {
    var accountSubscriptions: map<nat, nat>
    var entries: seq<Entry>
    var handles: seq<Handle>

    ghost function View(): State reads this { State(accountSubscriptions, entries, handles) }

    /** Exactly the invariant of every interleaving. */
    ghost predicate Valid() reads this { Inv(View()) }

    constructor ()
      ensures Valid() && View() == Init
    {
      accountSubscriptions, entries, handles := map[], [], [];
    }

    method StartAccountSubscription(i: nat)
      requires i < |entries|
      modifies this
      ensures View() == Put(old(View()), i, Start(old(entries[i])))
    {
      var entry := entries[i];
      if entry.id.Some? || entry.phase != Idle || entry.listeners == {} {
        assert entries == entries[i := entry];
        return;
      }
      entries := entries[i := entry.(phase := InFlight)];
    }

    /** The address's entry, created if there is none. */
    method EnsureEntry(key: nat) returns (i: nat)
      requires Valid()
      modifies this
      ensures i < |entries| && handles == old(handles)
      ensures if key in old(accountSubscriptions) then View() == old(View()) && i == accountSubscriptions[key]
              else i == |old(entries)| && entries == old(entries) + [NewEntry(key)]
                   && accountSubscriptions == old(accountSubscriptions)[key := i]
    {
      if key !in accountSubscriptions {
        accountSubscriptions := accountSubscriptions[key := |entries|];
        entries := entries + [NewEntry(key)];
      }
      i := accountSubscriptions[key];
    }

    method JoinEntry(i: nat, listener: nat)
      requires i < |entries|
      modifies this
      ensures View() == Put(old(View()), i,
                            Start(old(entries[i]).(listeners := old(entries[i]).listeners + {listener})))
    {
      entries := entries[i := entries[i].(listeners := entries[i].listeners + {listener})];
      StartAccountSubscription(i);
    }

    method SubscribeAccountActivity(key: nat, listener: nat) returns (handle: nat)
      requires Valid()
      modifies this
      ensures Valid() && View() == Next(old(View()), Subscribe(key, listener)) && handle == |old(handles)|
    {
      NextKeepsInv(View(), Subscribe(key, listener));
      var i := EnsureEntry(key);
      JoinEntry(i, listener);
      handle := |handles|;
      handles := handles + [Handle(i, listener, false)];
    }

    method CallHandle(h: nat)
      requires Valid() && h < |handles|
      modifies this
      ensures Valid() && View() == Next(old(View()), Unsubscribe(h))
    {
      NextKeepsInv(View(), Unsubscribe(h));
      var i := handles[h].entry;
      var entry := entries[i];
      entry := entry.(listeners := entry.listeners - {handles[h].listener});
      handles := handles[h := handles[h].(used := true)];
      if entry.listeners != {} {
        entries := entries[i := entry];
        return;
      }
      accountSubscriptions := accountSubscriptions - {entry.key};
      entry := entry.(retryTimer := false);
      if entry.id.Some? {
        entry := entry.(id := None, owned := entry.owned - {entry.id.value});
      }
      entries := entries[i := entry];
    }

    method OnStarted(i: nat, id: nat)
      requires Valid() && i < |entries| && entries[i].phase == InFlight
      modifies this
      ensures Valid() && View() == Next(old(View()), Resolve(i, id))
    {
      NextKeepsInv(View(), Resolve(i, id));
      var entry := entries[i];
      entry := entry.(owned := entry.owned + {id});
      if entry.listeners == {} {
        entry := entry.(phase := Removing(id));
      } else {
        entry := entry.(id := Some(id), retryDelayMs := 1000, phase := Settled);
      }
      entries := entries[i := entry];
    }

    method OnStartFailed(i: nat)
      requires Valid() && i < |entries| && entries[i].phase == InFlight
      modifies this
      ensures Valid() && View() == Next(old(View()), Reject(i))
    {
      NextKeepsInv(View(), Reject(i));
      var entry := entries[i];
      if entry.listeners != {} && !entry.retryTimer {
        entry := entry.(retryTimer := true);
        entry := entry.(retryDelayMs := if entry.retryDelayMs * 2 < 15000 then entry.retryDelayMs * 2 else 15000);
      }
      entries := entries[i := entry.(phase := Settled)];
    }

    method OnRemoved(i: nat)
      requires Valid() && i < |entries| && entries[i].phase.Removing?
      modifies this
      ensures Valid() && View() == Next(old(View()), Removed(i))
    {
      NextKeepsInv(View(), Removed(i));
      entries := entries[i := entries[i].(owned := entries[i].owned - {entries[i].phase.sub}, phase := Settled)];
    }

    method OnFinally(i: nat)
      requires Valid() && i < |entries| && entries[i].phase == Settled
      modifies this
      ensures Valid() && View() == Next(old(View()), Finish(i))
    {
      NextKeepsInv(View(), Finish(i));
      entries := entries[i := entries[i].(phase := Idle)];
    }

    method OnRetryTimer(i: nat)
      requires Valid() && i < |entries| && entries[i].retryTimer && NoMicrotask(View())
      modifies this
      ensures Valid() && View() == Next(old(View()), Fire(i))
    {
      NextKeepsInv(View(), Fire(i));
      entries := entries[i := entries[i].(retryTimer := false)];
      StartAccountSubscription(i);
    }
  }

  // ----- every interleaving -----

  predicate EntryInv(e: Entry) {
    // at most one RPC registration, and it is the one the entry knows about
    && e.owned == (if e.id.Some? then {e.id.value} else if e.phase.Removing? then {e.phase.sub} else {})
    && (e.id.Some? ==> e.phase == Idle || e.phase == Settled)
    // somebody is served, or about to be
    && (e.listeners != {} ==> e.id.Some? || e.phase == InFlight || e.retryTimer)
    && (e.phase.Removing? ==> e.listeners == {})
    // nobody listens: nothing is kept
    && (e.listeners == {} ==> e.id.None? && !e.retryTimer)
    && 1000 <= e.retryDelayMs <= 15000
  }

  ghost predicate Inv(s: State) {
    && (forall i :: 0 <= i < |s.entries| ==> EntryInv(s.entries[i]))
    && (forall k :: k in s.active ==> s.active[k] < |s.entries|)
    && (forall k :: k in s.active ==> s.entries[s.active[k]].key == k && s.entries[s.active[k]].listeners != {})
    && (forall h :: 0 <= h < |s.handles| ==> s.handles[h].entry < |s.entries|)
  }

  lemma PutKeepsInv(s: State, i: nat, e: Entry)
    requires Inv(s) && i < |s.entries| && EntryInv(e) && e.key == s.entries[i].key
    requires e.listeners != {} || s.entries[i].listeners == {}
    ensures Inv(Put(s, i, e))
  {
  }

  lemma SubscribeKeepsInv(s: State, key: nat, listener: nat)
    requires Inv(s)
    ensures Inv(Next(s, Subscribe(key, listener)))
  {
    var i := if key in s.active then s.active[key] else |s.entries|;
    var base := if key in s.active then s else s.(active := s.active[key := i], entries := s.entries + [NewEntry(key)]);
    var e := base.entries[i];
    var e' := Start(e.(listeners := e.listeners + {listener}));
    assert EntryInv(e) && EntryInv(e') && e'.listeners != {};
  }

  lemma UnsubscribeKeepsInv(s: State, h: nat)
    requires Inv(s) && h < |s.handles|
    ensures Inv(Next(s, Unsubscribe(h)))
  {
    var i := s.handles[h].entry;
    var e := s.entries[i].(listeners := s.entries[i].listeners - {s.handles[h].listener});
    assert EntryInv(s.entries[i]);
    if e.listeners != {} {
      assert EntryInv(e);
    } else {
      assert EntryInv(Released(e));
    }
  }

  lemma NextKeepsInv(s: State, ev: Event)
    requires Inv(s)
    ensures Inv(Next(s, ev))
  {
    match ev
    case Subscribe(key, listener) => SubscribeKeepsInv(s, key, listener);
    case Unsubscribe(h) => if h < |s.handles| { UnsubscribeKeepsInv(s, h); }
    case Resolve(i, id) =>
      if i < |s.entries| && s.entries[i].phase == InFlight { PutKeepsInv(s, i, Resolved(s.entries[i], id)); }
    case Reject(i) =>
      if i < |s.entries| && s.entries[i].phase == InFlight {
        PutKeepsInv(s, i, ScheduleRetry(s.entries[i]).(phase := Settled));
      }
    case Removed(i) =>
      if i < |s.entries| && s.entries[i].phase.Removing? {
        PutKeepsInv(s, i, s.entries[i].(phase := Settled, owned := s.entries[i].owned - {s.entries[i].phase.sub}));
      }
    case Finish(i) =>
      if i < |s.entries| && s.entries[i].phase == Settled { PutKeepsInv(s, i, s.entries[i].(phase := Idle)); }
    case Fire(i) =>
      if i < |s.entries| && s.entries[i].retryTimer && NoMicrotask(s) {
        PutKeepsInv(s, i, Start(s.entries[i].(retryTimer := false)));
      }
  }

  /** In every interleaving, even with handles called twice or a listener registered twice. */
  lemma {:induction false} EveryRunKeepsInv(evs: seq<Event>)
    ensures Inv(RunAll(Init, evs))
  {
    if evs != [] {
      EveryRunKeepsInv(evs[..|evs| - 1]);
      NextKeepsInv(RunAll(Init, evs[..|evs| - 1]), evs[|evs| - 1]);
    }
  }

  /** An entry never owns two RPC subscriptions; one with listeners has a subscription, a start in
      flight or a retry timer; one without listeners keeps neither subscription nor timer. */
  lemma EntryNeverLeaksNorStarves(evs: seq<Event>, i: nat)
    requires i < |RunAll(Init, evs).entries|
    ensures var e := RunAll(Init, evs).entries[i];
      && |e.owned| <= 1
      && (e.listeners != {} ==> e.id.Some? || e.phase == InFlight || e.retryTimer)
      && (e.listeners == {} ==> e.id.None? && !e.retryTimer)
      && (e.listeners == {} && e.phase == Idle ==> e.owned == {})
  {
    EveryRunKeepsInv(evs);
    assert EntryInv(RunAll(Init, evs).entries[i]);
  }

  /** How much is still under way for an entry. */
  function Rank(p: Phase): nat {
    match p
    case InFlight => 3
    case Removing(_) => 2
    case Settled => 1
    case Idle => 0
  }

  /** The answer an entry is waiting for. */
  predicate Answers(s: State, ev: Event, i: nat) {
    i < |s.entries| && match s.entries[i].phase
      case InFlight => (ev.Resolve? && ev.entry == i) || (ev.Reject? && ev.entry == i)
      case Removing(_) => ev == Removed(i)
      case Settled => ev == Finish(i)
      case Idle => false
  }

  lemma AbandonedStep(s: State, ev: Event, i: nat)
    requires Inv(s) && i < |s.entries| && s.entries[i].listeners == {}
    ensures var t := Next(s, ev);
      && i < |t.entries| && t.entries[i].listeners == {} && t.entries[i].key == s.entries[i].key
      && Rank(t.entries[i].phase) + (if Answers(s, ev, i) then 1 else 0) <= Rank(s.entries[i].phase)
  {
    assert EntryInv(s.entries[i]);
  }

  /** How many of the answers an entry waits for arrive in a continuation. */
  function Answered(s: State, evs: seq<Event>, i: nat): nat {
    if evs == [] then 0
    else
      var rest := evs[..|evs| - 1];
      Answered(s, rest, i) + if Answers(RunAll(s, rest), evs[|evs| - 1], i) then 1 else 0
  }

  /** In every continuation, whatever else happens, an entry nobody listens to is never listened to or
      restarted again: each answer it waits for brings it closer to idle, at most three are due, and once
      idle it stays idle and owns nothing. */
  lemma {:induction false} AbandonedForever(s: State, evs: seq<Event>, i: nat)
    requires Inv(s) && i < |s.entries| && s.entries[i].listeners == {}
    ensures var t := RunAll(s, evs);
      && Inv(t) && i < |t.entries| && t.entries[i].listeners == {}
      && Rank(t.entries[i].phase) + Answered(s, evs, i) <= Rank(s.entries[i].phase) <= 3
      && (t.entries[i].phase == Idle ==> t.entries[i].owned == {} && t.entries[i].id.None? && !t.entries[i].retryTimer)
  {
    if evs != [] {
      var rest := evs[..|evs| - 1];
      AbandonedForever(s, rest, i);
      NextKeepsInv(RunAll(s, rest), evs[|evs| - 1]);
      AbandonedStep(RunAll(s, rest), evs[|evs| - 1], i);
    }
    assert EntryInv(RunAll(s, evs).entries[i]);
  }

  // ----- what a subscriber gets -----

  /** Subscribing puts the listener on the address's own entry and registers it; a new entry starts at once,
      with a second of patience, and nobody else's entry is touched. */
  lemma {:induction false} SubscriberJoins(s: State, key: nat, listener: nat)
    requires Inv(s)
    ensures var t := Next(s, Subscribe(key, listener));
      && key in t.active && t.active[key] < |t.entries|
      && t.handles == s.handles + [Handle(t.active[key], listener, false)]
      && (forall k :: k in s.active ==> k in t.active && t.active[k] == s.active[k])
      && (forall j :: 0 <= j < |s.entries| && j != t.active[key] ==> j < |t.entries| && t.entries[j] == s.entries[j])
      && var e := t.entries[t.active[key]];
      && e.key == key
      && (key in s.active ==> e.listeners == s.entries[s.active[key]].listeners + {listener})
      && (key !in s.active ==> e == Entry(key, {listener}, None, InFlight, false, 1000, {}))
  {
    if key in s.active { assert EntryInv(s.entries[s.active[key]]); }
  }

  /** An answered start gives the listeners their subscription and forgets earlier failures. */
  lemma {:induction false} AnswerServes(s: State, i: nat, id: nat)
    requires i < |s.entries| && s.entries[i].phase == InFlight && s.entries[i].listeners != {}
    ensures var e := Next(s, Resolve(i, id)).entries[i];
      && e.id == Some(id) && id in e.owned && e.retryDelayMs == 1000
      && e.listeners == s.entries[i].listeners && e.key == s.entries[i].key
  {
  }

  /** Taking one of several listeners away changes nothing else. */
  lemma {:induction false} OthersStay(s: State, h: nat, other: nat)
    requires Inv(s) && h < |s.handles| && other != s.handles[h].listener
    requires other in s.entries[s.handles[h].entry].listeners
    ensures var i := s.handles[h].entry;
      var t := Next(s, Unsubscribe(h));
      && t.active == s.active
      && t.entries == s.entries[i := s.entries[i].(listeners := s.entries[i].listeners - {s.handles[h].listener})]
      && other in t.entries[i].listeners
  {
    assert other in s.entries[s.handles[h].entry].listeners - {s.handles[h].listener};
  }

  /** With the last listener the entry gives up its subscription, its timer and its address. */
  lemma {:induction false} LastOneLeaves(s: State, h: nat)
    requires Inv(s) && h < |s.handles| && s.entries[s.handles[h].entry].listeners == {s.handles[h].listener}
    ensures var i := s.handles[h].entry;
      var t := Next(s, Unsubscribe(h));
      && s.entries[i].key !in t.active && t.entries[i].listeners == {} && t.entries[i].id == None
      && !t.entries[i].retryTimer && t.entries[i].phase == s.entries[i].phase
      && (s.entries[i].id.Some? ==> t.entries[i].owned == {})
      && (forall k :: k in s.active && k != s.entries[i].key ==> k in t.active && t.active[k] == s.active[k])
  {
    assert EntryInv(s.entries[s.handles[h].entry]);
    assert {s.handles[h].listener} - {s.handles[h].listener} == {};
  }

  /** A start that fails, its `finally`, and the timer it set. */
  function FailOnce(s: State, i: nat): State { Next(Next(Next(s, Reject(i)), Finish(i)), Fire(i)) }

  function FailTimes(s: State, i: nat, n: nat): State { if n == 0 then s else FailOnce(FailTimes(s, i, n - 1), i) }

  /** The patience after so many failures in a row: doubling from one second, at most fifteen. */
  function Patience(n: nat): nat {
    if n == 0 then 1000 else if n == 1 then 2000 else if n == 2 then 4000 else if n == 3 then 8000 else 15000
  }

  predicate Trying(e: Entry) { e.phase == InFlight && e.id == None && e.listeners != {} && !e.retryTimer }

  lemma {:induction false} FailOnceSays(s: State, i: nat)
    requires i < |s.entries| && NoMicrotask(s) && Trying(s.entries[i])
    ensures var delay := s.entries[i].retryDelayMs;
      FailOnce(s, i) == Put(s, i, s.entries[i].(retryDelayMs := if delay >= 7500 then 15000 else 2 * delay))
  {
    var e := ScheduleRetry(s.entries[i]);
    var s1 := Next(s, Reject(i));
    assert s1 == Put(s, i, e.(phase := Settled));
    var s2 := Next(s1, Finish(i));
    assert s2 == Put(s, i, e.(phase := Idle));
    assert NoMicrotask(s2);
  }

  /** While anyone listens, a failing start is tried again every time, after one, two, four, eight and then
      fifteen seconds. */
  lemma {:induction false} FailuresAreRetried(s: State, i: nat, n: nat)
    requires i < |s.entries| && NoMicrotask(s) && Trying(s.entries[i]) && s.entries[i].retryDelayMs == 1000
    ensures FailTimes(s, i, n) == Put(s, i, s.entries[i].(retryDelayMs := Patience(n)))
  {
    if n == 0 {
      assert s.entries[i := s.entries[i].(retryDelayMs := 1000)] == s.entries;
    } else {
      FailuresAreRetried(s, i, n - 1);
      FailOnceSays(FailTimes(s, i, n - 1), i);
    }
  }

  /** The delay before the next attempt is the patience reached, with the timer set meanwhile. */
  lemma {:induction false} FailureSetsTimer(s: State, i: nat)
    requires i < |s.entries| && s.entries[i].phase == InFlight && s.entries[i].listeners != {}
    ensures Next(s, Reject(i)).entries[i].retryTimer
    ensures !s.entries[i].retryTimer ==>
      Next(s, Reject(i)).entries[i].retryDelayMs
      == if s.entries[i].retryDelayMs >= 7500 then 15000 else 2 * s.entries[i].retryDelayMs
  {
  }

  // ----- sharing -----

  /** Each handle is called once and an address never gets a listener it already has. */
  predicate Disciplined(s: State, ev: Event) {
    match ev
    case Subscribe(key, listener) =>
      key in s.active && s.active[key] < |s.entries| ==> listener !in s.entries[s.active[key]].listeners
    case Unsubscribe(h) => h < |s.handles| ==> !s.handles[h].used
    case _ => true
  }

  predicate DisciplinedRun(evs: seq<Event>) {
    forall n :: 0 <= n < |evs| ==> Disciplined(RunAll(Init, evs[..n]), evs[n])
  }

  ghost predicate Live(s: State, i: nat, l: nat) {
    exists h :: 0 <= h < |s.handles| && !s.handles[h].used && s.handles[h].entry == i && s.handles[h].listener == l
  }

  ghost predicate NoTwins(s: State) {
    forall g, h :: 0 <= g < h < |s.handles| && !s.handles[g].used && !s.handles[h].used
      ==> s.handles[g].entry != s.handles[h].entry || s.handles[g].listener != s.handles[h].listener
  }

  /** Whoever has listeners is registered under its address. */
  ghost predicate Registered(s: State) {
    forall i :: 0 <= i < |s.entries| && s.entries[i].listeners != {}
      ==> s.entries[i].key in s.active && s.active[s.entries[i].key] == i
  }

  /** Listeners are exactly the uncalled handles, no two alike, and whoever has listeners is registered. */
  ghost predicate Shared(s: State) {
    && (forall i, l :: 0 <= i < |s.entries| ==> (l in s.entries[i].listeners <==> Live(s, i, l)))
    && NoTwins(s)
    && Registered(s)
  }

  lemma SameHandlesKeepShared(s: State, t: State)
    requires Shared(s) && t.handles == s.handles && t.active == s.active && |t.entries| == |s.entries|
    requires forall i :: 0 <= i < |s.entries| ==>
          t.entries[i].listeners == s.entries[i].listeners && t.entries[i].key == s.entries[i].key
    ensures Shared(t)
  {
    forall i, l | 0 <= i < |t.entries| ensures l in t.entries[i].listeners <==> Live(t, i, l) {
      assert Live(s, i, l) <==> Live(t, i, l);
    }
  }

  lemma SubscribeKeepsLive(s: State, key: nat, listener: nat, i: nat, l: nat)
    requires Inv(s)
    ensures var n := if key in s.active then s.active[key] else |s.entries|;
      Live(Next(s, Subscribe(key, listener)), i, l) <==> Live(s, i, l) || (i == n && l == listener)
  {
    var t := Next(s, Subscribe(key, listener));
    var added := |s.handles|;
    if Live(s, i, l) {
      var h :| 0 <= h < |s.handles| && !s.handles[h].used && s.handles[h].entry == i && s.handles[h].listener == l;
      assert t.handles[h] == s.handles[h];
    }
    if Live(t, i, l) {
      var h :| 0 <= h < |t.handles| && !t.handles[h].used && t.handles[h].entry == i && t.handles[h].listener == l;
      assert h < added ==> t.handles[h] == s.handles[h];
    }
    assert !t.handles[added].used;
  }

  lemma SubscribeKeepsShared(s: State, key: nat, listener: nat)
    requires Inv(s) && Shared(s) && Disciplined(s, Subscribe(key, listener))
    ensures Shared(Next(s, Subscribe(key, listener)))
  {
    var t := Next(s, Subscribe(key, listener));
    var n := if key in s.active then s.active[key] else |s.entries|;
    var added := |s.handles|;
    forall i, l | 0 <= i < |t.entries| ensures l in t.entries[i].listeners <==> Live(t, i, l) {
      SubscribeKeepsLive(s, key, listener, i, l);
      if i == |s.entries| && Live(s, i, l) { assert false; }
    }
    forall g | 0 <= g < added && !t.handles[g].used
      ensures t.handles[g].entry != n || t.handles[g].listener != listener
    {
      assert t.handles[g] == s.handles[g];
      if t.handles[g].entry == n && n < |s.entries| {
        assert Live(s, n, t.handles[g].listener);
      }
    }
  }

  lemma UnsubscribeKeepsLive(s: State, h: nat, i: nat, l: nat)
    requires h < |s.handles| && !s.handles[h].used && s.handles[h].entry < |s.entries| && NoTwins(s)
    ensures Live(Next(s, Unsubscribe(h)), i, l)
      <==> Live(s, i, l) && !(i == s.handles[h].entry && l == s.handles[h].listener)
  {
    var t := Next(s, Unsubscribe(h));
    if Live(t, i, l) {
      var g :| 0 <= g < |t.handles| && !t.handles[g].used && t.handles[g].entry == i && t.handles[g].listener == l;
      assert g != h && s.handles[g] == t.handles[g];
    }
    if Live(s, i, l) && !(i == s.handles[h].entry && l == s.handles[h].listener) {
      var g :| 0 <= g < |s.handles| && !s.handles[g].used && s.handles[g].entry == i && s.handles[g].listener == l;
      assert t.handles[g] == s.handles[g];
    }
  }

  lemma UnsubscribeKeepsShared(s: State, h: nat)
    requires Inv(s) && Shared(s) && h < |s.handles| && !s.handles[h].used
    ensures Shared(Next(s, Unsubscribe(h)))
  {
    var t := Next(s, Unsubscribe(h));
    var n := s.handles[h].entry;
    assert Live(s, n, s.handles[h].listener);
    forall i, l | 0 <= i < |t.entries| ensures l in t.entries[i].listeners <==> Live(t, i, l) {
      UnsubscribeKeepsLive(s, h, i, l);
    }
    forall i | 0 <= i < |t.entries| && t.entries[i].listeners != {}
      ensures t.entries[i].key in t.active && t.active[t.entries[i].key] == i
    {
      assert s.entries[i].listeners != {} && s.entries[n].listeners != {};
    }
  }

  /** The other events concern subscriptions, not who listens. */
  lemma OtherEventsKeepListeners(s: State, ev: Event)
    requires !ev.Subscribe? && !ev.Unsubscribe?
    ensures var t := Next(s, ev);
      && t.handles == s.handles && t.active == s.active && |t.entries| == |s.entries|
      && forall i :: 0 <= i < |s.entries| ==>
          t.entries[i].listeners == s.entries[i].listeners && t.entries[i].key == s.entries[i].key
  {
  }

  lemma NextKeepsShared(s: State, ev: Event)
    requires Inv(s) && Shared(s) && Disciplined(s, ev)
    ensures Shared(Next(s, ev))
  {
    if ev.Subscribe? {
      SubscribeKeepsShared(s, ev.key, ev.listener);
    } else if ev.Unsubscribe? {
      if ev.handle < |s.handles| { UnsubscribeKeepsShared(s, ev.handle); }
    } else {
      OtherEventsKeepListeners(s, ev);
      SameHandlesKeepShared(s, Next(s, ev));
    }
  }

  lemma {:induction false} DisciplinedRunShares(evs: seq<Event>)
    requires DisciplinedRun(evs)
    ensures Shared(RunAll(Init, evs))
  {
    if evs != [] {
      var rest := evs[..|evs| - 1];
      forall n | 0 <= n < |rest| ensures Disciplined(RunAll(Init, rest[..n]), rest[n]) {
        assert rest[..n] == evs[..n];
      }
      DisciplinedRunShares(rest);
      EveryRunKeepsInv(rest);
      NextKeepsShared(RunAll(Init, rest), evs[|evs| - 1]);
    }
  }

  /** Every consumer of one address shares one entry, so an address never holds two subscriptions. */
  lemma OneSubscriptionPerAddress(evs: seq<Event>, i: nat, j: nat)
    requires DisciplinedRun(evs) && i < |RunAll(Init, evs).entries| && j < |RunAll(Init, evs).entries|
    requires var s := RunAll(Init, evs);
      s.entries[i].key == s.entries[j].key && s.entries[i].id.Some? && s.entries[j].id.Some?
    ensures i == j
  {
    EveryRunKeepsInv(evs);
    DisciplinedRunShares(evs);
    RegisteredMeansOne(RunAll(Init, evs), i, j);
  }

  // ----- exactly when sharing breaks -----

  /** Every uncalled handle's listener is still on its entry. */
  ghost predicate Served(s: State) {
    forall h :: 0 <= h < |s.handles| && !s.handles[h].used
      ==> s.handles[h].entry < |s.entries| && s.handles[h].listener in s.entries[s.handles[h].entry].listeners
  }

  /** Calling a handle leaves listeners behind, or unregisters nobody, or only its own entry. */
  predicate KeepsRegistration(s: State, ev: Event) {
    ev.Unsubscribe? && ev.handle < |s.handles| && s.handles[ev.handle].entry < |s.entries| ==>
      var i := s.handles[ev.handle].entry;
      var e := s.entries[i];
      e.listeners - {s.handles[ev.handle].listener} != {} || e.key !in s.active || s.active[e.key] == i
  }

  /** No other uncalled handle stands for the same listener of the same entry. */
  predicate KeepsService(s: State, ev: Event) {
    ev.Unsubscribe? && ev.handle < |s.handles| && s.handles[ev.handle].entry < |s.entries| ==>
      forall g :: 0 <= g < |s.handles| && g != ev.handle && !s.handles[g].used ==>
        s.handles[g].entry != s.handles[ev.handle].entry || s.handles[g].listener != s.handles[ev.handle].listener
  }

  /** A step breaks registration exactly when it calls a handle whose entry keeps no listener and whose
      address has meanwhile passed to another entry. */
  lemma RegisteredIff(s: State, ev: Event)
    requires Inv(s) && Registered(s)
    ensures Registered(Next(s, ev)) <==> KeepsRegistration(s, ev)
  {
    var t := Next(s, ev);
    if ev.Unsubscribe? {
      if ev.handle < |s.handles| {
        var i := s.handles[ev.handle].entry;
        var k := s.entries[i].key;
        if !KeepsRegistration(s, ev) {
          var j := s.active[k];
          assert s.entries[j].key == k && s.entries[j].listeners != {};
          assert t.entries[j] == s.entries[j] && k !in t.active;
        }
      }
    } else if ev.Subscribe? {
      var n := if ev.key in s.active then s.active[ev.key] else |s.entries|;
      forall i | 0 <= i < |t.entries| && t.entries[i].listeners != {}
        ensures t.entries[i].key in t.active && t.active[t.entries[i].key] == i
      {
        if i != n { assert t.entries[i] == s.entries[i]; }
      }
    } else {
      OtherEventsKeepListeners(s, ev);
    }
  }

  /** A step leaves a live handle without its listener exactly when it calls that handle's twin. */
  lemma ServedIff(s: State, ev: Event)
    requires Inv(s) && Served(s)
    ensures Served(Next(s, ev)) <==> KeepsService(s, ev)
  {
    var t := Next(s, ev);
    if ev.Unsubscribe? {
      if ev.handle < |s.handles| {
        forall g | 0 <= g < |s.handles| && g != ev.handle ensures t.handles[g] == s.handles[g] {}
      }
    } else if ev.Subscribe? {
      forall h | 0 <= h < |t.handles| && !t.handles[h].used
        ensures t.handles[h].entry < |t.entries| && t.handles[h].listener in t.entries[t.handles[h].entry].listeners
      {
        if h < |s.handles| { assert t.handles[h] == s.handles[h]; }
      }
    } else {
      OtherEventsKeepListeners(s, ev);
    }
  }

  ghost predicate Sharing(s: State) { Registered(s) && Served(s) }

  predicate KeepsSharing(s: State, ev: Event) { KeepsRegistration(s, ev) && KeepsService(s, ev) }

  lemma {:induction false} SafeRunShares(evs: seq<Event>, n: nat)
    requires n <= |evs| && forall m :: 0 <= m < |evs| ==> KeepsSharing(RunAll(Init, evs[..m]), evs[m])
    ensures Sharing(RunAll(Init, evs[..n]))
  {
    if n > 0 {
      SafeRunShares(evs, n - 1);
      assert evs[..n][..n - 1] == evs[..n - 1];
      EveryRunKeepsInv(evs[..n - 1]);
      RegisteredIff(RunAll(Init, evs[..n - 1]), evs[n - 1]);
      ServedIff(RunAll(Init, evs[..n - 1]), evs[n - 1]);
    }
  }

  /** A run keeps sharing throughout if and only if none of its calls is one of those two. */
  lemma SharingIff(evs: seq<Event>)
    ensures (forall n :: 0 <= n <= |evs| ==> Sharing(RunAll(Init, evs[..n])))
      <==> (forall n :: 0 <= n < |evs| ==> KeepsSharing(RunAll(Init, evs[..n]), evs[n]))
  {
    if forall n :: 0 <= n < |evs| ==> KeepsSharing(RunAll(Init, evs[..n]), evs[n]) {
      forall n | 0 <= n <= |evs| ensures Sharing(RunAll(Init, evs[..n])) { SafeRunShares(evs, n); }
    }
    if forall n :: 0 <= n <= |evs| ==> Sharing(RunAll(Init, evs[..n])) {
      forall n | 0 <= n < |evs| ensures KeepsSharing(RunAll(Init, evs[..n]), evs[n]) {
        assert evs[..n + 1][..n] == evs[..n];
        assert Sharing(RunAll(Init, evs[..n])) && Sharing(RunAll(Init, evs[..n + 1]));
        EveryRunKeepsInv(evs[..n]);
        RegisteredIff(RunAll(Init, evs[..n]), evs[n]);
        ServedIff(RunAll(Init, evs[..n]), evs[n]);
      }
    }
  }

  /** While registration holds, an address has one subscription at most. */
  lemma RegisteredMeansOne(s: State, i: nat, j: nat)
    requires Inv(s) && Registered(s) && i < |s.entries| && j < |s.entries|
    requires s.entries[i].key == s.entries[j].key && s.entries[i].id.Some? && s.entries[j].id.Some?
    ensures i == j
  {
    assert EntryInv(s.entries[i]) && EntryInv(s.entries[j]);
  }

  lemma RunSnoc(evs: seq<Event>, ev: Event)
    ensures RunAll(Init, evs + [ev]) == Next(RunAll(Init, evs), ev)
  {
    assert (evs + [ev])[..|evs|] == evs;
  }

  const Orphan: Entry := Entry(1, {}, None, InFlight, false, 1000, {})

  lemma ReusedHandleFirst()
    ensures Next(Next(Init, Subscribe(1, 1)), Unsubscribe(0)) == State(map[], [Orphan], [Handle(0, 1, true)])
  {
    var s1 := Next(Init, Subscribe(1, 1));
    assert {} + {1} == {1};
    assert s1.active == map[1 := 0] && s1.handles == [Handle(0, 1, false)];
    assert s1.entries == [Orphan.(listeners := {1})];
    var s2 := Next(s1, Unsubscribe(0));
    assert s2.active == map[] && s2.handles == [Handle(0, 1, true)] && s2.entries == [Orphan];
  }

  lemma ReusedHandleSecond()
    ensures Next(State(map[], [Orphan], [Handle(0, 1, true)]), Subscribe(1, 2))
      == State(map[1 := 1], [Orphan, Orphan.(listeners := {2})], [Handle(0, 1, true), Handle(1, 2, false)])
  {
    var s3 := Next(State(map[], [Orphan], [Handle(0, 1, true)]), Subscribe(1, 2));
    assert {} + {2} == {2};
    assert s3.active == map[1 := 1] && s3.handles == [Handle(0, 1, true), Handle(1, 2, false)];
    assert s3.entries == [Orphan, Orphan.(listeners := {2})];
  }

  lemma ReusedHandlePrefix()
    ensures RunAll(Init, [Subscribe(1, 1), Unsubscribe(0), Subscribe(1, 2)])
      == State(map[1 := 1], [Orphan, Orphan.(listeners := {2})], [Handle(0, 1, true), Handle(1, 2, false)])
  {
    RunSnoc([], Subscribe(1, 1));
    RunSnoc([Subscribe(1, 1)], Unsubscribe(0));
    RunSnoc([Subscribe(1, 1), Unsubscribe(0)], Subscribe(1, 2));
    assert [] + [Subscribe(1, 1)] == [Subscribe(1, 1)];
    assert [Subscribe(1, 1)] + [Unsubscribe(0)] == [Subscribe(1, 1), Unsubscribe(0)];
    assert [Subscribe(1, 1), Unsubscribe(0)] + [Subscribe(1, 2)] == [Subscribe(1, 1), Unsubscribe(0), Subscribe(1, 2)];
    ReusedHandleFirst();
    ReusedHandleSecond();
  }

  /** The discipline is needed: a handle called twice unregisters the next subscriber's entry, and the
      address ends with two subscriptions. */
  lemma ReusedHandleSplitsAddress()
    ensures
      var s := RunAll(Init, [Subscribe(1, 1), Unsubscribe(0), Subscribe(1, 2)]);
      var t := Next(Next(Next(Next(s, Unsubscribe(0)), Subscribe(1, 3)), Resolve(1, 8)), Resolve(2, 9));
      && |t.entries| == 3 && t.entries[1].key == t.entries[2].key
      && t.entries[1].id == Some(8) && t.entries[2].id == Some(9)
  {
    ReusedHandlePrefix();
    var s := RunAll(Init, [Subscribe(1, 1), Unsubscribe(0), Subscribe(1, 2)]);
    var s4 := Next(s, Unsubscribe(0));
    assert s4.active == map[] && s4.entries == s.entries;
  }

  lemma TwinFirst()
    ensures Next(Next(Init, Subscribe(1, 1)), Subscribe(1, 1))
      == State(map[1 := 0], [Orphan.(listeners := {1})], [Handle(0, 1, false), Handle(0, 1, false)])
  {
    var s1 := Next(Init, Subscribe(1, 1));
    assert {} + {1} == {1} && {1} + {1} == {1};
    assert s1.active == map[1 := 0] && s1.handles == [Handle(0, 1, false)];
    assert s1.entries == [Orphan.(listeners := {1})];
    var s2 := Next(s1, Subscribe(1, 1));
    assert s2.active == map[1 := 0] && s2.entries == s1.entries;
    assert s2.handles == [Handle(0, 1, false), Handle(0, 1, false)];
  }

  /** The other half is needed too: one listener registered twice has two handles, and calling the first
      leaves the second live with its entry unregistered and without listeners. */
  lemma TwinListenerLosesService()
    ensures var s := Next(Next(Next(Init, Subscribe(1, 1)), Subscribe(1, 1)), Unsubscribe(0));
      |s.handles| == 2 && s.handles[1] == Handle(0, 1, false) && s.active == map[] && s.entries == [Orphan]
  {
    TwinFirst();
    var s2 := Next(Next(Init, Subscribe(1, 1)), Subscribe(1, 1));
    var s := Next(s2, Unsubscribe(0));
    assert {1} - {1} == {};
    assert s.entries == [Orphan] && s.active == map[];
  }
}
