/**
 * `refreshMiner` and the account-change handler of Frontend/src/chain/mine-page.js: single-flight wallet
 * reads that may resolve after the wallet has been switched away, and back again.
 */
module WalletRefresh {
  import opened Common

  datatype Progress = Reading | Settled | Finished    // settled: its `finally` has not run yet

  /** One wallet read: for whom, under which refresh id, and at which step it began. */
  datatype Read = Read(account: nat, requestId: nat, begun: nat, progress: Progress)

  /** Balances on display and the read that supplied them. */
  datatype Shown = Shown(read: nat, balances: nat)

  datatype State = State(
    account: Option<nat>,
    shown: Option<Shown>,         // None: cleared by clearMinerState
    refreshId: nat,
    request: Option<nat>,
    dirty: bool,
    queued: nat,                  // refreshes waiting in the microtask queue
    log: seq<Read>,
    step: nat,
    switched: nat,                // step of the last account change
    wanted: Option<nat>)          // step of the last refresh asked for since then

  datatype Event =
    | Refresh
    | Switch(account: Option<nat>)
    | Succeed(read: nat, balances: nat)
    | Fail(read: nat)
    | Settle(read: nat)                                // the `finally` callback
    | Microtask                                        // a queued refresh runs

  function Refreshed(s: State): State {
    if s.account.None? then s.(shown := None, wanted := None)
    else if s.request.Some? && s.request.value < |s.log| && s.log[s.request.value].account == s.account.value
    then s.(dirty := true, wanted := Some(s.step))
    else
      s.(refreshId := s.refreshId + 1,
         log := s.log + [Read(s.account.value, s.refreshId + 1, s.step, Reading)],
         request := Some(|s.log|),
         wanted := Some(s.step))
  }

  function Cleared(s: State, account: Option<nat>): State {
    s.(account := account, refreshId := s.refreshId + 1, dirty := false, shown := None, switched := s.step,
       wanted := None)
  }

  function Switched(s: State, account: Option<nat>): State { Refreshed(Cleared(s, account)) }

  predicate Pending(s: State, i: nat, p: Progress) { i < |s.log| && s.log[i].progress == p }

  function Mark(s: State, i: nat, p: Progress): State
    requires i < |s.log|
  {
    s.(log := s.log[i := s.log[i].(progress := p)])
  }

  function React(s: State, e: Event): State {
    match e
    case Refresh => Refreshed(s)
    case Switch(account) => Switched(s, account)
    case Succeed(i, balances) =>
      if !Pending(s, i, Reading) then s
      else if Some(s.log[i].account) == s.account && s.log[i].requestId == s.refreshId
      then Mark(s, i, Settled).(shown := Some(Shown(i, balances)))
      else Mark(s, i, Settled)
    case Fail(i) => if Pending(s, i, Reading) then Mark(s, i, Settled) else s
    case Settle(i) =>
      if !Pending(s, i, Settled) then s
      else if s.request != Some(i) then Mark(s, i, Finished)
      else if s.dirty && s.account == Some(s.log[i].account)
      then Mark(s, i, Finished).(request := None, dirty := false, queued := s.queued + 1)
      else Mark(s, i, Finished).(request := None)
    case Microtask => if s.queued > 0 then Refreshed(s.(queued := s.queued - 1)) else s
  }

  function Next(s: State, e: Event): State { React(s, e).(step := s.step + 1) }

  const Init: State := State(None, None, 0, None, false, 0, [], 0, 0, None)

  function Run(es: seq<Event>): State {
    if es == [] then Init else Next(Run(es[..|es| - 1]), es[|es| - 1])
  }

  // ----- the page's own variables -----

  class MinePage {
    var account: Option<nat>
    var shown: Option<Shown>
    var minerRefreshId: nat
    var minerRefreshRequest: Option<nat>
    var minerRefreshDirty: bool
    var queued: nat
    var wallet: seq<Read>
    var step: nat
    ghost var switched: nat
    ghost var wanted: Option<nat>

    ghost function View(): State reads this {
      State(account, shown, minerRefreshId, minerRefreshRequest, minerRefreshDirty, queued, wallet, step, switched,
            wanted)
    }

    /** Exactly the invariant of every interleaving. */
    ghost predicate Valid() reads this { Inv(View()) }

    constructor ()
      ensures Valid() && View() == Init
    {
      account, shown, minerRefreshId, minerRefreshRequest := None, None, 0, None;
      minerRefreshDirty, queued, wallet, step := false, 0, [], 0;
      switched, wanted := 0, None;
    }

    /** The body of `refreshMiner`, also run from inside other handlers. */
    method StartRefresh()
      requires minerRefreshRequest.Some? ==> minerRefreshRequest.value < |wallet|
      modifies this
      ensures View() == Refreshed(old(View()))
    {
      if account.None? {
        shown := None;
        wanted := None;
        return;
      }
      wanted := Some(step);
      if minerRefreshRequest.Some? && wallet[minerRefreshRequest.value].account == account.value {
        minerRefreshDirty := true;
        return;
      }
      minerRefreshId := minerRefreshId + 1;
      minerRefreshRequest := Some(|wallet|);
      wallet := wallet + [Read(account.value, minerRefreshId, step, Reading)];
    }

    method RefreshMiner()
      requires Valid()
      modifies this
      ensures Valid() && View() == Next(old(View()), Refresh)
    {
      NextKeepsInv(View(), Refresh);
      StartRefresh();
      step := step + 1;
    }

    /** What the handler does before asking for a refresh. */
    method ClearForAccount(next: Option<nat>)
      modifies this
      ensures View() == Cleared(old(View()), next)
    {
      account := next;
      minerRefreshId := minerRefreshId + 1;
      minerRefreshDirty := false;
      shown := None;
      switched, wanted := step, None;
    }

    method OnAccountChange(next: Option<nat>)
      requires Valid()
      modifies this
      ensures Valid() && View() == Next(old(View()), Switch(next))
    {
      NextKeepsInv(View(), Switch(next));
      ClearForAccount(next);
      StartRefresh();
      step := step + 1;
    }

    method OnRead(i: nat, balances: nat)
      requires Valid() && Pending(View(), i, Reading)
      modifies this
      ensures Valid() && View() == Next(old(View()), Succeed(i, balances))
    {
      NextKeepsInv(View(), Succeed(i, balances));
      wallet := wallet[i := wallet[i].(progress := Settled)];
      if account == Some(wallet[i].account) && wallet[i].requestId == minerRefreshId {
        shown := Some(Shown(i, balances));
      }
      step := step + 1;
    }

    method OnReadFailed(i: nat)
      requires Valid() && Pending(View(), i, Reading)
      modifies this
      ensures Valid() && View() == Next(old(View()), Fail(i))
    {
      NextKeepsInv(View(), Fail(i));
      wallet := wallet[i := wallet[i].(progress := Settled)];
      step := step + 1;
    }

    method OnFinally(i: nat)
      requires Valid() && Pending(View(), i, Settled)
      modifies this
      ensures Valid() && View() == Next(old(View()), Settle(i))
    {
      NextKeepsInv(View(), Settle(i));
      wallet := wallet[i := wallet[i].(progress := Finished)];
      step := step + 1;
      if minerRefreshRequest != Some(i) { return; }
      minerRefreshRequest := None;
      if minerRefreshDirty && account == Some(wallet[i].account) {
        minerRefreshDirty := false;
        queued := queued + 1;
      }
    }

    method OnMicrotask()
      requires Valid() && queued > 0
      modifies this
      ensures Valid() && View() == Next(old(View()), Microtask)
    {
      NextKeepsInv(View(), Microtask);
      queued := queued - 1;
      StartRefresh();
      step := step + 1;
    }
  }

  // ----- every interleaving -----

  /** A read begun at or after step `n` for the connected account. */
  ghost predicate ReadSince(s: State, n: nat) {
    exists i :: 0 <= i < |s.log| && s.log[i].begun >= n && Some(s.log[i].account) == s.account
  }

  /** The last refresh asked for has been read, or is certain to be. */
  ghost predicate Owed(s: State) {
    s.wanted.Some? ==>
      || ReadSince(s, s.wanted.value)
      || s.queued > 0
      || (s.dirty && s.request.Some? && s.request.value < |s.log|
          && Some(s.log[s.request.value].account) == s.account)
  }

  /** A read for the connected account, begun since the account was switched to. */
  ghost predicate Current(s: State, i: nat) {
    i < |s.log| && Some(s.log[i].account) == s.account && s.log[i].begun >= s.switched
  }

  ghost predicate Base(s: State) {
    && (s.switched == 0 || s.switched < s.step)
    && (s.request.Some? ==> s.request.value < |s.log| && s.log[s.request.value].progress != Finished)
    && (forall i :: 0 <= i < |s.log| ==> s.log[i].requestId <= s.refreshId && s.log[i].begun < s.step)
    // the current refresh id belongs to a read begun for this account since its last change
    && (forall i :: 0 <= i < |s.log| && s.log[i].requestId == s.refreshId
          ==> Current(s, i))
    && (s.shown.Some? ==> Current(s, s.shown.value.read))
  }

  ghost predicate Inv(s: State) { Base(s) && Owed(s) }

  lemma RefreshedKeepsInv(s: State)
    requires Base(s)
    ensures Inv(Refreshed(s).(step := s.step + 1))
  {
    var t := Refreshed(s);
    if t.log != s.log {
      assert t.log[|s.log|].begun >= s.step;
    }
  }

  lemma SwitchKeepsInv(s: State, account: Option<nat>)
    requires Inv(s)
    ensures Inv(Next(s, Switch(account)))
  {
    var t := s.(account := account, refreshId := s.refreshId + 1, dirty := false, shown := None,
                switched := s.step, wanted := None);
    var r := Refreshed(t);
    if r.log != s.log {
      assert r.log[|s.log|].begun >= s.step;
    }
  }

  lemma MarkKeepsReadSince(s: State, i: nat, p: Progress, n: nat)
    requires i < |s.log|
    ensures ReadSince(Mark(s, i, p), n) <==> ReadSince(s, n)
  {
    var t := Mark(s, i, p);
    if ReadSince(s, n) {
      var j :| 0 <= j < |s.log| && s.log[j].begun >= n && Some(s.log[j].account) == s.account;
      assert t.log[j].begun >= n;
    }
    if ReadSince(t, n) {
      var j :| 0 <= j < |t.log| && t.log[j].begun >= n && Some(t.log[j].account) == t.account;
      assert s.log[j].begun >= n;
    }
  }

  lemma SameReadSince(s: State, t: State, n: nat)
    requires s.log == t.log && s.account == t.account
    ensures ReadSince(s, n) <==> ReadSince(t, n)
  {
  }

  /** A handler that only advances one read's progress. */
  lemma ProgressKeepsOwed(s: State, t: State, i: nat, p: Progress)
    requires Owed(s) && i < |s.log|
    requires t.log == Mark(s, i, p).log && t.account == s.account && t.wanted == s.wanted
    requires
      || t.queued > 0
      || (t.queued == s.queued && t.dirty == s.dirty && t.request == s.request)
      || (t.queued == s.queued && s.request == Some(i) && !(s.dirty && s.account == Some(s.log[i].account)))
    ensures Owed(t)
  {
    if s.wanted.Some? {
      MarkKeepsReadSince(s, i, p, s.wanted.value);
      SameReadSince(Mark(s, i, p), t, s.wanted.value);
    }
  }

  lemma MarkKeepsBase(s: State, i: nat, p: Progress)
    requires Base(s) && i < |s.log| && (p == Finished ==> s.request != Some(i))
    ensures Base(Mark(s, i, p))
  {
  }

  lemma SucceedKeepsInv(s: State, i: nat, balances: nat)
    requires Inv(s)
    ensures Inv(Next(s, Succeed(i, balances)))
  {
    if Pending(s, i, Reading) {
      MarkKeepsBase(s, i, Settled);
      ProgressKeepsOwed(s, Next(s, Succeed(i, balances)), i, Settled);
    } else if s.wanted.Some? {
      SameReadSince(s, Next(s, Succeed(i, balances)), s.wanted.value);
    }
  }

  lemma FailKeepsInv(s: State, i: nat)
    requires Inv(s)
    ensures Inv(Next(s, Fail(i)))
  {
    if Pending(s, i, Reading) {
      MarkKeepsBase(s, i, Settled);
      ProgressKeepsOwed(s, Next(s, Fail(i)), i, Settled);
    } else if s.wanted.Some? {
      SameReadSince(s, Next(s, Fail(i)), s.wanted.value);
    }
  }

  lemma SettleKeepsBase(s: State, i: nat)
    requires Base(s) && Pending(s, i, Settled)
    ensures Base(Next(s, Settle(i)))
  {
    var released := if s.request == Some(i) then s.(request := None) else s;
    MarkKeepsBase(released, i, Finished);
    BaseOnly(Mark(released, i, Finished), Next(s, Settle(i)));
  }

  lemma BaseOnly(s: State, t: State)
    requires Base(s) && t.step == s.step + 1
    requires t == s.(step := t.step, dirty := t.dirty, queued := t.queued, wanted := t.wanted)
    ensures Base(t)
  {
  }

  lemma SettleKeepsInv(s: State, i: nat)
    requires Inv(s)
    ensures Inv(Next(s, Settle(i)))
  {
    if Pending(s, i, Settled) {
      SettleKeepsBase(s, i);
      ProgressKeepsOwed(s, Next(s, Settle(i)), i, Finished);
    } else {
      BaseOnly(s, Next(s, Settle(i)));
      if s.wanted.Some? { SameReadSince(s, Next(s, Settle(i)), s.wanted.value); }
    }
  }

  lemma MicrotaskKeepsInv(s: State)
    requires Inv(s)
    ensures Inv(Next(s, Microtask))
  {
    if s.queued > 0 {
      RefreshedKeepsInv(s.(queued := s.queued - 1));
    } else if s.wanted.Some? {
      SameReadSince(s, Next(s, Microtask), s.wanted.value);
    }
  }

  lemma NextKeepsInv(s: State, e: Event)
    requires Inv(s)
    ensures Inv(Next(s, e))
  {
    match e
    case Refresh => RefreshedKeepsInv(s);
    case Switch(account) => SwitchKeepsInv(s, account);
    case Succeed(i, balances) => SucceedKeepsInv(s, i, balances);
    case Fail(i) => FailKeepsInv(s, i);
    case Settle(i) => SettleKeepsInv(s, i);
    case Microtask => MicrotaskKeepsInv(s);
  }

  lemma {:induction false} RunKeepsInv(es: seq<Event>)
    ensures Inv(Run(es))
  {
    if es != [] {
      RunKeepsInv(es[..|es| - 1]);
      NextKeepsInv(Run(es[..|es| - 1]), es[|es| - 1]);
    }
  }

  /** Which events move the bookkeeping, and to where. */
  lemma Bookkeeping(s: State, e: Event)
    ensures var t := Next(s, e);
      && t.step == s.step + 1
      && t.switched == (if e.Switch? then s.step else s.switched)
      && t.wanted == (if e.Refresh? || e.Switch? || (e.Microtask? && s.queued > 0)
                      then (if t.account.Some? then Some(s.step) else None) else s.wanted)
  {
  }

  /** Step of the last account change in a run. */
  function LastSwitch(es: seq<Event>): nat {
    if es == [] then 0
    else if es[|es| - 1].Switch? then |es| - 1
    else LastSwitch(es[..|es| - 1])
  }

  lemma {:induction false} SwitchedIsLastSwitch(es: seq<Event>)
    ensures Run(es).step == |es| && Run(es).switched == LastSwitch(es)
  {
    if es != [] {
      SwitchedIsLastSwitch(es[..|es| - 1]);
      Bookkeeping(Run(es[..|es| - 1]), es[|es| - 1]);
    }
  }

  /** Published balances are either cleared or come from a read for the connected account, begun since
      that account was last switched to: switching A to B and back to A never revives an old read. */
  lemma ShownBelongsToAccount(es: seq<Event>)
    ensures var s := Run(es);
      s.shown.Some? ==>
        && s.shown.value.read < |s.log|
        && s.account == Some(s.log[s.shown.value.read].account)
        && s.log[s.shown.value.read].begun >= LastSwitch(es)
  {
    RunKeepsInv(es);
    SwitchedIsLastSwitch(es);
  }

  /** The step of the last refresh asked for while this account is connected. */
  function LastWanted(es: seq<Event>): Option<nat> {
    if es == [] then None
    else
      var last, before := es[|es| - 1], es[..|es| - 1];
      if last.Refresh? || last.Switch? || (last.Microtask? && Run(before).queued > 0)
      then (if Run(es).account.Some? then Some(|es| - 1) else None)
      else LastWanted(before)
  }

  lemma {:induction false} WantedIsLastWanted(es: seq<Event>)
    ensures Run(es).wanted == LastWanted(es)
  {
    if es != [] {
      WantedIsLastWanted(es[..|es| - 1]);
      SwitchedIsLastSwitch(es[..|es| - 1]);
      Bookkeeping(Run(es[..|es| - 1]), es[|es| - 1]);
    }
  }

  /** A refresh asked for, even in the middle of another read, is always followed by a fresh read unless
      the account changes: when nothing is under way any more, a read begun since then exists. */
  lemma RefreshIsNeverLost(es: seq<Event>)
    requires Run(es).request.None? && Run(es).queued == 0 && LastWanted(es).Some?
    ensures ReadSince(Run(es), LastWanted(es).value)
  {
    RunKeepsInv(es);
    WantedIsLastWanted(es);
  }

  // ----- reads do get shown -----

  /** Request ids grow with the reads; since the last switch all reads are for the connected account, the last
      one holds the current id, and one that has not finished is the registered request. */
  ghost predicate Order(s: State) {
    && (forall j, k :: 0 <= j < k < |s.log| ==> s.log[j].requestId < s.log[k].requestId)
    && (s.log != [] && s.log[|s.log| - 1].begun >= s.switched ==> s.log[|s.log| - 1].requestId == s.refreshId)
    && (forall j :: 0 <= j < |s.log| && s.log[j].begun >= s.switched ==> Some(s.log[j].account) == s.account)
    && (forall j :: 0 <= j < |s.log| && s.log[j].begun >= s.switched && s.log[j].progress != Finished
          ==> s.request == Some(j))
    && (s.shown.Some? ==> s.shown.value.read < |s.log| && s.log[s.shown.value.read].progress != Reading)
  }

  /** Only these fields matter. */
  lemma {:induction false} OrderOnly(s: State, t: State)
    requires Order(s) && t.log == s.log && t.switched == s.switched && t.refreshId == s.refreshId
    requires t.account == s.account && t.request == s.request && (t.shown == s.shown || t.shown.None?)
    ensures Order(t)
  {
  }

  /** A new read, begun when every earlier one since the last switch has finished. */
  lemma {:induction false} BegunKeepsOrder(s: State, t: State)
    requires Order(s) && (forall j :: 0 <= j < |s.log| ==> s.log[j].requestId <= s.refreshId)
    requires forall j :: 0 <= j < |s.log| && s.log[j].begun >= s.switched ==> s.log[j].progress == Finished
    requires s.account.Some? && t.refreshId == s.refreshId + 1 && t.request == Some(|s.log|)
    requires t.log == s.log + [Read(s.account.value, t.refreshId, s.step, Reading)]
    requires t.switched == s.switched && t.account == s.account && t.shown == s.shown
    ensures Order(t)
  {
    assert forall j :: 0 <= j < |s.log| ==> t.log[j] == s.log[j];
  }

  predicate Joins(s: State) {
    s.account.Some? && s.request.Some? && s.request.value < |s.log|
    && s.log[s.request.value].account == s.account.value
  }

  lemma {:induction false} RefreshedKeepsOrder(s: State)
    requires Order(s) && (forall j :: 0 <= j < |s.log| ==> s.log[j].requestId <= s.refreshId)
    ensures Order(Refreshed(s))
  {
    if s.account.Some? && !Joins(s) {
      forall j | 0 <= j < |s.log| && s.log[j].begun >= s.switched ensures s.log[j].progress == Finished {
        assert Some(s.log[j].account) == s.account;
      }
      BegunKeepsOrder(s, Refreshed(s));
    } else {
      OrderOnly(s, Refreshed(s));
    }
  }

  lemma {:induction false} ClearedKeepsOrder(s: State, account: Option<nat>)
    requires Base(s) && Order(s)
    ensures Order(Cleared(s, account))
  {
  }

  lemma {:induction false} SwitchKeepsOrder(s: State, account: Option<nat>)
    requires Base(s) && Order(s)
    ensures Order(Next(s, Switch(account)))
  {
    ClearedKeepsOrder(s, account);
    RefreshedKeepsOrder(Cleared(s, account));
    OrderOnly(Switched(s, account), Next(s, Switch(account)));
  }

  lemma {:induction false} MarkKeepsOrder(s: State, i: nat, p: Progress)
    requires Order(s) && i < |s.log| && p != Reading && (p == Finished || s.log[i].progress != Finished)
    ensures Order(Mark(s, i, p))
  {
  }

  lemma {:induction false} SucceedKeepsOrder(s: State, i: nat, balances: nat)
    requires Order(s)
    ensures Order(Next(s, Succeed(i, balances)))
  {
    if Pending(s, i, Reading) {
      MarkKeepsOrder(s, i, Settled);
      var t := Next(s, Succeed(i, balances));
      OrderOnly(Mark(s, i, Settled), t.(shown := s.shown));
    } else {
      OrderOnly(s, Next(s, Succeed(i, balances)));
    }
  }

  lemma {:induction false} SettleKeepsOrder(s: State, i: nat)
    requires Order(s)
    ensures Order(Next(s, Settle(i)))
  {
    if Pending(s, i, Settled) {
      var m, t := Mark(s, i, Finished), Next(s, Settle(i));
      MarkKeepsOrder(s, i, Finished);
      if s.request == Some(i) { ReleasedKeepsOrder(m, i); }
      OrderOnly(if s.request == Some(i) then m.(request := None) else m, t);
    } else {
      OrderOnly(s, Next(s, Settle(i)));
    }
  }

  lemma {:induction false} ReleasedKeepsOrder(s: State, i: nat)
    requires Order(s) && s.request == Some(i) && i < |s.log| && s.log[i].progress == Finished
    ensures Order(s.(request := None))
  {
  }

  lemma {:induction false} NextKeepsOrder(s: State, e: Event)
    requires Inv(s) && Order(s)
    ensures Order(Next(s, e))
  {
    match e
    case Refresh =>
      RefreshedKeepsOrder(s);
      OrderOnly(Refreshed(s), Next(s, e));
    case Switch(account) => SwitchKeepsOrder(s, account);
    case Succeed(i, balances) => SucceedKeepsOrder(s, i, balances);
    case Fail(i) =>
      if Pending(s, i, Reading) {
        MarkKeepsOrder(s, i, Settled);
        OrderOnly(Mark(s, i, Settled), Next(s, e));
      } else {
        OrderOnly(s, Next(s, e));
      }
    case Settle(i) => SettleKeepsOrder(s, i);
    case Microtask =>
      if s.queued > 0 {
        OrderOnly(s, s.(queued := s.queued - 1));
        RefreshedKeepsOrder(s.(queued := s.queued - 1));
        OrderOnly(Refreshed(s.(queued := s.queued - 1)), Next(s, e));
      } else {
        OrderOnly(s, Next(s, e));
      }
  }

  lemma {:induction false} RunKeepsOrder(es: seq<Event>)
    ensures Order(Run(es))
  {
    if es != [] {
      RunKeepsInv(es[..|es| - 1]);
      RunKeepsOrder(es[..|es| - 1]);
      NextKeepsOrder(Run(es[..|es| - 1]), es[|es| - 1]);
    }
  }

  lemma RunSnoc(es: seq<Event>, e: Event)
    ensures Run(es + [e]) == Next(Run(es), e)
  {
    assert (es + [e])[..|es|] == es;
  }

  /** A read in progress that was begun since the last switch, with no other read begun after it, is for the
      connected account, and when it succeeds exactly its balances are on display. */
  lemma {:induction false} ReadIsShown(es: seq<Event>, i: nat, balances: nat)
    requires |Run(es).log| == i + 1 && Run(es).log[i].progress == Reading && Run(es).log[i].begun >= LastSwitch(es)
    ensures Run(es).account == Some(Run(es).log[i].account)
    ensures Run(es + [Succeed(i, balances)]).shown == Some(Shown(i, balances))
  {
    RunKeepsOrder(es);
    SwitchedIsLastSwitch(es);
    RunSnoc(es, Succeed(i, balances));
  }

  /** Neither a switch nor the success of a read later than this one. */
  predicate Quiet(e: Event, read: nat) { !e.Switch? && (e.Succeed? ==> e.read <= read) }

  /** And they stay there until the account is switched or a later read succeeds. */
  lemma {:induction false} ShownUntil(es: seq<Event>, n: nat)
    requires n <= |es| && Run(es[..n]).shown.Some?
    requires forall k :: n <= k < |es| ==> Quiet(es[k], Run(es[..n]).shown.value.read)
    ensures Run(es).shown == Run(es[..n]).shown
    decreases |es|
  {
    if n == |es| {
      assert es[..n] == es;
    } else {
      var rest := es[..|es| - 1];
      assert rest[..n] == es[..n];
      ShownUntil(rest, n);
      RunKeepsInv(rest);
      RunKeepsOrder(rest);
      StaysShown(Run(rest), es[|es| - 1]);
    }
  }

  lemma {:induction false} StaysShown(s: State, e: Event)
    requires Inv(s) && Order(s) && s.shown.Some? && Quiet(e, s.shown.value.read)
    ensures Next(s, e).shown == s.shown
  {
    if e.Succeed? && Pending(s, e.read, Reading) && e.read < s.shown.value.read {
      assert s.log[e.read].requestId < s.log[s.shown.value.read].requestId;
    }
  }

  /** A failed read leaves what is shown alone, and without a wallet nothing is shown. */
  lemma {:induction false} NothingWithoutWallet(es: seq<Event>)
    ensures Run(es).account.None? ==> Run(es).shown.None?
  {
    RunKeepsInv(es);
  }

  /** The account of the last switch is the one connected. */
  function LastAccount(es: seq<Event>): Option<nat> {
    if es == [] then None
    else if es[|es| - 1].Switch? then es[|es| - 1].account
    else LastAccount(es[..|es| - 1])
  }

  lemma {:induction false} AccountIsLast(es: seq<Event>)
    ensures Run(es).account == LastAccount(es)
  {
    if es != [] { AccountIsLast(es[..|es| - 1]); }
  }

  /** Single flight: since the last switch, two reads are never under way together. */
  lemma {:induction false} SingleFlight(es: seq<Event>, i: nat, j: nat)
    requires i < |Run(es).log| && j < |Run(es).log|
    requires Run(es).log[i].begun >= LastSwitch(es) && Run(es).log[j].begun >= LastSwitch(es)
    requires Run(es).log[i].progress == Run(es).log[j].progress == Reading
    ensures i == j
  {
    RunKeepsOrder(es);
    SwitchedIsLastSwitch(es);
  }

  /** Connecting a wallet asks for its balances at once: a read begins, unless one for this wallet is still
      under way from before, which will be followed by another. */
  lemma {:induction false} SwitchStartsRead(es: seq<Event>, account: nat)
    ensures var s, t := Run(es), Run(es + [Switch(Some(account))]);
      && t.shown.None?
      && (|| (|t.log| == |s.log| + 1 && t.log[|s.log|] == Read(account, t.refreshId, |es|, Reading))
          || (t.log == s.log && t.dirty && t.request.Some? && t.request.value < |t.log|
              && t.log[t.request.value].account == account && t.log[t.request.value].progress != Finished))
  {
    RunKeepsInv(es);
    SwitchedIsLastSwitch(es);
    RunSnoc(es, Switch(Some(account)));
  }
}
