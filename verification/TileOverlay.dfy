/**
 * Frontend/src/chain/confirmed-tile-bets.js and the confirmed-tile functions of
 * Frontend/src/chain/mine-page.js: bets the wallet has paid for stay on the board until the chain reads
 * that lag behind have caught up with them.
 */
module TileOverlay {
  import opened Common

  type Bets = s: seq<nat> | |s| == GRID witness seq(GRID, _ => 0)

  function NoBets(): Bets { seq(GRID, _ => 0) }

  /** The round and wallet an overlay, or a stored copy of it, belongs to. */
  datatype Owner = Owner(roundId: nat, account: nat)

  function Max(a: nat, b: nat): nat { if a >= b then a else b }

  /** `mergeConfirmedTileBets`. */
  function Merge(onChain: Bets, local: Bets): (r: Bets)
    ensures forall i :: 0 <= i < GRID ==>
      r[i] >= onChain[i] && r[i] >= local[i] && (r[i] == onChain[i] || r[i] == local[i])
  {
    seq(GRID, i requires 0 <= i < GRID => Max(onChain[i], local[i]))
  }

  // ----- what the two updates compute -----

  /** How often a (1-based) tile number occurs in a submission. */
  function Times(tiles: seq<int>, index: nat): nat {
    if tiles == [] then 0
    else Times(tiles[..|tiles| - 1], index) + if tiles[|tiles| - 1] == index + 1 then 1 else 0
  }

  /** A submitted tile is raised to what was already known, then by the paid amount. */
  function Raised(local: Bets, base: Bets, tiles: seq<int>, amount: nat): Bets {
    seq(GRID, i requires 0 <= i < GRID =>
      var n := Times(tiles, i); if n == 0 then local[i] else Max(local[i], base[i]) + n * amount)
  }

  /** Entries the chain has reached are cleared. */
  function Outstanding(local: Bets, onChain: Bets): Bets {
    seq(GRID, i requires 0 <= i < GRID => if onChain[i] >= local[i] then 0 else local[i])
  }

  // ----- one wallet in one round -----

  datatype View = View(
    owner: Option<Owner>,
    amounts: Bets,
    myBets: Bets,                 // what the board shows
    stored: map<Owner, Bets>)     // localStorage

  /** Storage calls are wrapped in `try`, so each may silently do nothing. */
  datatype Event =
    | Confirm(tiles: seq<int>, amount: nat, writable: bool)
    | ChainRead(onChain: Bets, readable: bool, writable: bool)

  function Confirmed(v: View, me: Owner, tiles: seq<int>, amount: nat, writable: bool): View {
    var local := if v.owner == Some(me) then v.amounts else NoBets();
    var amounts := Raised(local, v.myBets, tiles, amount);
    View(Some(me), amounts, Merge(v.myBets, amounts), if writable then v.stored[me := amounts] else v.stored)
  }

  /** The overlay a reconciliation works on: the one in memory, else the stored one. */
  function Usable(v: View, me: Owner, readable: bool): Option<Bets> {
    if v.owner == Some(me) then Some(v.amounts)
    else if readable && me in v.stored then Some(v.stored[me])
    else None
  }

  function Reconciled(v: View, me: Owner, onChain: Bets, readable: bool, writable: bool): View {
    match Usable(v, me, readable)
    case None => v.(myBets := onChain)
    case Some(local) =>
      var left := Outstanding(local, onChain);
      if left == NoBets() then
        View(None, NoBets(), Merge(onChain, local), if writable then v.stored - {me} else v.stored)
      else
        View(Some(me), left, Merge(onChain, local), if writable then v.stored[me := left] else v.stored)
  }

  function Next(v: View, me: Owner, e: Event): View {
    match e
    case Confirm(tiles, amount, writable) => Confirmed(v, me, tiles, amount, writable)
    case ChainRead(onChain, readable, writable) => Reconciled(v, me, onChain, readable, writable)
  }

  function Run(v: View, me: Owner, es: seq<Event>): View {
    if es == [] then v else Next(Run(v, me, es[..|es| - 1]), me, es[|es| - 1])
  }

  // ----- the page's variables -----

  class Overlay {
    var current: Option<Owner>    // state.roundId and state.account, while a wallet is connected
    var owner: Option<Owner>
    var amounts: Bets
    var myBets: Bets
    var storage: map<Owner, Bets>
    ghost var highest: Bets       // tile by tile the highest chain read for the current owner

    ghost function State(): View reads this { View(owner, amounts, myBets, storage) }

    /** Everything on display is backed by a chain read or by the overlay. */
    ghost predicate Valid() reads this {
      match current
      case None => myBets == NoBets()
      case Some(me) => Backed(State(), me, highest)
    }

    constructor (storage: map<Owner, Bets>)
      ensures Valid() && State() == View(None, NoBets(), NoBets(), storage) && highest == NoBets()
    {
      current, owner, amounts, myBets, highest := None, None, NoBets(), NoBets(), NoBets();
      this.storage := storage;
    }

    /** An account change, or the rollover of `tick`, which also removes the stored copy. */
    method Show(next: Option<Owner>, removeStored: bool)
      modifies this
      ensures Valid() && current == next && highest == NoBets()
      ensures State() == View(None, NoBets(), NoBets(),
                              if removeStored && old(owner).Some? then old(storage) - {old(owner).value}
                              else old(storage))
    {
      if removeStored && owner.Some? { storage := storage - {owner.value}; }
      owner, amounts := None, NoBets();
      current, myBets, highest := next, NoBets(), NoBets();
    }

    /** The loop of `rememberConfirmedTileBets`. */
    method RaiseAmounts(tiles: seq<int>, amountPerTile: nat)
      modifies this`amounts
      ensures amounts == Raised(old(amounts), myBets, tiles, amountPerTile)
    {
      for k := 0 to |tiles|
        invariant amounts == Raised(old(amounts), myBets, tiles[..k], amountPerTile)
      {
        var index := tiles[k] - 1;
        ghost var before := amounts;
        if 0 <= index < |amounts| {
          var priorTotal := myBets[index];
          if priorTotal > amounts[index] { amounts := amounts[index := priorTotal]; }
          amounts := amounts[index := amounts[index] + amountPerTile];
        }
        RaisedStep(old(amounts), myBets, tiles[..k], tiles[k], amountPerTile, before, amounts);
        assert tiles[..k + 1] == tiles[..k] + [tiles[k]];
      }
      assert tiles[..|tiles|] == tiles;
    }

    /** `rememberConfirmedTileBets` with the board as base and the merge that follows it, if the round and
        the wallet are still those of the submission. */
    method RememberConfirmed(me: Owner, tiles: seq<int>, amountPerTile: nat, writable: bool)
      requires Valid()
      modifies this
      ensures Valid() && current == old(current) && highest == old(highest)
      ensures State() == if current == Some(me) then Next(old(State()), me, Confirm(tiles, amountPerTile, writable))
                         else old(State())
      ensures AtMost(old(myBets), myBets)
      ensures current == Some(me) ==>
        forall i :: 0 <= i < GRID && Times(tiles, i) > 0 ==> myBets[i] >= old(myBets)[i] + amountPerTile
    {
      if current != Some(me) { return; }
      forall i | 0 <= i < GRID && Times(tiles, i) > 0
        ensures Next(State(), me, Confirm(tiles, amountPerTile, writable)).myBets[i] >= myBets[i] + amountPerTile
      {
        ConfirmedPaymentShows(State(), me, tiles, amountPerTile, writable, i);
      }
      ConfirmStep(State(), me, highest, tiles, amountPerTile, writable);
      if owner != Some(me) {
        owner, amounts := Some(me), NoBets();
      }
      RaiseAmounts(tiles, amountPerTile);
      if writable { storage := storage[me := amounts]; }
      myBets := Merge(myBets, amounts);
    }

    /** `reconcileConfirmedTileBets`. */
    method ReconcileConfirmed(me: Owner, onChainBets: Bets, readable: bool, writable: bool) returns (merged: Bets)
      modifies this`owner, this`amounts, this`storage
      ensures View(owner, amounts, merged, storage) == Reconciled(old(State()), me, onChainBets, readable, writable)
    {
      if owner != Some(me) {
        if !readable || me !in storage { return onChainBets; }
        owner, amounts := Some(me), storage[me];
      }
      merged := Merge(onChainBets, amounts);
      amounts := Outstanding(amounts, onChainBets);
      if amounts == NoBets() {
        if writable { storage := storage - {me}; }
        owner, amounts := None, NoBets();
      } else if writable {
        storage := storage[me := amounts];
      }
    }

    /** A wallet read reaching the board, if the round and the wallet are still those of the read. */
    method Reconcile(me: Owner, onChainBets: Bets, readable: bool, writable: bool)
      requires Valid()
      modifies this
      ensures Valid() && current == old(current)
      ensures highest == if current == Some(me) then Merge(old(highest), onChainBets) else old(highest)
      ensures State() == if current == Some(me) then Next(old(State()), me, ChainRead(onChainBets, readable, writable))
                         else old(State())
      ensures AtMost(old(highest), onChainBets) || current != Some(me) ==> AtMost(old(myBets), myBets)
    {
      if current != Some(me) { return; }
      ReadKeepsBacked(State(), me, highest, onChainBets, readable, writable);
      if AtMost(highest, onChainBets) { ReadStep(State(), me, highest, onChainBets, readable, writable); }
      highest := Merge(highest, onChainBets);
      myBets := ReconcileConfirmed(me, onChainBets, readable, writable);
    }
  }

  lemma RaisedStep(local: Bets, base: Bets, tiles: seq<int>, tile: int, amount: nat, before: Bets, after: Bets)
    requires before == Raised(local, base, tiles, amount)
    requires after == if 1 <= tile <= GRID
                      then before[tile - 1 := Max(before[tile - 1], base[tile - 1]) + amount] else before
    ensures after == Raised(local, base, tiles + [tile], amount)
  {
    var all := tiles + [tile];
    assert all[..|tiles|] == tiles;
    forall i | 0 <= i < GRID ensures after[i] == Raised(local, base, all, amount)[i] {
      var n := Times(tiles, i);
      if tile == i + 1 {
        assert (n + 1) * amount == n * amount + amount;
      }
    }
  }

  // ----- every run in one round with one wallet -----

  predicate AtMost(a: Bets, b: Bets) { forall i :: 0 <= i < GRID ==> a[i] <= b[i] }

  /** The last chain read, before any: nothing. */
  function LastRead(es: seq<Event>): Bets {
    if es == [] then NoBets()
    else if es[|es| - 1].ChainRead? then es[|es| - 1].onChain
    else LastRead(es[..|es| - 1])
  }

  /** Chain reads never go down. */
  predicate ReadsGrow(es: seq<Event>) {
    forall n :: 0 <= n < |es| && es[n].ChainRead? ==> AtMost(LastRead(es[..n]), es[n].onChain)
  }

  /** Everything on display is backed by the last chain read or by the overlay. */
  ghost predicate Backed(v: View, me: Owner, read: Bets) {
    AtMost(v.myBets, Merge(read, if v.owner == Some(me) then v.amounts else NoBets()))
  }

  lemma RaisedAtLeast(local: Bets, base: Bets, tiles: seq<int>, amount: nat)
    ensures AtMost(local, Raised(local, base, tiles, amount))
  {
  }

  lemma ConfirmStep(v: View, me: Owner, read: Bets, tiles: seq<int>, amount: nat, writable: bool)
    requires Backed(v, me, read)
    ensures var w := Confirmed(v, me, tiles, amount, writable); Backed(w, me, read) && AtMost(v.myBets, w.myBets)
  {
    var local := if v.owner == Some(me) then v.amounts else NoBets();
    RaisedAtLeast(local, v.myBets, tiles, amount);
    var w := Confirmed(v, me, tiles, amount, writable);
    forall i | 0 <= i < GRID ensures w.myBets[i] <= Merge(read, w.amounts)[i] {
      assert v.myBets[i] <= Merge(read, local)[i];
      assert local[i] <= w.amounts[i];
    }
  }

  lemma ReadStep(v: View, me: Owner, read: Bets, onChain: Bets, readable: bool, writable: bool)
    requires Backed(v, me, read) && AtMost(read, onChain)
    ensures var w := Reconciled(v, me, onChain, readable, writable);
      Backed(w, me, onChain) && AtMost(v.myBets, w.myBets)
  {
    var w := Reconciled(v, me, onChain, readable, writable);
    var local := if Usable(v, me, readable).Some? then Usable(v, me, readable).value else NoBets();
    var left := Outstanding(local, onChain);
    forall i | 0 <= i < GRID
      ensures v.myBets[i] <= w.myBets[i]
      ensures w.myBets[i] <= Merge(onChain, if w.owner == Some(me) then w.amounts else NoBets())[i]
    {
      assert v.myBets[i] <= Merge(read, if v.owner == Some(me) then v.amounts else NoBets())[i];
      assert read[i] <= onChain[i];
      assert w.myBets[i] == Max(onChain[i], local[i]);
      assert left == NoBets() ==> left[i] == 0;
    }
  }

  /** Backing survives any read, growing or not, against the highest reads so far. */
  lemma ReadKeepsBacked(v: View, me: Owner, read: Bets, onChain: Bets, readable: bool, writable: bool)
    ensures Backed(Reconciled(v, me, onChain, readable, writable), me, Merge(read, onChain))
  {
    var w := Reconciled(v, me, onChain, readable, writable);
    var local := if Usable(v, me, readable).Some? then Usable(v, me, readable).value else NoBets();
    var left := Outstanding(local, onChain);
    forall i | 0 <= i < GRID
      ensures w.myBets[i] <= Merge(Merge(read, onChain), if w.owner == Some(me) then w.amounts else NoBets())[i]
    {
      assert w.myBets[i] == Max(onChain[i], local[i]);
      assert left == NoBets() ==> left[i] == 0;
    }
  }

  /** A confirmed payment shows at once, in full, on every submitted tile. */
  lemma ConfirmedPaymentShows(v: View, me: Owner, tiles: seq<int>, amount: nat, writable: bool, i: nat)
    requires i < GRID && Times(tiles, i) > 0
    ensures Confirmed(v, me, tiles, amount, writable).myBets[i] >= v.myBets[i] + amount
  {
    AtLeastOnce(Times(tiles, i), amount);
  }

  lemma AtLeastOnce(n: nat, amount: nat)
    requires n > 0
    ensures n * amount >= amount
  {
  }

  lemma {:induction false} RunBacked(v: View, me: Owner, es: seq<Event>)
    requires v.myBets == NoBets() && ReadsGrow(es)
    ensures Backed(Run(v, me, es), me, LastRead(es))
    ensures es != [] ==> AtMost(Run(v, me, es[..|es| - 1]).myBets, Run(v, me, es).myBets)
  {
    if es != [] {
      var rest, last := es[..|es| - 1], es[|es| - 1];
      forall n | 0 <= n < |rest| && rest[n].ChainRead? ensures AtMost(LastRead(rest[..n]), rest[n].onChain) {
        assert rest[..n] == es[..n];
      }
      RunBacked(v, me, rest);
      match last {
        case Confirm(tiles, amount, writable) =>
          ConfirmStep(Run(v, me, rest), me, LastRead(rest), tiles, amount, writable);
        case ChainRead(onChain, readable, writable) =>
          ReadStep(Run(v, me, rest), me, LastRead(rest), onChain, readable, writable);
      }
    }
  }

  /** Across any sequence of confirmations and reconciliations, with storage working or not, the bet
      shown on every tile never decreases. */
  lemma {:induction false} ShownBetsNeverDecrease(v: View, me: Owner, es: seq<Event>, n: nat)
    requires v.myBets == NoBets() && ReadsGrow(es) && n <= |es|
    ensures AtMost(Run(v, me, es[..n]).myBets, Run(v, me, es).myBets)
    decreases |es|
  {
    if n == |es| {
      assert es[..n] == es;
    } else {
      var rest := es[..|es| - 1];
      forall m | 0 <= m < |rest| && rest[m].ChainRead? ensures AtMost(LastRead(rest[..m]), rest[m].onChain) {
        assert rest[..m] == es[..m];
      }
      ShownBetsNeverDecrease(v, me, rest, n);
      assert rest[..n] == es[..n];
      RunBacked(v, me, es);
    }
  }

  /** A read leaves no overlay in memory exactly when it covers every outstanding tile of the overlay it
      worked on, in memory or restored; the board then shows that read alone, and loses nothing by it. */
  lemma DroppedIffCovered(v: View, me: Owner, read: Bets, onChain: Bets, readable: bool, writable: bool)
    requires Usable(v, me, readable).Some? && Backed(v, me, read) && AtMost(read, onChain)
    ensures var local, w := Usable(v, me, readable).value, Reconciled(v, me, onChain, readable, writable);
      && (w.owner == None <==> AtMost(local, onChain))
      && (w.owner == None ==> w.myBets == onChain && AtMost(v.myBets, onChain) && (writable ==> me !in w.stored))
      && (w.owner != None ==> w.owner == Some(me))
      && (w.owner != None ==>
            forall i :: 0 <= i < 25 ==> w.amounts[i] == if onChain[i] >= local[i] then 0 else local[i])
      && (forall i :: 0 <= i < 25 ==> w.myBets[i] == if local[i] > onChain[i] then local[i] else onChain[i])
  {
    var local, w := Usable(v, me, readable).value, Reconciled(v, me, onChain, readable, writable);
    var left := Outstanding(local, onChain);
    if left == NoBets() {
      forall i | 0 <= i < GRID ensures local[i] <= onChain[i] { assert left[i] == 0; }
      assert w.myBets == onChain;
    }
    if AtMost(local, onChain) { assert left == NoBets(); }
    ReadStep(v, me, read, onChain, readable, writable);
  }

  // ----- reloading the page -----

  /** The stored copy is the overlay in memory. */
  ghost predicate InSync(v: View, me: Owner) {
    v.owner == Some(me) ==> me in v.stored && v.stored[me] == v.amounts
  }

  predicate StorageWorks(e: Event) { e.writable && (e.ChainRead? ==> e.readable) }

  lemma {:induction false} RunInSync(v: View, me: Owner, es: seq<Event>)
    requires InSync(v, me) && forall n :: 0 <= n < |es| ==> StorageWorks(es[n])
    ensures InSync(Run(v, me, es), me)
  {
    if es != [] {
      RunInSync(v, me, es[..|es| - 1]);
    }
  }

  function Reloaded(v: View): View { View(None, NoBets(), NoBets(), v.stored) }

  /** With storage working, the first read after a reload restores at least what was on display. */
  lemma ReloadKeepsShownBets(v: View, me: Owner, es: seq<Event>, onChain: Bets)
    requires v.myBets == NoBets() && InSync(v, me) && ReadsGrow(es)
    requires forall n :: 0 <= n < |es| ==> StorageWorks(es[n])
    requires AtMost(LastRead(es), onChain)
    ensures AtMost(Run(v, me, es).myBets, Next(Reloaded(Run(v, me, es)), me, ChainRead(onChain, true, true)).myBets)
  {
    RunInSync(v, me, es);
    RunBacked(v, me, es);
    var s := Run(v, me, es);
    var t := Next(Reloaded(s), me, ChainRead(onChain, true, true));
    forall i | 0 <= i < GRID ensures s.myBets[i] <= t.myBets[i] {
      assert s.myBets[i] <= Merge(LastRead(es), if s.owner == Some(me) then s.amounts else NoBets())[i];
      assert LastRead(es)[i] <= onChain[i];
    }
  }

  // ----- exact figures -----

  /** Positions at which a tile, numbered from one, was submitted. */
  function Positions(tiles: seq<int>, i: nat): set<nat> { set k: nat | k < |tiles| && tiles[k] == i + 1 }

  lemma {:induction false} TimesIs(tiles: seq<int>, i: nat)
    ensures Times(tiles, i) == |Positions(tiles, i)|
  {
    if tiles != [] {
      var n := |tiles| - 1;
      TimesIs(tiles[..n], i);
      assert Positions(tiles, i) == Positions(tiles[..n], i) + if tiles[n] == i + 1 then {n} else {};
    }
  }

  /** What was paid for a tile over a list of confirmations. */
  function PaidFor(es: seq<Event>, i: nat): nat {
    if es == [] then 0
    else
      var last := es[|es| - 1];
      PaidFor(es[..|es| - 1], i) + if last.Confirm? then |Positions(last.tiles, i)| * last.amount else 0
  }

  lemma {:induction false} ConfirmAdds(v: View, me: Owner, tiles: seq<int>, amount: nat, writable: bool, i: nat)
    requires i < GRID
    requires if v.owner == Some(me) then v.amounts[i] == v.myBets[i] else v.myBets[i] == 0
    ensures var w := Confirmed(v, me, tiles, amount, writable);
      && w.owner == Some(me) && w.amounts[i] == w.myBets[i] == v.myBets[i] + |Positions(tiles, i)| * amount
  {
    TimesIs(tiles, i);
  }

  /** Before any chain read, every tile shows exactly what was paid for it since the board was blank, tiles
      submitted several times counted several times and numbers off the board not at all. */
  lemma {:induction false} ConfirmationsAddUp(v: View, me: Owner, es: seq<Event>, i: nat)
    requires v.myBets == NoBets() && v.owner != Some(me) && i < 25 && forall n :: 0 <= n < |es| ==> es[n].Confirm?
    ensures var w := Run(v, me, es);
      && w.myBets[i] == PaidFor(es, i)
      && (if w.owner == Some(me) then w.amounts[i] == w.myBets[i] else w.myBets[i] == 0)
  {
    if es != [] {
      var rest, last := es[..|es| - 1], es[|es| - 1];
      ConfirmationsAddUp(v, me, rest, i);
      ConfirmAdds(Run(v, me, rest), me, last.tiles, last.amount, last.writable, i);
    }
  }

  /** Without an overlay the board shows the chain read and nothing else. */
  lemma {:induction false} ChainAlone(v: View, me: Owner, onChain: Bets, readable: bool, writable: bool)
    requires v.owner != Some(me) && (!readable || me !in v.stored)
    ensures Next(v, me, ChainRead(onChain, readable, writable)) == v.(myBets := onChain)
    ensures |onChain| == 25
  {
  }
}
