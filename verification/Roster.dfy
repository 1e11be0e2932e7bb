/**
 * Frontend/src/chain/miner-aggregation.js and `readRoundWinners` of Frontend/src/chain/lottery.js:
 * receipts regrouped by wallet, each wallet paid by its receipts' intervals.
 */
module MinerRoster {
  import opened Common
  import opened Sums
  import opened RoundRewards
  import opened ReceiptLedger

  datatype Miner = Miner(
    address: Address,
    tileBets: seq<int>,
    deployed: int,
    receiptCount: int,
    claimed: bool,
    autoBurn: bool,       // also autoRound and autoMode == 'burn'
    tiles: nat)

  /** Refunded receipts do not count as deployments. */
  function Kept(rows: seq<Receipt>): seq<Receipt> {
    if rows == [] then []
    else
      var last := rows[|rows| - 1];
      Kept(rows[..|rows| - 1]) + if last.refunded then [] else [last]
  }

  lemma {:induction false} KeptAll(rows: seq<Receipt>)
    requires forall r :: r in rows ==> !r.refunded
    ensures Kept(rows) == rows
  {
    if rows != [] {
      KeptAll(rows[..|rows| - 1]);
      assert rows == rows[..|rows| - 1] + [rows[|rows| - 1]];
    }
  }

  function One(): Receipt -> int { (r: Receipt) => 1 }

  function PositiveCount(bets: seq<int>): nat {
    if bets == [] then 0
    else PositiveCount(bets[..|bets| - 1]) + if bets[|bets| - 1] > 0 then 1 else 0
  }

  /** What a wallet's entry must be, receipt by receipt and independent of any scan order. */
  ghost function MinerOf(kept: seq<Receipt>, a: Address): Miner {
    var bets := seq(GRID, t requires 0 <= t < GRID => Sum(Only(AmountAt(t), Authority(), a), kept));
    Miner(
      a, bets,
      Sum(Only(Total(), Authority(), a), kept),
      Sum(Only(One(), Authority(), a), kept),
      forall r :: r in kept && r.authority == a ==> r.claimed,
      exists r :: r in kept && r.authority == a && r.rewardMode == 1,
      PositiveCount(bets))
  }

  /** Largest deployment first, ties by address. */
  predicate Before(a: Miner, b: Miner) {
    a.deployed > b.deployed || (a.deployed == b.deployed && a.address < b.address)
  }

  ghost predicate Sorted(ms: seq<Miner>) {
    forall i, j :: 0 <= i < j < |ms| ==> Before(ms[i], ms[j])
  }

  ghost predicate IsRoster(rows: seq<Receipt>, ms: seq<Miner>) {
    && Sorted(ms)
    && (forall m :: m in ms ==> m == MinerOf(Kept(rows), m.address))
    && (forall m :: m in ms ==> Deployed(Kept(rows), m.address))
    && (forall r :: r in Kept(rows) ==> ListsAddress(ms, r.authority))
  }

  ghost predicate Deployed(kept: seq<Receipt>, a: Address) { exists r :: r in kept && r.authority == a }

  ghost predicate ListsAddress(ms: seq<Miner>, a: Address) { exists m :: m in ms && m.address == a }

  /** Adding one receipt changes only its own wallet's entry. */
  lemma MinerOfStep(kept: seq<Receipt>, r: Receipt, a: Address)
    ensures
      var m, m' := MinerOf(kept, a), MinerOf(kept + [r], a);
      if r.authority != a then m' == m
      else
        && (forall t :: 0 <= t < GRID ==> m'.tileBets[t] == m.tileBets[t] + r.amounts[t])
        && m'.deployed == m.deployed + r.total
        && m'.receiptCount == m.receiptCount + 1
        && m'.claimed == (m.claimed && r.claimed)
        && m'.autoBurn == (m.autoBurn || r.rewardMode == 1)
  {
    var all := kept + [r];
    assert all[..|all| - 1] == kept;
    forall t | 0 <= t < GRID
      ensures Sum(Only(AmountAt(t), Authority(), a), all)
        == Sum(Only(AmountAt(t), Authority(), a), kept) + if r.authority == a then r.amounts[t] else 0
    {
    }
    assert r in all;
    assert forall x :: x in all <==> x in kept || x == r;
    if r.authority != a {
      assert MinerOf(all, a).tileBets == MinerOf(kept, a).tileBets;
    }
  }

  lemma AbsentIsBlank(kept: seq<Receipt>, a: Address)
    requires forall r :: r in kept ==> r.authority != a
    ensures var m := MinerOf(kept, a);
      && (forall t :: 0 <= t < GRID ==> m.tileBets[t] == 0)
      && m.deployed == 0 && m.receiptCount == 0 && m.claimed && !m.autoBurn
  {
    forall t | 0 <= t < GRID ensures Sum(Only(AmountAt(t), Authority(), a), kept) == 0 {
      SumZero(Only(AmountAt(t), Authority(), a), kept);
    }
    SumZero(Only(Total(), Authority(), a), kept);
    SumZero(Only(One(), Authority(), a), kept);
  }

  /** Equal except for the tile count, which is filled in only after the loop. */
  ghost predicate SameTallies(m: Miner, n: Miner) {
    m == n.(tiles := m.tiles)
  }

  function BlankMiner(a: Address): Miner {
    Miner(a, seq(GRID, _ => 0), 0, 0, true, false, 0)
  }

  /** The loop body's update of one wallet's running totals. */
  function AddReceipt(m: Miner, r: Receipt): Miner
    requires |m.tileBets| == GRID
  {
    m.(tileBets := seq(GRID, t requires 0 <= t < GRID => m.tileBets[t] + r.amounts[t]),
       deployed := m.deployed + r.total,
       receiptCount := m.receiptCount + 1,
       claimed := m.claimed && r.claimed,
       autoBurn := m.autoBurn || r.rewardMode == 1)
  }

  /** The running map after some receipts: one entry per wallet seen, listed in first-seen order. */
  ghost predicate Tallied(kept: seq<Receipt>, grouped: map<Address, Miner>, order: seq<Address>) {
    && Distinct(order)
    && (forall j :: 0 <= j < |order| ==> order[j] in grouped)
    && (forall a :: a in grouped ==> a in order)
    && (forall r :: r in kept ==> r.authority in grouped)
    && (forall a :: a in grouped ==> Deployed(kept, a))
    && (forall a :: a in grouped ==> SameTallies(grouped[a], MinerOf(kept, a)))
  }

  lemma AddReceiptTallies(kept: seq<Receipt>, r: Receipt, m: Miner)
    requires SameTallies(m, MinerOf(kept, r.authority))
    ensures SameTallies(AddReceipt(m, r), MinerOf(kept + [r], r.authority))
  {
    MinerOfStep(kept, r, r.authority);
    assert AddReceipt(m, r).tileBets == MinerOf(kept + [r], r.authority).tileBets;
  }

  lemma BlankTallies(kept: seq<Receipt>, a: Address)
    requires forall r :: r in kept ==> r.authority != a
    ensures SameTallies(BlankMiner(a), MinerOf(kept, a))
  {
    AbsentIsBlank(kept, a);
    assert BlankMiner(a).tileBets == MinerOf(kept, a).tileBets;
  }

  lemma TalliedStep(kept: seq<Receipt>, r: Receipt, grouped: map<Address, Miner>, order: seq<Address>,
                    m: Miner, order': seq<Address>)
    requires Tallied(kept, grouped, order)
    requires SameTallies(m, MinerOf(kept + [r], r.authority))
    requires order' == if r.authority in grouped then order else order + [r.authority]
    ensures Tallied(kept + [r], grouped[r.authority := m], order')
  {
    var all, g := kept + [r], grouped[r.authority := m];
    assert r in all && forall x :: x in all <==> x in kept || x == r;
    forall a | a in g
      ensures SameTallies(g[a], MinerOf(all, a)) && a in order' && Deployed(all, a)
    {
      if a != r.authority {
        assert a in grouped && a in order;
        MinerOfStep(kept, r, a);
        var x :| x in kept && x.authority == a;
        assert x in all;
      }
    }
  }

  /** `aggregateMiners`: one pass over the receipts, then a sort. */
  method AggregateMiners(rows: seq<Receipt>) returns (ms: seq<Miner>)
    ensures IsRoster(rows, ms)
  {
    var grouped, order := TallyReceipts(rows);
    assert forall j :: 0 <= j < |order| ==> order[j] in grouped;
    var values := seq(|order|, j requires 0 <= j < |order| && order[j] in grouped => WithTiles(grouped[order[j]]));
    TalliedValues(Kept(rows), grouped, order, values);
    ms := SortMiners(values);
    TalliedIsRoster(rows, grouped, order, values, ms);
  }

  function WithTiles(m: Miner): Miner { m.(tiles := PositiveCount(m.tileBets)) }

  lemma TalliedValues(kept: seq<Receipt>, grouped: map<Address, Miner>, order: seq<Address>, values: seq<Miner>)
    requires Tallied(kept, grouped, order) && |values| == |order|
    requires forall j :: 0 <= j < |order| ==> values[j] == WithTiles(grouped[order[j]])
    ensures forall j :: 0 <= j < |order| ==> values[j] == MinerOf(kept, order[j])
    ensures forall i, j :: 0 <= i < j < |values| ==> values[i].address != values[j].address
  {
    forall j | 0 <= j < |order| ensures values[j] == MinerOf(kept, order[j]) && values[j].address == order[j] {
      assert SameTallies(grouped[order[j]], MinerOf(kept, order[j]));
    }
  }

  method TallyReceipts(rows: seq<Receipt>) returns (grouped: map<Address, Miner>, order: seq<Address>)
    ensures Tallied(Kept(rows), grouped, order)
  {
    grouped, order := map[], [];
    for i := 0 to |rows|
      invariant Tallied(Kept(rows[..i]), grouped, order)
    {
      ghost var kept := Kept(rows[..i]);
      var r := rows[i];
      assert rows[..i + 1][..i] == rows[..i];
      if r.refunded {
        assert Kept(rows[..i + 1]) == kept;
        continue;
      }
      assert Kept(rows[..i + 1]) == kept + [r];
      var miner := if r.authority in grouped then grouped[r.authority] else BlankMiner(r.authority);
      if r.authority !in grouped { BlankTallies(kept, r.authority); }
      AddReceiptTallies(kept, r, miner);
      miner := AddReceipt(miner, r);
      var order' := if r.authority in grouped then order else order + [r.authority];
      TalliedStep(kept, r, grouped, order, miner, order');
      grouped, order := grouped[r.authority := miner], order';
    }
    assert rows[..|rows|] == rows;
  }

  lemma TalliedIsRoster(rows: seq<Receipt>, grouped: map<Address, Miner>, order: seq<Address>,
                        values: seq<Miner>, ms: seq<Miner>)
    requires Tallied(Kept(rows), grouped, order) && |values| == |order|
    requires forall j :: 0 <= j < |order| ==> values[j] == MinerOf(Kept(rows), order[j])
    requires Sorted(ms) && forall m :: m in ms <==> m in values
    ensures IsRoster(rows, ms)
  {
    forall r | r in Kept(rows) ensures ListsAddress(ms, r.authority) {
      var j :| 0 <= j < |order| && order[j] == r.authority;
      assert values[j] in ms && values[j].address == r.authority;
    }
    forall m | m in ms ensures m == MinerOf(Kept(rows), m.address) && Deployed(Kept(rows), m.address) {
      var j :| 0 <= j < |values| && values[j] == m;
      assert order[j] in grouped;
    }
  }

  lemma InsertSorted(ms: seq<Miner>, k: nat, v: Miner)
    requires Sorted(ms) && k <= |ms|
    requires forall j :: 0 <= j < k ==> Before(ms[j], v)
    requires k < |ms| ==> !Before(ms[k], v) && ms[k].address != v.address
    ensures Sorted(ms[..k] + [v] + ms[k..])
    ensures forall m :: m in ms[..k] + [v] + ms[k..] <==> m in ms || m == v
  {
    forall j | k <= j < |ms| ensures Before(v, ms[j]) {
      assert j > k ==> Before(ms[k], ms[j]);
    }
    assert ms == ms[..k] + ms[k..];
  }

  /** `.sort` with the roster's comparator. */
  method SortMiners(values: seq<Miner>) returns (ms: seq<Miner>)
    requires forall i, j :: 0 <= i < j < |values| ==> values[i].address != values[j].address
    ensures Sorted(ms)
    ensures forall m :: m in ms <==> m in values
  {
    ms := [];
    for i := 0 to |values|
      invariant Sorted(ms)
      invariant forall m :: m in ms <==> m in values[..i]
    {
      var v := values[i];
      var k := 0;
      while k < |ms| && Before(ms[k], v)
        invariant k <= |ms|
        invariant forall j :: 0 <= j < k ==> Before(ms[j], v)
      {
        k := k + 1;
      }
      if k < |ms| {
        assert ms[k] in values[..i];
        assert ms[k].address != v.address;
      }
      InsertSorted(ms, k, v);
      assert values[..i + 1] == values[..i] + [v];
      ms := ms[..k] + [v] + ms[k..];
    }
    assert values[..|values|] == values;
  }

  // ----- the roster is determined by the receipts alone -----

  lemma {:induction false} SortedUnique(s: seq<Miner>, t: seq<Miner>)
    requires Sorted(s) && Sorted(t)
    requires forall m :: m in s <==> m in t
    ensures s == t
  {
    assert s != [] ==> s[0] in t;
    assert t != [] ==> t[0] in s;
    if s != [] && t != [] {
      assert s[0] == t[0] by {
        assert s[0] in t && t[0] in s;
        var i :| 0 <= i < |t| && t[i] == s[0];
        var j :| 0 <= j < |s| && s[j] == t[0];
        var a, b := s[0], t[0];
        assert (i > 0 ==> Before(b, a)) && (j > 0 ==> Before(a, b));
      }
      forall m ensures m in s[1..] <==> m in t[1..] {
        if m in s[1..] {
          assert m in s && m in t;
          assert m != s[0];
        }
        if m in t[1..] {
          assert m in t && m in s;
          assert m != t[0];
        }
      }
      SortedUnique(s[1..], t[1..]);
    }
  }

  lemma MinerOfPermutation(kept: seq<Receipt>, other: seq<Receipt>, a: Address)
    requires multiset(kept) == multiset(other)
    ensures MinerOf(kept, a) == MinerOf(other, a)
  {
    forall t | 0 <= t < GRID
      ensures Sum(Only(AmountAt(t), Authority(), a), kept) == Sum(Only(AmountAt(t), Authority(), a), other)
    {
      SumPermutation(Only(AmountAt(t), Authority(), a), kept, other);
    }
    SumPermutation(Only(Total(), Authority(), a), kept, other);
    SumPermutation(Only(One(), Authority(), a), kept, other);
    SameElements(kept, other);
    assert MinerOf(kept, a).tileBets == MinerOf(other, a).tileBets;
  }

  lemma SameElements<T>(s: seq<T>, t: seq<T>)
    requires multiset(s) == multiset(t)
    ensures forall x :: x in s <==> x in t
  {
    forall x ensures x in s <==> x in t {
      assert x in s <==> x in multiset(s);
      assert x in t <==> x in multiset(t);
    }
  }

  /** Two rosters over the same receipts, scanned in any two orders, are the same list. */
  lemma RosterOrderIndependent(rows: seq<Receipt>, other: seq<Receipt>, ms: seq<Miner>, ns: seq<Miner>)
    requires multiset(Kept(rows)) == multiset(Kept(other))
    requires IsRoster(rows, ms) && IsRoster(other, ns)
    ensures ms == ns
  {
    SameElements(Kept(rows), Kept(other));
    RosterMembers(rows, other, ms, ns);
    RosterMembers(other, rows, ns, ms);
    SortedUnique(ms, ns);
  }

  lemma RosterMembers(rows: seq<Receipt>, other: seq<Receipt>, ms: seq<Miner>, ns: seq<Miner>)
    requires multiset(Kept(rows)) == multiset(Kept(other))
    requires forall x :: x in Kept(rows) <==> x in Kept(other)
    requires IsRoster(rows, ms) && IsRoster(other, ns)
    ensures forall m :: m in ms ==> m in ns
  {
    forall m | m in ms ensures m in ns {
      var r :| r in Kept(rows) && r.authority == m.address;
      var n :| n in ns && n.address == r.authority;
      MinerOfPermutation(Kept(rows), Kept(other), m.address);
    }
  }

  function Addresses(ms: seq<Miner>): seq<Address> {
    seq(|ms|, i requires 0 <= i < |ms| => ms[i].address)
  }

  /** Each wallet with a counted receipt is listed exactly once. */
  lemma RosterAddresses(rows: seq<Receipt>, ms: seq<Miner>)
    requires IsRoster(rows, ms)
    ensures Distinct(Addresses(ms))
    ensures forall r :: r in Kept(rows) ==> r.authority in Addresses(ms)
  {
    forall i, j | 0 <= i < j < |ms| ensures ms[i].address != ms[j].address {
      assert Before(ms[i], ms[j]);
      assert ms[i] in ms && ms[j] in ms;
    }
    forall r | r in Kept(rows) ensures r.authority in Addresses(ms) {
      var m :| m in ms && m.address == r.authority;
      var i :| 0 <= i < |ms| && ms[i] == m;
      assert Addresses(ms)[i] == r.authority;
    }
  }

  // ----- what a roster says, read off the receipts -----

  /** A figure of a receipt, counted only for this wallet and only if the receipt was not refunded. */
  function Counted(f: Receipt -> int, a: Address): Receipt -> int {
    (r: Receipt) => if r.authority == a && !r.refunded then f(r) else 0
  }

  lemma {:induction false} KeptMembers(rows: seq<Receipt>)
    ensures forall r :: r in Kept(rows) <==> r in rows && !r.refunded
  {
    if rows != [] {
      KeptMembers(rows[..|rows| - 1]);
      assert forall r :: r in rows <==> r in rows[..|rows| - 1] || r == rows[|rows| - 1];
    }
  }

  lemma {:induction false} SumKept(f: Receipt -> int, a: Address, rows: seq<Receipt>)
    ensures Sum(Only(f, Authority(), a), Kept(rows)) == Sum(Counted(f, a), rows)
  {
    if rows != [] {
      var rest, last := rows[..|rows| - 1], rows[|rows| - 1];
      SumKept(f, a, rest);
      if last.refunded {
        assert Kept(rows) == Kept(rest);
      } else {
        assert Kept(rows)[..|Kept(rows)| - 1] == Kept(rest);
      }
    }
  }

  function Positive(bets: seq<int>): set<nat> { set t: nat | t < |bets| && bets[t] > 0 }

  lemma {:induction false} PositiveCountIs(bets: seq<int>)
    ensures PositiveCount(bets) == |Positive(bets)|
  {
    if bets != [] {
      var n := |bets| - 1;
      PositiveCountIs(bets[..n]);
      assert Positive(bets) == Positive(bets[..n]) + if bets[n] > 0 then {n} else {};
    }
  }

  /** One wallet's entry: sums over exactly its receipts that were not refunded, on a board of 25 tiles. */
  ghost predicate Entry(rows: seq<Receipt>, m: Miner) {
    && |m.tileBets| == 25
    && (forall t :: 0 <= t < 25 ==> m.tileBets[t] == Sum(Counted(AmountAt(t), m.address), rows))
    && m.deployed == Sum(Counted(Total(), m.address), rows)
    && m.receiptCount == Sum(Counted((r: Receipt) => 1, m.address), rows)
    && (m.claimed <==> forall r :: r in rows && r.authority == m.address && !r.refunded ==> r.claimed)
    && (m.autoBurn <==> exists r :: r in rows && r.authority == m.address && !r.refunded && r.rewardMode == 1)
    && m.tiles == |Positive(m.tileBets)|
  }

  lemma {:induction false} EntryOf(rows: seq<Receipt>, a: Address)
    ensures Entry(rows, MinerOf(Kept(rows), a))
  {
    var m := MinerOf(Kept(rows), a);
    KeptMembers(rows);
    forall t | 0 <= t < GRID ensures m.tileBets[t] == Sum(Counted(AmountAt(t), a), rows) {
      SumKept(AmountAt(t), a, rows);
    }
    SumKept(Total(), a, rows);
    SumKept(One(), a, rows);
    SumExtensional(Counted(One(), a), Counted((r: Receipt) => 1, a), rows);
    PositiveCountIs(m.tileBets);
  }

  /** A roster lists exactly the wallets with a receipt that was not refunded, each with its own sums, by
      falling deployment and then by address. */
  lemma {:induction false} RosterSays(rows: seq<Receipt>, ms: seq<Miner>)
    requires IsRoster(rows, ms)
    ensures forall i :: 0 <= i < |ms| ==> Entry(rows, ms[i])
    ensures forall a :: ListsAddress(ms, a) <==> exists r :: r in rows && !r.refunded && r.authority == a
    ensures forall i, j :: 0 <= i < j < |ms| ==>
      ms[i].deployed > ms[j].deployed || (ms[i].deployed == ms[j].deployed && ms[i].address < ms[j].address)
  {
    KeptMembers(rows);
    forall i | 0 <= i < |ms| ensures Entry(rows, ms[i]) {
      assert ms[i] in ms;
      EntryOf(rows, ms[i].address);
    }
    forall i, j | 0 <= i < j < |ms|
      ensures ms[i].deployed > ms[j].deployed || (ms[i].deployed == ms[j].deployed && ms[i].address < ms[j].address)
    {
      assert Before(ms[i], ms[j]);
    }
    forall a ensures ListsAddress(ms, a) <==> exists r :: r in rows && !r.refunded && r.authority == a {
      if ListsAddress(ms, a) {
        var m :| m in ms && m.address == a;
        assert Deployed(Kept(rows), m.address);
      }
    }
  }
}
