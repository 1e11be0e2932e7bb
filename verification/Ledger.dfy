/**
 * The receipt ledger of one round, in the shape the client relies on: each deployment records, for
 * every tile, that tile's total just before it.
 */
module ReceiptLedger {
  import opened Common
  import opened Sums
  import opened RoundRewards

  /** A wallet, identified with its rank in the collation order `localeCompare` sorts by. */
  type Address = int

  type Tiles = s: seq<nat> | |s| == GRID witness seq(GRID, _ => 0)

  datatype Receipt = Receipt(
    key: nat,             // the receipt account's public key
    authority: Address,
    amounts: Tiles,       // lamports deployed per tile
    starts: Tiles,        // cumulativeStarts: tile totals before this deployment
    total: nat,           // totalLamports
    claimed: bool,
    refunded: bool,
    rewardMode: nat)

  datatype Round = Round(
    resolved: bool,
    winningSquare: nat,   // 255 until settled
    winnerTotal: nat,
    totalWager: nat,
    potForWinners: nat,
    bullionForWinners: nat,
    motherlodePayoutLamports: nat,
    motherlodeEmission: nat,
    jackpotHit: bool,
    singleMinerRound: bool,
    soloSample: nat)

  // Receipt fields as summable functions.
  function AmountAt(t: nat): Receipt -> int requires t < GRID { (r: Receipt) => r.amounts[t] }
  function StartAt(t: nat): Receipt -> int requires t < GRID { (r: Receipt) => r.starts[t] }
  function Total(): Receipt -> int { (r: Receipt) => r.total }
  function RoundStart(): Receipt -> int { (r: Receipt) => TileSum(r.starts) }
  function Authority(): Receipt -> Address { (r: Receipt) => r.authority }

  function Value(): nat -> int { (v: nat) => v }

  /** All 25 tiles added up. */
  function TileSum(tiles: seq<nat>): int { Sum(Value(), tiles) }

  /** Deployments in order: starts are tile totals so far, and a total is its tiles' sum. */
  ghost predicate WellFormed(ledger: seq<Receipt>) {
    && (forall i, t :: 0 <= i < |ledger| && 0 <= t < GRID ==> ledger[i].starts[t] == Sum(AmountAt(t), ledger[..i]))
    && (forall i :: 0 <= i < |ledger| ==> ledger[i].total == TileSum(ledger[i].amounts))
    && (forall i :: 0 <= i < |ledger| ==> !ledger[i].refunded)
    && (forall i, j :: 0 <= i < j < |ledger| ==> ledger[i].key != ledger[j].key)
  }

  /** The round's counters are the ledger's totals and a winning tile has been drawn. */
  ghost predicate Settles(round: Round, ledger: seq<Receipt>) {
    && round.resolved && round.winningSquare < GRID
    && round.winnerTotal == Sum(AmountAt(round.winningSquare), ledger)
    && round.totalWager == Sum(Total(), ledger)
  }

  lemma TileChained(ledger: seq<Receipt>, t: nat)
    requires WellFormed(ledger) && t < GRID
    ensures Chained(StartAt(t), AmountAt(t), ledger)
  {
  }

  lemma {:induction false} TileSumAdd(a: seq<nat>, b: seq<nat>, c: seq<nat>)
    requires |a| == |b| == |c|
    requires forall t :: 0 <= t < |a| ==> c[t] == a[t] + b[t]
    ensures TileSum(c) == TileSum(a) + TileSum(b)
  {
    if a != [] {
      var n := |a| - 1;
      TileSumAdd(a[..n], b[..n], c[..n]);
    }
  }

  lemma TileSumZero(a: seq<nat>)
    requires forall t :: 0 <= t < |a| ==> a[t] == 0
    ensures TileSum(a) == 0
  {
    SumZero(Value(), a);
  }

  lemma {:induction false} TileSumNonNegative(a: seq<nat>)
    ensures TileSum(a) >= 0
    ensures forall t :: 0 <= t < |a| ==> TileSum(a) >= a[t]
  {
    if a != [] { TileSumNonNegative(a[..|a| - 1]); }
  }

  /** Exchanging sums over tiles and receipts: 25 tile starts add up to the round total before. */
  lemma {:induction false} StartsSumToRoundTotal(ledger: seq<Receipt>, i: nat)
    requires WellFormed(ledger) && i < |ledger|
    ensures TileSum(ledger[i].starts) == Sum(Total(), ledger[..i])
  {
    if i == 0 {
      forall t | 0 <= t < GRID ensures ledger[0].starts[t] == 0 {
        assert Sum(AmountAt(t), ledger[..0]) == 0;
      }
      TileSumZero(ledger[0].starts);
    } else {
      StartsSumToRoundTotal(ledger, i - 1);
      var before, here := ledger[i - 1], ledger[i];
      assert ledger[..i][..i - 1] == ledger[..i - 1];
      forall t | 0 <= t < GRID ensures here.starts[t] == before.starts[t] + before.amounts[t] {
        assert Sum(AmountAt(t), ledger[..i]) == Sum(AmountAt(t), ledger[..i - 1]) + AmountAt(t)(before);
      }
      TileSumAdd(before.starts, before.amounts, here.starts);
      assert Sum(Total(), ledger[..i]) == Sum(Total(), ledger[..i - 1]) + Total()(before);
    }
  }

  lemma RoundChained(ledger: seq<Receipt>)
    requires WellFormed(ledger)
    ensures Chained(RoundStart(), Total(), ledger)
  {
    forall i | 0 <= i < |ledger| ensures RoundStart()(ledger[i]) == Sum(Total(), ledger[..i]) {
      StartsSumToRoundTotal(ledger, i);
    }
  }

  // ----- the solo sample -----

  /** The receipt's interval on tile `t` covers the sample. */
  predicate Covers(r: Receipt, t: nat, sample: nat)
    requires t < GRID
  {
    r.amounts[t] > 0 && r.starts[t] <= sample < r.starts[t] + r.amounts[t]
  }

  lemma {:induction false} SampleCovered(ledger: seq<Receipt>, t: nat, sample: nat, n: nat) returns (i: nat)
    requires WellFormed(ledger) && t < GRID && n <= |ledger|
    requires sample < Sum(AmountAt(t), ledger[..n])
    ensures i < n && Covers(ledger[i], t, sample)
  {
    assert ledger[..n][..n - 1] == ledger[..n - 1];
    if sample < Sum(AmountAt(t), ledger[..n - 1]) {
      i := SampleCovered(ledger, t, sample, n - 1);
    } else {
      i := n - 1;
    }
  }

  lemma {:induction false} TileTotalsGrow(ledger: seq<Receipt>, t: nat, i: nat, j: nat)
    requires t < GRID && i <= j <= |ledger|
    ensures Sum(AmountAt(t), ledger[..i]) <= Sum(AmountAt(t), ledger[..j])
    decreases j - i
  {
    if i < j {
      assert ledger[..j][..j - 1] == ledger[..j - 1];
      TileTotalsGrow(ledger, t, i, j - 1);
    }
  }

  lemma LaterStartsAfter(ledger: seq<Receipt>, t: nat, i: nat, j: nat)
    requires WellFormed(ledger) && t < GRID && i < j < |ledger|
    ensures ledger[i].starts[t] + ledger[i].amounts[t] <= ledger[j].starts[t]
  {
    assert ledger[..i + 1][..i] == ledger[..i];
    TileTotalsGrow(ledger, t, i + 1, j);
  }

  /** Intervals on one tile are disjoint: two receipts never cover the same sample. */
  lemma SampleCoveredOnce(ledger: seq<Receipt>, t: nat, sample: nat, i: nat, j: nat)
    requires WellFormed(ledger) && t < GRID && i < |ledger| && j < |ledger|
    requires Covers(ledger[i], t, sample) && Covers(ledger[j], t, sample)
    ensures i == j
  {
    if i < j {
      LaterStartsAfter(ledger, t, i, j);
    } else if j < i {
      LaterStartsAfter(ledger, t, j, i);
    }
  }

  /** A covered sample lies inside the tile total. */
  lemma CoveredBelowTotal(ledger: seq<Receipt>, t: nat, sample: nat, i: nat)
    requires WellFormed(ledger) && t < GRID && i < |ledger| && Covers(ledger[i], t, sample)
    ensures sample < Sum(AmountAt(t), ledger)
  {
    assert ledger[..i + 1][..i] == ledger[..i];
    TileTotalsGrow(ledger, t, i + 1, |ledger|);
    assert ledger[..|ledger|] == ledger;
  }
}
