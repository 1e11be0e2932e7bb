/**
 * `expectedReceiptSolReward` and `expectedReceiptMyneReward` of Frontend/src/chain/lottery.js: what a
 * wallet's still-open receipts are worth, against the roster.
 */
module ReceiptAccrual {
  import opened Common
  import opened Sums
  import opened RoundRewards
  import opened ReceiptLedger
  import opened MinerRoster
  import opened RoundWinners

  function ExpectedSol(round: Round, receipts: seq<Receipt>): int {
    var tile := if round.winningSquare < GRID && round.winnerTotal > 0
                then Sum(TileShare(round, round.potForWinners), receipts) else 0;
    var motherlode := if round.jackpotHit && round.totalWager > 0
                      then Sum(RoundShare(round, round.motherlodePayoutLamports), receipts) else 0;
    tile + motherlode
  }

  /** `sample` is absent on round rows that never carried one. */
  predicate Selected(round: Round, sample: Option<nat>, receipts: seq<Receipt>)
    requires round.winningSquare < GRID
  {
    sample.Some? && exists r :: r in receipts && Covers(r, round.winningSquare, sample.value)
  }

  function ExpectedBaseMyne(round: Round, sample: Option<nat>, receipts: seq<Receipt>): int {
    if round.winningSquare < GRID && round.winnerTotal > 0 then
      if round.singleMinerRound
      then (if Selected(round, sample, receipts) then round.bullionForWinners else 0)
      else Sum(TileShare(round, round.bullionForWinners), receipts)
    else 0
  }

  function ExpectedMyne(round: Round, sample: Option<nat>, receipts: seq<Receipt>): int {
    ExpectedBaseMyne(round, sample, receipts)
    + if round.jackpotHit && round.totalWager > 0
      then Sum(RoundShare(round, round.motherlodeEmission), receipts) else 0
  }

  // ----- agreement with the roster -----

  /** One wallet's receipts, as the authority-filtered scan returns them. */
  function Mine(rows: seq<Receipt>, a: Address): seq<Receipt> {
    if rows == [] then []
    else Mine(rows[..|rows| - 1], a) + if rows[|rows| - 1].authority == a then [rows[|rows| - 1]] else []
  }

  lemma {:induction false} SumMine(f: Receipt -> int, rows: seq<Receipt>, a: Address)
    ensures Sum(f, Mine(rows, a)) == Paid(f, a, rows)
  {
    if rows != [] {
      var rest := rows[..|rows| - 1];
      SumMine(f, rest, a);
      SumAppend(f, Mine(rest, a), [rows[|rows| - 1]]);
      assert [rows[|rows| - 1]][..0] == [];
      assert Mine(rest, a) + [] == Mine(rest, a);
    }
  }

  lemma {:induction false} MineMembers(rows: seq<Receipt>, a: Address)
    ensures forall r :: r in Mine(rows, a) <==> r in rows && r.authority == a
  {
    if rows != [] { MineMembers(rows[..|rows| - 1], a); }
  }

  lemma TileSharesVanish(round: Round, pool: nat, a: Address, rows: seq<Receipt>)
    requires round.winningSquare < GRID && round.winnerTotal == 0
    ensures Paid(TileShare(round, pool), a, rows) == 0
  {
    SumZero(Only(TileShare(round, pool), Authority(), a), rows);
  }

  /** The roster's Motherlode SOL leg is not conditioned on a hit; the estimate's is. */
  lemma ExpectedSolGap(round: Round, rows: seq<Receipt>, awards: seq<Award>, i: nat)
    requires round.winningSquare < GRID && DirectAwards(round, rows, awards) && i < |awards|
    ensures awards[i].eth - ExpectedSol(round, Mine(rows, awards[i].miner.address))
      == if round.jackpotHit then 0 else awards[i].motherlodeSolReward
  {
    var a := awards[i].miner.address;
    SumMine(TileShare(round, round.potForWinners), rows, a);
    SumMine(RoundShare(round, round.motherlodePayoutLamports), rows, a);
    if round.winnerTotal == 0 { TileSharesVanish(round, round.potForWinners, a, rows); }
    if round.totalWager == 0 {
      SumZero(Only(RoundShare(round, round.motherlodePayoutLamports), Authority(), a), rows);
    }
  }

  /** Every wallet's open-receipt SOL estimate equals its roster SOL exactly when the round either hit
      the Motherlode or carries no Motherlode payout (or has no deployments at all). */
  lemma SolEstimateMatchesRoster(round: Round, ledger: seq<Receipt>, rows: seq<Receipt>, awards: seq<Award>)
    requires SettledRoster(round, ledger, rows, awards)
    ensures (forall i :: 0 <= i < |awards| ==> awards[i].eth == ExpectedSol(round, Mine(rows, awards[i].miner.address)))
      <==> round.jackpotHit || round.motherlodePayoutLamports == 0 || round.totalWager == 0
  {
    MotherlodeLegVanishes(round, ledger, rows, awards);
    forall i | 0 <= i < |awards|
      ensures awards[i].eth - ExpectedSol(round, Mine(rows, awards[i].miner.address))
        == if round.jackpotHit then 0 else awards[i].motherlodeSolReward
    {
      ExpectedSolGap(round, rows, awards, i);
    }
  }

  /** In a round that is no hit but carries a payout, the roster pays and the estimate shows nothing. */
  lemma EstimateMissesPayout(amount: nat, payout: nat)
    requires amount > 0
    ensures var round, r := UnflaggedRound(amount, payout), LoneReceipt(1, amount, 0);
      SettledRoster(round, [r], [r], [LoneAward(round, r)])
      && LoneAward(round, r).eth == payout && ExpectedSol(round, Mine([r], r.authority)) == 0
  {
    PaidWithoutWinning(amount, payout);
  }

  lemma SoloAgreement(round: Round, ledger: seq<Receipt>, rows: seq<Receipt>, a: Address)
    requires WellFormed(ledger) && Settles(round, ledger) && multiset(rows) == multiset(ledger)
    ensures Selected(round, Some(round.soloSample), Mine(rows, a))
      <==> SoloWinner(rows, round.winningSquare, round.soloSample) == Some(a)
  {
    var w, sample := round.winningSquare, round.soloSample;
    MineMembers(rows, a);
    RowsOfLedger(ledger, rows);
    SoloWinnerFound(rows, w, sample);
    if r :| r in rows && r.authority == a && Covers(r, w, sample) {
      var x :| x in rows && Covers(x, w, sample) && Some(x.authority) == SoloWinner(rows, w, sample);
      var i :| 0 <= i < |ledger| && ledger[i] == r;
      var j :| 0 <= j < |ledger| && ledger[j] == x;
      SampleCoveredOnce(ledger, w, sample, i, j);
    }
  }

  lemma SoloBaseMatches(round: Round, ledger: seq<Receipt>, rows: seq<Receipt>, m: Miner)
    requires WellFormed(ledger) && Settles(round, ledger) && multiset(rows) == multiset(ledger)
    requires m == MinerOf(Kept(rows), m.address) && round.singleMinerRound
    ensures BaseBullion(round, rows, m) == ExpectedBaseMyne(round, Some(round.soloSample), Mine(rows, m.address))
  {
    SoloAgreement(round, ledger, rows, m.address);
    if Selected(round, Some(round.soloSample), Mine(rows, m.address)) {
      MineMembers(rows, m.address);
      RowsOfLedger(ledger, rows);
      var r :| r in Mine(rows, m.address) && Covers(r, round.winningSquare, round.soloSample);
      CoveringWalletOnTile(rows, round.winningSquare, round.soloSample, r);
    }
  }

  lemma SplitBaseMatches(round: Round, rows: seq<Receipt>, m: Miner)
    requires round.winningSquare < GRID && (forall r :: r in rows ==> !r.refunded)
    requires m == MinerOf(Kept(rows), m.address) && !round.singleMinerRound
    ensures BaseBullion(round, rows, m) == ExpectedBaseMyne(round, Some(round.soloSample), Mine(rows, m.address))
  {
    SumMine(TileShare(round, round.bullionForWinners), rows, m.address);
    if m.tileBets[round.winningSquare] <= 0 || round.winnerTotal == 0 {
      OffTilePaysNothing(round, rows, m, round.bullionForWinners);
    }
  }

  lemma BaseMatches(round: Round, ledger: seq<Receipt>, rows: seq<Receipt>, m: Miner)
    requires WellFormed(ledger) && Settles(round, ledger) && multiset(rows) == multiset(ledger)
    requires m == MinerOf(Kept(rows), m.address)
    ensures BaseBullion(round, rows, m) == ExpectedBaseMyne(round, Some(round.soloSample), Mine(rows, m.address))
  {
    if round.singleMinerRound {
      SoloBaseMatches(round, ledger, rows, m);
    } else {
      RowsOfLedger(ledger, rows);
      SplitBaseMatches(round, rows, m);
    }
  }

  lemma AwardBullion(round: Round, rows: seq<Receipt>, awards: seq<Award>, i: nat)
    requires round.winningSquare < GRID && DirectAwards(round, rows, awards) && i < |awards|
    ensures awards[i].bullion
      == BaseBullion(round, rows, awards[i].miner) + MotherlodeBullion(round, rows, awards[i].miner)
  {
  }

  /** The open-receipt MYNE estimate equals the roster's MYNE, in solo and in split mode. */
  lemma MyneEstimateMatchesRoster(round: Round, ledger: seq<Receipt>, rows: seq<Receipt>, awards: seq<Award>, i: nat)
    requires SettledRoster(round, ledger, rows, awards) && i < |awards|
    ensures awards[i].bullion == ExpectedMyne(round, Some(round.soloSample), Mine(rows, awards[i].miner.address))
  {
    AwardBullion(round, rows, awards, i);
    AwardMember(round, rows, awards, i);
    BaseMatches(round, ledger, rows, awards[i].miner);
    SumMine(RoundShare(round, round.motherlodeEmission), rows, awards[i].miner.address);
  }

  // ----- additivity -----

  lemma SolAdditive(round: Round, a: seq<Receipt>, b: seq<Receipt>)
    ensures ExpectedSol(round, a + b) == ExpectedSol(round, a) + ExpectedSol(round, b)
  {
    if round.winningSquare < GRID { SumAppend(TileShare(round, round.potForWinners), a, b); }
    SumAppend(RoundShare(round, round.motherlodePayoutLamports), a, b);
  }

  /** Different receipts of one ledger. */
  ghost predicate Part(ledger: seq<Receipt>, s: seq<Receipt>) {
    && (forall r :: r in s ==> r in ledger)
    && (forall i, j :: 0 <= i < j < |s| ==> s[i].key != s[j].key)
  }

  lemma AtMostOneSelected(round: Round, ledger: seq<Receipt>, sample: nat, s: seq<Receipt>, i: nat, j: nat)
    requires WellFormed(ledger) && Part(ledger, s) && round.winningSquare < GRID && i < |s| && j < |s|
    requires Covers(s[i], round.winningSquare, sample) && Covers(s[j], round.winningSquare, sample)
    ensures i == j
  {
    assert s[i] in ledger && s[j] in ledger;
    var x :| 0 <= x < |ledger| && ledger[x] == s[i];
    var y :| 0 <= y < |ledger| && ledger[y] == s[j];
    SampleCoveredOnce(ledger, round.winningSquare, sample, x, y);
  }

  lemma SelectedAppend(round: Round, ledger: seq<Receipt>, sample: Option<nat>, a: seq<Receipt>, b: seq<Receipt>)
    requires WellFormed(ledger) && Part(ledger, a + b) && round.winningSquare < GRID
    ensures Selected(round, sample, a + b) <==> Selected(round, sample, a) || Selected(round, sample, b)
    ensures !(Selected(round, sample, a) && Selected(round, sample, b))
  {
    var s := a + b;
    assert forall r :: r in s <==> r in a || r in b;
    if Selected(round, sample, a) && Selected(round, sample, b) {
      var r :| r in a && Covers(r, round.winningSquare, sample.value);
      var x :| x in b && Covers(x, round.winningSquare, sample.value);
      var i :| 0 <= i < |a| && a[i] == r;
      var j :| 0 <= j < |b| && b[j] == x;
      assert s[i] == r && s[|a| + j] == x;
      AtMostOneSelected(round, ledger, sample.value, s, i, |a| + j);
      assert false;
    }
  }

  /** The solo emission is never counted in both of two disjoint sets of receipts. */
  lemma MyneAdditive(round: Round, ledger: seq<Receipt>, sample: Option<nat>, a: seq<Receipt>, b: seq<Receipt>)
    requires WellFormed(ledger) && Part(ledger, a + b)
    ensures ExpectedMyne(round, sample, a + b) == ExpectedMyne(round, sample, a) + ExpectedMyne(round, sample, b)
  {
    if round.winningSquare < GRID {
      SumAppend(TileShare(round, round.bullionForWinners), a, b);
      SelectedAppend(round, ledger, sample, a, b);
    }
    SumAppend(RoundShare(round, round.motherlodeEmission), a, b);
  }
}
