/**
 * `receipt_rewards` and `settle_receipt` of Protocol/programs/myne_protocol/src/lib.rs: what the program
 * credits for one receipt, and the page's headline (Frontend/src/main.js) while a wallet's receipts of
 * any number of rounds turn, one by one, from estimates into balances.
 */
module ReceiptSettlement {
  import opened Common
  import opened Sums
  import opened RoundRewards
  import opened ReceiptLedger
  import opened MinerRoster
  import opened RoundWinners
  import opened ReceiptAccrual

  const U64_MAX: nat := 0xFFFF_FFFF_FFFF_FFFF

  // receipt.reward_mode
  const ACCUMULATE: nat := 0
  const BURN: nat := 1

  const BURN_WEIGHT_MULTIPLIER: nat := 5

  // ----- the program's checked arithmetic; None is an error, which rolls the transaction back -----

  function CheckedAdd(a: nat, b: nat): Option<nat> { if a + b <= U64_MAX then Some(a + b) else None }

  function MulDiv(value: nat, numerator: nat, denominator: nat): Option<nat> {
    if denominator == 0 || value * numerator / denominator > U64_MAX then None
    else Some(value * numerator / denominator)
  }

  /** `proportional_interval_share`. */
  function IntervalShare(pool: nat, start: nat, amount: nat, denominator: nat): Option<nat> {
    if denominator == 0 || CheckedAdd(start, amount).None? || start + amount > denominator then None
    else
      var end, before := MulDiv(pool, start + amount, denominator), MulDiv(pool, start, denominator);
      if end.None? || before.None? || end.value < before.value then None else Some(end.value - before.value)
  }

  /** `try_fold` over the tile starts. */
  function CheckedSum(s: seq<nat>): Option<nat> {
    if s == [] then Some(0)
    else
      var rest := CheckedSum(s[..|s| - 1]);
      if rest.None? then None else CheckedAdd(rest.value, s[|s| - 1])
  }

  // ----- receipt_rewards -----

  datatype Rewards = Rewards(sol: nat, myne: nat, motherlode: nat)

  function TileSol(round: Round, r: Receipt): Option<nat>
    requires round.winningSquare < GRID
  {
    var w := round.winningSquare;
    if r.amounts[w] > 0 && round.winnerTotal > 0
    then IntervalShare(round.potForWinners, r.starts[w], r.amounts[w], round.winnerTotal)
    else Some(0)
  }

  function TileMyne(round: Round, r: Receipt): Option<nat>
    requires round.winningSquare < GRID
  {
    var w := round.winningSquare;
    if !(r.amounts[w] > 0 && round.winnerTotal > 0) then Some(0)
    else if !round.singleMinerRound
    then IntervalShare(round.bullionForWinners, r.starts[w], r.amounts[w], round.winnerTotal)
    else
      var end := CheckedAdd(r.starts[w], r.amounts[w]);
      if end.None? then None
      else Some(if r.starts[w] <= round.soloSample < end.value then round.bullionForWinners else 0)
  }

  /** A round-wide pool, shared by total deployment whether or not the round is a hit. */
  function RoundLeg(round: Round, r: Receipt, pool: nat): Option<nat> {
    var start := CheckedSum(r.starts);
    if start.None? then None
    else if round.totalWager > 0 then IntervalShare(pool, start.value, r.total, round.totalWager)
    else Some(0)
  }

  function RewardsOf(round: Round, r: Receipt): Option<Rewards> {
    if round.winningSquare >= GRID then None
    else
      var sol, myne := TileSol(round, r), TileMyne(round, r);
      var sharedSol := RoundLeg(round, r, round.motherlodePayoutLamports);
      var sharedMyne := RoundLeg(round, r, round.motherlodeEmission);
      if sol.None? || myne.None? || sharedSol.None? || sharedMyne.None? then None
      else if CheckedAdd(sol.value, sharedSol.value).None? then None
      else Some(Rewards(sol.value + sharedSol.value, myne.value, sharedMyne.value))
  }

  // ----- the program's shares are the client's -----

  lemma ShareValue(pool: nat, start: nat, amount: nat, denominator: nat)
    ensures IntervalShare(pool, start, amount, denominator).Some?
      ==> IntervalShare(pool, start, amount, denominator).value == IntervalReward(pool, start, amount, denominator)
  {
    if denominator > 0 && start + amount <= denominator && pool == 0 {
      assert pool * start == pool * (start + amount) == 0;
    }
  }

  lemma ShareDefined(pool: nat, start: nat, amount: nat, denominator: nat)
    requires 0 < denominator <= U64_MAX && pool <= U64_MAX && start + amount <= denominator
    ensures IntervalShare(pool, start, amount, denominator).Some?
  {
    FloorMonotone(pool, start, start + amount, denominator);
    FloorMonotone(pool, start + amount, denominator, denominator);
    FloorWhole(pool, denominator);
  }

  lemma {:induction false} CheckedSumValue(s: seq<nat>)
    ensures CheckedSum(s) == if TileSum(s) <= U64_MAX then Some(TileSum(s)) else None
  {
    TileSumNonNegative(s);
    if s != [] {
      CheckedSumValue(s[..|s| - 1]);
      TileSumNonNegative(s[..|s| - 1]);
    }
  }

  lemma RoundLegValue(round: Round, r: Receipt, pool: nat)
    ensures RoundLeg(round, r, pool).Some? ==> RoundLeg(round, r, pool).value == RoundShare(round, pool)(r)
  {
    CheckedSumValue(r.starts);
    TileSumNonNegative(r.starts);
    if CheckedSum(r.starts).Some? { ShareValue(pool, TileSum(r.starts), r.total, round.totalWager); }
  }

  lemma TileSolValue(round: Round, r: Receipt)
    requires round.winningSquare < GRID
    ensures TileSol(round, r).Some? ==> TileSol(round, r).value == TileShare(round, round.potForWinners)(r)
  {
    var w := round.winningSquare;
    ShareValue(round.potForWinners, r.starts[w], r.amounts[w], round.winnerTotal);
  }

  lemma TileMyneValue(round: Round, r: Receipt)
    requires round.winningSquare < GRID
    ensures TileMyne(round, r).Some? ==>
      TileMyne(round, r).value == ExpectedBaseMyne(round, Some(round.soloSample), [r])
  {
    var w := round.winningSquare;
    ShareValue(round.bullionForWinners, r.starts[w], r.amounts[w], round.winnerTotal);
    SumLone(TileShare(round, round.bullionForWinners), r);
    assert r in [r];
  }

  // The Motherlode legs of rounds that are no hit: the program pays them, the estimates leave them out.

  function UncountedSol(round: Round, receipts: seq<Receipt>): int {
    if round.jackpotHit then 0 else Sum(RoundShare(round, round.motherlodePayoutLamports), receipts)
  }

  function UncountedMyne(round: Round, receipts: seq<Receipt>): int {
    if round.jackpotHit then 0 else Sum(RoundShare(round, round.motherlodeEmission), receipts)
  }

  /** The page's estimate; claimable rounds are chain reads, which always carry the solo sample. */
  function EstimateMyne(round: Round, receipts: seq<Receipt>): int {
    ExpectedMyne(round, Some(round.soloSample), receipts)
  }

  /** What the program credits for a receipt is the client's estimate of it, exactly, on every hit; on
      other rounds it is more by the Motherlode legs. */
  lemma CreditIsEstimate(round: Round, r: Receipt)
    requires RewardsOf(round, r).Some?
    ensures var p := RewardsOf(round, r).value;
      && p.sol == ExpectedSol(round, [r]) + UncountedSol(round, [r])
      && p.myne + p.motherlode == EstimateMyne(round, [r]) + UncountedMyne(round, [r])
  {
    TileSolValue(round, r);
    TileMyneValue(round, r);
    RoundLegValue(round, r, round.motherlodePayoutLamports);
    RoundLegValue(round, r, round.motherlodeEmission);
    SumLone(TileShare(round, round.potForWinners), r);
    SumLone(RoundShare(round, round.motherlodePayoutLamports), r);
    SumLone(RoundShare(round, round.motherlodeEmission), r);
  }

  /** The account fields' own width. */
  predicate Fits(round: Round) {
    && round.winnerTotal <= U64_MAX && round.totalWager <= U64_MAX
    && round.potForWinners <= U64_MAX && round.bullionForWinners <= U64_MAX
    && round.motherlodePayoutLamports <= U64_MAX && round.motherlodeEmission <= U64_MAX
  }

  lemma RoundInRange(ledger: seq<Receipt>, i: nat)
    requires WellFormed(ledger) && i < |ledger|
    ensures 0 <= TileSum(ledger[i].starts) && TileSum(ledger[i].starts) + ledger[i].total <= Sum(Total(), ledger)
  {
    StartsSumToRoundTotal(ledger, i);
    TileSumNonNegative(ledger[i].starts);
    SumRemove(Total(), ledger, i);
    SumAppend(Total(), ledger[..i], ledger[i + 1..]);
    var zero := (r: Receipt) => 0;
    SumZero(zero, ledger[i + 1..]);
    SumMonotone(zero, Total(), ledger[i + 1..]);
  }

  /** Over a settled ledger the only error left is the sum of the two SOL legs leaving 64 bits. */
  lemma SettlementDefinedIff(round: Round, ledger: seq<Receipt>, i: nat)
    requires WellFormed(ledger) && Settles(round, ledger) && Fits(round) && i < |ledger|
    ensures RewardsOf(round, ledger[i]).Some? <==>
      TileShare(round, round.potForWinners)(ledger[i])
      + RoundShare(round, round.motherlodePayoutLamports)(ledger[i]) <= 18_446_744_073_709_551_615
  {
    var r, w := ledger[i], round.winningSquare;
    TileInRange(ledger, w, i);
    RoundInRange(ledger, i);
    CheckedSumValue(r.starts);
    if round.winnerTotal > 0 {
      ShareDefined(round.potForWinners, r.starts[w], r.amounts[w], round.winnerTotal);
      ShareDefined(round.bullionForWinners, r.starts[w], r.amounts[w], round.winnerTotal);
    }
    if round.totalWager > 0 {
      ShareDefined(round.motherlodePayoutLamports, TileSum(r.starts), r.total, round.totalWager);
      ShareDefined(round.motherlodeEmission, TileSum(r.starts), r.total, round.totalWager);
    }
    TileSolValue(round, r);
    RoundLegValue(round, r, round.motherlodePayoutLamports);
  }

  /** What the program moves out of the round for a receipt; nothing if the instruction fails. */
  function SolCredit(round: Round): Receipt -> int {
    (r: Receipt) => if RewardsOf(round, r).Some? then RewardsOf(round, r).value.sol else 0
  }

  /** If the computation succeeds for every receipt, settling a whole round, receipt by receipt and in 64-bit
      arithmetic, moves out exactly its prize pot and its Motherlode payout: the round account is neither
      overdrawn nor left with dust. */
  lemma ProgramPaysPools(round: Round, ledger: seq<Receipt>)
    requires WellFormed(ledger) && Settles(round, ledger)
    requires forall r :: r in ledger ==> RewardsOf(round, r).Some?
    ensures Sum(SolCredit(round), ledger)
      == (if round.winnerTotal > 0 then round.potForWinners else 0)
       + (if round.totalWager > 0 then round.motherlodePayoutLamports else 0)
  {
    var tile, shared := TileShare(round, round.potForWinners), RoundShare(round, round.motherlodePayoutLamports);
    TileShareTotal(round, ledger, ledger, round.potForWinners);
    RoundShareTotal(round, ledger, ledger, round.motherlodePayoutLamports);
    forall r | r in ledger ensures SolCredit(round)(r) == tile(r) + shared(r) {
      TileSolValue(round, r);
      RoundLegValue(round, r, round.motherlodePayoutLamports);
    }
    SumAdd(tile, shared, SolCredit(round), ledger);
  }

  /** With both SOL pools together within 64 bits the computation succeeds for every receipt. */
  lemma PoolsFit(round: Round, ledger: seq<Receipt>, r: Receipt)
    requires WellFormed(ledger) && Settles(round, ledger) && Fits(round) && r in ledger
    requires round.potForWinners + round.motherlodePayoutLamports <= U64_MAX
    ensures RewardsOf(round, r).Some?
  {
    var tile, shared := TileShare(round, round.potForWinners), RoundShare(round, round.motherlodePayoutLamports);
    var i :| 0 <= i < |ledger| && ledger[i] == r;
    TileShareTotal(round, ledger, ledger, round.potForWinners);
    RoundShareTotal(round, ledger, ledger, round.motherlodePayoutLamports);
    SumTermBound(tile, ledger, r);
    SumTermBound(shared, ledger, r);
    SettlementDefinedIff(round, ledger, i);
  }

  // ----- settle_receipt -----

  /** What settling one receipt credits: SOL, withdrawable MYNE, and MYNE turned into burn stake. */
  datatype Credit = Credit(sol: nat, myne: nat, burned: nat)

  /** `settle_receipt`, with the burn's checked sum and its checked weight; None if it fails. */
  function CreditOf(round: Round, r: Receipt): Option<Credit> {
    var rewards := RewardsOf(round, r);
    if !round.resolved || r.claimed || r.refunded || rewards.None? || r.rewardMode > BURN then None
    else
      var p := rewards.value;
      var burned := if r.rewardMode == BURN then CheckedAdd(p.myne, p.motherlode) else Some(p.motherlode);
      if burned.None? || burned.value * BURN_WEIGHT_MULTIPLIER > U64_MAX then None
      else Some(Credit(p.sol, if r.rewardMode == ACCUMULATE then p.myne else 0, burned.value))
  }

  function EstimateBase(round: Round, r: Receipt): int { ExpectedBaseMyne(round, Some(round.soloSample), [r]) }

  /** What of a receipt's MYNE estimate is burned and never becomes withdrawable: the base emission in burn
      mode, and the Motherlode emission on a hit. */
  function Withheld(round: Round): Receipt -> int {
    (r: Receipt) =>
      (if r.rewardMode == 1 then EstimateBase(round, r) else 0)
      + if round.jackpotHit then RoundShare(round, round.motherlodeEmission)(r) else 0
  }

  /** A receipt that keeps the MYNE headline where it is. */
  predicate Harmless(round: Round, r: Receipt) {
    && (r.rewardMode == 1 ==> EstimateBase(round, r) == 0)
    && (round.jackpotHit ==> RoundShare(round, round.motherlodeEmission)(r) == 0)
  }

  /** A receipt that keeps the SOL headline where it is: its Motherlode leg, if any, is in the estimate. */
  predicate SolHarmless(round: Round, r: Receipt) {
    !round.jackpotHit ==> RoundShare(round, round.motherlodePayoutLamports)(r) == 0
  }

  lemma UncountedZeroIff(round: Round, r: Receipt)
    ensures UncountedSol(round, [r]) >= 0 && (UncountedSol(round, [r]) == 0 <==> SolHarmless(round, r))
  {
    SumLone(RoundShare(round, round.motherlodePayoutLamports), r);
    assert RoundShare(round, round.motherlodePayoutLamports)(r)
        == IntervalReward(round.motherlodePayoutLamports, TileSum(r.starts), r.total, round.totalWager);
  }

  lemma WithheldZeroIff(round: Round, r: Receipt)
    ensures Withheld(round)(r) >= 0 && (Withheld(round)(r) == 0 <==> Harmless(round, r))
  {
    if round.winningSquare < GRID { SumLone(TileShare(round, round.bullionForWinners), r); }
    assert EstimateBase(round, r) >= 0;
    assert RoundShare(round, round.motherlodeEmission)(r) >= 0;
  }

  /** Credit by credit: SOL as estimated plus the uncounted leg, MYNE as estimated less what is withheld, and
      everything withheld or uncounted burned. */
  lemma CreditSplit(round: Round, r: Receipt)
    requires CreditOf(round, r).Some?
    ensures var c := CreditOf(round, r).value;
      && c.sol == ExpectedSol(round, [r]) + UncountedSol(round, [r])
      && c.myne == EstimateMyne(round, [r]) - Withheld(round)(r)
      && c.burned == Withheld(round)(r) + UncountedMyne(round, [r])
      && (r.rewardMode == 0 ==> c.myne == EstimateBase(round, r))
      && (r.rewardMode == 1 ==> c.myne == 0) && (r.rewardMode == 0 || r.rewardMode == 1)
  {
    CreditIsEstimate(round, r);
    TileMyneValue(round, r);
    RoundLegValue(round, r, round.motherlodeEmission);
    SumLone(RoundShare(round, round.motherlodeEmission), r);
  }

  /** Exactly which receipts of a settled ledger the program settles. */
  lemma CreditDefinedIff(round: Round, ledger: seq<Receipt>, i: nat)
    requires WellFormed(ledger) && Settles(round, ledger) && Fits(round) && i < |ledger|
    ensures CreditOf(round, ledger[i]).Some? <==> Settleable(round, ledger[i])
  {
    var r := ledger[i];
    SettlementDefinedIff(round, ledger, i);
    if RewardsOf(round, r).Some? {
      TileMyneValue(round, r);
      RoundLegValue(round, r, round.motherlodeEmission);
    }
  }

  /** Unprocessed, in a known reward mode, and with SOL and fivefold burn weight within 64 bits. */
  predicate Settleable(round: Round, r: Receipt)
    requires round.winningSquare < GRID
  {
    && !r.claimed && !r.refunded && (r.rewardMode == 0 || r.rewardMode == 1)
    && TileShare(round, round.potForWinners)(r) + RoundShare(round, round.motherlodePayoutLamports)(r)
       <= 18_446_744_073_709_551_615
    && 5 * ((if r.rewardMode == 1 then EstimateBase(round, r) else 0)
            + RoundShare(round, round.motherlodeEmission)(r)) <= 18_446_744_073_709_551_615
  }

  // ----- a wallet's receipts, round by round -----

  /** Open and settled receipts per round, and what settling them credited. */
  datatype Wallet = Wallet(
    open: seq<seq<Receipt>>,
    settled: seq<seq<Receipt>>,
    sol: int,
    myne: int,
    burned: int)

  ghost predicate Filed(rounds: seq<Round>, w: Wallet) { |w.open| == |w.settled| == |rounds| }

  function Without(s: seq<Receipt>, i: nat): seq<Receipt>
    requires i < |s|
  {
    s[..i] + s[i + 1..]
  }

  /** `settle_receipt` on the receipt at a position of one round's open list, by the owner or a keeper. A
      position already gone is a lost race; an instruction that fails changes nothing. */
  function Settle(rounds: seq<Round>, w: Wallet, k: nat, pick: nat): (w': Wallet)
    requires |w.open| == |w.settled| == |rounds|
    ensures Filed(rounds, w')
  {
    if k >= |rounds| || pick >= |w.open[k]| then w
    else
      var r := w.open[k][pick];
      var credit := CreditOf(rounds[k], r);
      if credit.None? then w
      else
        var c := credit.value;
        Wallet(w.open[k := Without(w.open[k], pick)], w.settled[k := w.settled[k] + [r]],
               w.sol + c.sol, w.myne + c.myne, w.burned + c.burned)
  }

  datatype Step = Step(round: nat, pick: nat)

  function SettleAll(rounds: seq<Round>, w: Wallet, steps: seq<Step>): (w': Wallet)
    requires |w.open| == |w.settled| == |rounds|
    ensures Filed(rounds, w')
    decreases |steps|
  {
    if steps == [] then w
    else SettleAll(rounds, Settle(rounds, w, steps[0].round, steps[0].pick), steps[1..])
  }

  /** A figure summed over the rounds. */
  function Across(f: (Round, seq<Receipt>) -> int, rounds: seq<Round>, lists: seq<seq<Receipt>>): int
    requires |rounds| == |lists|
  {
    if rounds == [] then 0
    else
      var n := |rounds| - 1;
      Across(f, rounds[..n], lists[..n]) + f(rounds[n], lists[n])
  }

  lemma {:induction false} AcrossUpdate(f: (Round, seq<Receipt>) -> int, rounds: seq<Round>,
                                        lists: seq<seq<Receipt>>, k: nat, s: seq<Receipt>)
    requires |rounds| == |lists| && k < |rounds|
    ensures Across(f, rounds, lists[k := s]) == Across(f, rounds, lists) + f(rounds[k], s) - f(rounds[k], lists[k])
  {
    var n := |rounds| - 1;
    if k == n {
      assert lists[k := s][..n] == lists[..n];
    } else {
      assert lists[k := s][..n] == lists[..n][k := s];
      AcrossUpdate(f, rounds[..n], lists[..n], k, s);
    }
  }

  lemma {:induction false} AcrossZero(f: (Round, seq<Receipt>) -> int, rounds: seq<Round>, lists: seq<seq<Receipt>>)
    requires |rounds| == |lists| && forall k :: 0 <= k < |rounds| ==> f(rounds[k], lists[k]) == 0
    ensures Across(f, rounds, lists) == 0
  {
    if rounds != [] { AcrossZero(f, rounds[..|rounds| - 1], lists[..|lists| - 1]); }
  }

  /** The page's headline: durable balances plus the estimates of receipts still open. */
  function HeadlineSol(rounds: seq<Round>, w: Wallet): int
    requires |w.open| == |rounds|
  {
    w.sol + Across(ExpectedSol, rounds, w.open)
  }

  function HeadlineMyne(rounds: seq<Round>, w: Wallet): int
    requires |w.open| == |rounds|
  {
    w.myne + Across(EstimateMyne, rounds, w.open)
  }

  /** Every round's open receipts are different receipts of that round's ledger. */
  ghost predicate Books(rounds: seq<Round>, ledgers: seq<seq<Receipt>>, w: Wallet) {
    && |ledgers| == |rounds| && |w.open| == |w.settled| == |rounds|
    && forall k :: 0 <= k < |rounds| ==> WellFormed(ledgers[k]) && Part(ledgers[k], w.open[k])
  }

  lemma PartRemove(ledger: seq<Receipt>, s: seq<Receipt>, i: nat)
    requires Part(ledger, s) && i < |s|
    ensures Part(ledger, Without(s, i)) && Part(ledger, [s[i]] + Without(s, i))
  {
    var rest := Without(s, i);
    forall r | r in rest ensures r in s {
      var j :| 0 <= j < |rest| && rest[j] == r;
      assert r == if j < i then s[j] else s[j + 1];
    }
    forall x, y | 0 <= x < y < |rest| ensures rest[x].key != rest[y].key {
      assert rest[x] == if x < i then s[x] else s[x + 1];
      assert rest[y] == if y < i then s[y] else s[y + 1];
    }
    forall y | 0 <= y < |rest| ensures s[i].key != rest[y].key {
      assert rest[y] == if y < i then s[y] else s[y + 1];
    }
  }

  lemma EstimateReorder(round: Round, s: seq<Receipt>, t: seq<Receipt>)
    requires multiset(s) == multiset(t)
    ensures ExpectedSol(round, s) == ExpectedSol(round, t) && EstimateMyne(round, s) == EstimateMyne(round, t)
    ensures UncountedSol(round, s) == UncountedSol(round, t) && UncountedMyne(round, s) == UncountedMyne(round, t)
  {
    SameElements(s, t);
    if round.winningSquare < GRID {
      SumPermutation(TileShare(round, round.potForWinners), s, t);
      SumPermutation(TileShare(round, round.bullionForWinners), s, t);
    }
    SumPermutation(RoundShare(round, round.motherlodePayoutLamports), s, t);
    SumPermutation(RoundShare(round, round.motherlodeEmission), s, t);
  }

  /** Taking one receipt out of the open list lowers the estimates by that receipt's own. */
  lemma EstimateRemove(round: Round, ledger: seq<Receipt>, s: seq<Receipt>, i: nat)
    requires WellFormed(ledger) && Part(ledger, s) && i < |s|
    ensures ExpectedSol(round, s) == ExpectedSol(round, [s[i]]) + ExpectedSol(round, Without(s, i))
    ensures EstimateMyne(round, s) == EstimateMyne(round, [s[i]]) + EstimateMyne(round, Without(s, i))
  {
    PartRemove(ledger, s, i);
    SolAdditive(round, [s[i]], Without(s, i));
    MyneAdditive(round, ledger, Some(round.soloSample), [s[i]], Without(s, i));
    MultisetRemove(s, i);
    EstimateReorder(round, s, [s[i]] + Without(s, i));
  }

  function WithheldFrom(round: Round, receipts: seq<Receipt>): int { Sum(Withheld(round), receipts) }

  lemma SettledAppend(round: Round, s: seq<Receipt>, r: Receipt)
    ensures UncountedSol(round, s + [r]) == UncountedSol(round, s) + UncountedSol(round, [r])
    ensures UncountedMyne(round, s + [r]) == UncountedMyne(round, s) + UncountedMyne(round, [r])
    ensures WithheldFrom(round, s + [r]) == WithheldFrom(round, s) + Withheld(round)(r)
  {
    SumAppend(RoundShare(round, round.motherlodePayoutLamports), s, [r]);
    SumAppend(RoundShare(round, round.motherlodeEmission), s, [r]);
    SumAppend(Withheld(round), s, [r]);
    SumLone(Withheld(round), r);
  }

  /** Does this step settle a receipt? */
  predicate Lands(rounds: seq<Round>, w: Wallet, k: nat, pick: nat)
    requires |w.open| == |rounds|
  {
    k < |rounds| && pick < |w.open[k]| && CreditOf(rounds[k], w.open[k][pick]).Some?
  }

  /** One step that settles a receipt: the SOL headline goes up by its uncounted leg, the MYNE headline down by
      what is withheld of it, and each is unchanged exactly for the receipts harmless to it. */
  lemma HeadlineStep(rounds: seq<Round>, ledgers: seq<seq<Receipt>>, w: Wallet, k: nat, pick: nat)
    requires Books(rounds, ledgers, w) && Lands(rounds, w, k, pick)
    ensures var w', r := Settle(rounds, w, k, pick), w.open[k][pick];
      && Books(rounds, ledgers, w')
      && HeadlineSol(rounds, w') == HeadlineSol(rounds, w) + UncountedSol(rounds[k], [r])
      && HeadlineMyne(rounds, w') == HeadlineMyne(rounds, w) - Withheld(rounds[k])(r)
      && HeadlineSol(rounds, w') >= HeadlineSol(rounds, w) && HeadlineMyne(rounds, w') <= HeadlineMyne(rounds, w)
      && (HeadlineSol(rounds, w') == HeadlineSol(rounds, w) <==> SolHarmless(rounds[k], r))
      && (HeadlineMyne(rounds, w') == HeadlineMyne(rounds, w) <==> Harmless(rounds[k], r))
  {
    var w', r := Settle(rounds, w, k, pick), w.open[k][pick];
    PartRemove(ledgers[k], w.open[k], pick);
    CreditSplit(rounds[k], r);
    WithheldZeroIff(rounds[k], r);
    UncountedZeroIff(rounds[k], r);
    EstimateRemove(rounds[k], ledgers[k], w.open[k], pick);
    AcrossUpdate(ExpectedSol, rounds, w.open, k, w'.open[k]);
    AcrossUpdate(EstimateMyne, rounds, w.open, k, w'.open[k]);
  }

  /** The figures a run keeps: SOL less the uncounted legs, MYNE with what was withheld, and what was burned
      without either. */
  function SolLevel(rounds: seq<Round>, w: Wallet): int
    requires |w.open| == |w.settled| == |rounds|
  {
    HeadlineSol(rounds, w) - Across(UncountedSol, rounds, w.settled)
  }

  function MyneLevel(rounds: seq<Round>, w: Wallet): int
    requires |w.open| == |w.settled| == |rounds|
  {
    HeadlineMyne(rounds, w) + Across(WithheldFrom, rounds, w.settled)
  }

  function BurnLevel(rounds: seq<Round>, w: Wallet): int
    requires |w.settled| == |rounds|
  {
    w.burned - Across(WithheldFrom, rounds, w.settled) - Across(UncountedMyne, rounds, w.settled)
  }

  ghost predicate SameLevels(rounds: seq<Round>, w: Wallet, w': Wallet)
    requires |w.open| == |w.settled| == |rounds| && |w'.open| == |w'.settled| == |rounds|
  {
    && SolLevel(rounds, w') == SolLevel(rounds, w) && MyneLevel(rounds, w') == MyneLevel(rounds, w)
    && BurnLevel(rounds, w') == BurnLevel(rounds, w)
  }

  lemma SettleKeepsLevels(rounds: seq<Round>, ledgers: seq<seq<Receipt>>, w: Wallet, k: nat, pick: nat)
    requires Books(rounds, ledgers, w)
    ensures var w' := Settle(rounds, w, k, pick); Books(rounds, ledgers, w') && SameLevels(rounds, w, w')
  {
    if Lands(rounds, w, k, pick) {
      var w', r := Settle(rounds, w, k, pick), w.open[k][pick];
      HeadlineStep(rounds, ledgers, w, k, pick);
      CreditSplit(rounds[k], r);
      SettledAppend(rounds[k], w.settled[k], r);
      AcrossUpdate(UncountedSol, rounds, w.settled, k, w'.settled[k]);
      AcrossUpdate(UncountedMyne, rounds, w.settled, k, w'.settled[k]);
      AcrossUpdate(WithheldFrom, rounds, w.settled, k, w'.settled[k]);
    }
  }

  lemma {:induction false} RunKeepsLevels(rounds: seq<Round>, ledgers: seq<seq<Receipt>>, w: Wallet, steps: seq<Step>)
    requires Books(rounds, ledgers, w)
    ensures var w' := SettleAll(rounds, w, steps); Books(rounds, ledgers, w') && SameLevels(rounds, w, w')
    decreases |steps|
  {
    if steps != [] {
      SettleKeepsLevels(rounds, ledgers, w, steps[0].round, steps[0].pick);
      RunKeepsLevels(rounds, ledgers, Settle(rounds, w, steps[0].round, steps[0].pick), steps[1..]);
    }
  }

  /** What the program's own settlement leaves in a round: Motherlode pools only on a hit. */
  predicate PoolsOnlyOnHit(round: Round) {
    round.jackpotHit || (round.motherlodePayoutLamports == 0 && round.motherlodeEmission == 0)
  }

  lemma NothingUncounted(round: Round, receipts: seq<Receipt>)
    requires PoolsOnlyOnHit(round)
    ensures UncountedSol(round, receipts) == UncountedMyne(round, receipts) == 0
  {
    if !round.jackpotHit { SumZero(RoundShare(round, 0), receipts); }
  }

  /**
   * Along every run of settlements over all of a wallet's rounds, the SOL headline rises by exactly the
   * uncounted Motherlode legs of the receipts settled, the MYNE headline falls by exactly what is withheld
   * of them, and what is burned is the two MYNE figures together. With pools only on hits, SOL stays
   * constant and MYNE loses only what is burned.
   */
  lemma HeadlineConstant(rounds: seq<Round>, ledgers: seq<seq<Receipt>>, w: Wallet, steps: seq<Step>)
    requires Books(rounds, ledgers, w)
    ensures var w' := SettleAll(rounds, w, steps);
      var withheld := Across(WithheldFrom, rounds, w'.settled) - Across(WithheldFrom, rounds, w.settled);
      && HeadlineSol(rounds, w') - HeadlineSol(rounds, w)
         == Across(UncountedSol, rounds, w'.settled) - Across(UncountedSol, rounds, w.settled)
      && HeadlineMyne(rounds, w') == HeadlineMyne(rounds, w) - withheld
      && w'.burned - w.burned
         == withheld + Across(UncountedMyne, rounds, w'.settled) - Across(UncountedMyne, rounds, w.settled)
    ensures var w' := SettleAll(rounds, w, steps);
      (forall k :: 0 <= k < |rounds| ==> PoolsOnlyOnHit(rounds[k])) ==>
        && HeadlineSol(rounds, w') == HeadlineSol(rounds, w)
        && HeadlineMyne(rounds, w') + w'.burned == HeadlineMyne(rounds, w) + w.burned
  {
    RunKeepsLevels(rounds, ledgers, w, steps);
    if forall k :: 0 <= k < |rounds| ==> PoolsOnlyOnHit(rounds[k]) {
      var w' := SettleAll(rounds, w, steps);
      forall k | 0 <= k < |rounds|
        ensures UncountedSol(rounds[k], w.settled[k]) == UncountedMyne(rounds[k], w.settled[k]) == 0
        ensures UncountedSol(rounds[k], w'.settled[k]) == UncountedMyne(rounds[k], w'.settled[k]) == 0
      {
        NothingUncounted(rounds[k], w.settled[k]);
        NothingUncounted(rounds[k], w'.settled[k]);
      }
      AcrossZero(UncountedSol, rounds, w.settled);
      AcrossZero(UncountedSol, rounds, w'.settled);
      AcrossZero(UncountedMyne, rounds, w.settled);
      AcrossZero(UncountedMyne, rounds, w'.settled);
    }
  }

  // ----- exactly when the headlines keep still -----

  /** Every step of the run that settles a receipt settles one of this kind. */
  predicate RunOnly(kind: (Round, Receipt) -> bool, rounds: seq<Round>, w: Wallet, steps: seq<Step>)
    requires |w.open| == |w.settled| == |rounds|
    decreases |steps|
  {
    steps == [] ||
    var k, pick := steps[0].round, steps[0].pick;
    && (Lands(rounds, w, k, pick) ==> kind(rounds[k], w.open[k][pick]))
    && RunOnly(kind, rounds, Settle(rounds, w, k, pick), steps[1..])
  }

  /** Along a run the SOL headline never falls and the MYNE headline never rises; each ends where it began if
      and only if every receipt the run settles is harmless to it. */
  lemma {:induction false} HeadlineKeptIff(rounds: seq<Round>, ledgers: seq<seq<Receipt>>, w: Wallet, steps: seq<Step>)
    requires Books(rounds, ledgers, w)
    ensures var w' := SettleAll(rounds, w, steps);
      && HeadlineSol(rounds, w') >= HeadlineSol(rounds, w) && HeadlineMyne(rounds, w') <= HeadlineMyne(rounds, w)
      && (HeadlineSol(rounds, w') == HeadlineSol(rounds, w) <==> RunOnly(SolHarmless, rounds, w, steps))
      && (HeadlineMyne(rounds, w') == HeadlineMyne(rounds, w) <==> RunOnly(Harmless, rounds, w, steps))
    decreases |steps|
  {
    if steps != [] {
      var k, pick := steps[0].round, steps[0].pick;
      SettleKeepsLevels(rounds, ledgers, w, k, pick);
      if Lands(rounds, w, k, pick) { HeadlineStep(rounds, ledgers, w, k, pick); }
      HeadlineKeptIff(rounds, ledgers, Settle(rounds, w, k, pick), steps[1..]);
    }
  }

  /** Every open receipt the program would settle is of this kind. */
  ghost predicate OpenOnly(kind: (Round, Receipt) -> bool, rounds: seq<Round>, w: Wallet)
    requires |w.open| == |rounds|
  {
    forall k, r :: 0 <= k < |rounds| && r in w.open[k] && CreditOf(rounds[k], r).Some? ==> kind(rounds[k], r)
  }

  lemma SettleKeepsKind(kind: (Round, Receipt) -> bool, rounds: seq<Round>, w: Wallet, k: nat, pick: nat)
    requires |w.open| == |w.settled| == |rounds| && OpenOnly(kind, rounds, w)
    ensures OpenOnly(kind, rounds, Settle(rounds, w, k, pick))
  {
    if Lands(rounds, w, k, pick) {
      assert forall r :: r in Without(w.open[k], pick) ==> r in w.open[k];
    }
  }

  lemma {:induction false} KindRun(kind: (Round, Receipt) -> bool, rounds: seq<Round>, w: Wallet, steps: seq<Step>)
    requires |w.open| == |w.settled| == |rounds| && OpenOnly(kind, rounds, w)
    ensures RunOnly(kind, rounds, w, steps)
    decreases |steps|
  {
    if steps != [] {
      SettleKeepsKind(kind, rounds, w, steps[0].round, steps[0].pick);
      KindRun(kind, rounds, Settle(rounds, w, steps[0].round, steps[0].pick), steps[1..]);
    }
  }

  /** A single settlement of another kind is a run of its own. */
  lemma OtherKindRun(kind: (Round, Receipt) -> bool, rounds: seq<Round>, w: Wallet, k: nat, r: Receipt)
    returns (steps: seq<Step>)
    requires |w.open| == |w.settled| == |rounds| && k < |rounds| && r in w.open[k]
    requires CreditOf(rounds[k], r).Some? && !kind(rounds[k], r)
    ensures !RunOnly(kind, rounds, w, steps)
  {
    var pick :| 0 <= pick < |w.open[k]| && w.open[k][pick] == r;
    steps := [Step(k, pick)];
  }

  /** No run can move the SOL headline if and only if every open receipt the program would settle is harmless
      to it. */
  lemma HeadlineSolFixedIff(rounds: seq<Round>, ledgers: seq<seq<Receipt>>, w: Wallet)
    requires Books(rounds, ledgers, w)
    ensures (forall steps :: HeadlineSol(rounds, SettleAll(rounds, w, steps)) == HeadlineSol(rounds, w))
      <==> OpenOnly(SolHarmless, rounds, w)
  {
    if OpenOnly(SolHarmless, rounds, w) {
      forall steps ensures HeadlineSol(rounds, SettleAll(rounds, w, steps)) == HeadlineSol(rounds, w) {
        KindRun(SolHarmless, rounds, w, steps);
        HeadlineKeptIff(rounds, ledgers, w, steps);
      }
    } else {
      var k, r :| 0 <= k < |rounds| && r in w.open[k] && CreditOf(rounds[k], r).Some? && !SolHarmless(rounds[k], r);
      var steps := OtherKindRun(SolHarmless, rounds, w, k, r);
      HeadlineKeptIff(rounds, ledgers, w, steps);
    }
  }

  /** No run can move the MYNE headline if and only if every open receipt the program would settle is harmless
      to it. */
  lemma HeadlineMyneFixedIff(rounds: seq<Round>, ledgers: seq<seq<Receipt>>, w: Wallet)
    requires Books(rounds, ledgers, w)
    ensures (forall steps :: HeadlineMyne(rounds, SettleAll(rounds, w, steps)) == HeadlineMyne(rounds, w))
      <==> OpenOnly(Harmless, rounds, w)
  {
    if OpenOnly(Harmless, rounds, w) {
      forall steps ensures HeadlineMyne(rounds, SettleAll(rounds, w, steps)) == HeadlineMyne(rounds, w) {
        KindRun(Harmless, rounds, w, steps);
        HeadlineKeptIff(rounds, ledgers, w, steps);
      }
    } else {
      var k, r :| 0 <= k < |rounds| && r in w.open[k] && CreditOf(rounds[k], r).Some? && !Harmless(rounds[k], r);
      var steps := OtherKindRun(Harmless, rounds, w, k, r);
      HeadlineKeptIff(rounds, ledgers, w, steps);
    }
  }

  // ----- a wallet settled in full -----

  function Receipts(w: Wallet, k: nat): multiset<Receipt>
    requires k < |w.open| && k < |w.settled|
  {
    multiset(w.open[k]) + multiset(w.settled[k])
  }

  lemma SettleKeepsReceipts(rounds: seq<Round>, w: Wallet, k: nat, pick: nat, j: nat)
    requires |w.open| == |w.settled| == |rounds| && j < |rounds|
    ensures Receipts(Settle(rounds, w, k, pick), j) == Receipts(w, j)
  {
    if Settle(rounds, w, k, pick) != w { MultisetRemove(w.open[k], pick); }
  }

  lemma {:induction false} RunKeepsReceipts(rounds: seq<Round>, w: Wallet, steps: seq<Step>, j: nat)
    requires |w.open| == |w.settled| == |rounds| && j < |rounds|
    ensures Receipts(SettleAll(rounds, w, steps), j) == Receipts(w, j)
    decreases |steps|
  {
    if steps != [] {
      SettleKeepsReceipts(rounds, w, steps[0].round, steps[0].pick, j);
      RunKeepsReceipts(rounds, Settle(rounds, w, steps[0].round, steps[0].pick), steps[1..], j);
    }
  }

  lemma {:induction false} MineKeepsKeysDistinct(rows: seq<Receipt>, a: Address)
    requires forall i, j :: 0 <= i < j < |rows| ==> rows[i].key != rows[j].key
    ensures forall i, j :: 0 <= i < j < |Mine(rows, a)| ==> Mine(rows, a)[i].key != Mine(rows, a)[j].key
  {
    if rows != [] {
      var rest, last := rows[..|rows| - 1], rows[|rows| - 1];
      MineKeepsKeysDistinct(rest, a);
      MineMembers(rest, a);
      forall i | 0 <= i < |Mine(rest, a)| ensures Mine(rest, a)[i].key != last.key {
        assert Mine(rest, a)[i] in rest;
      }
    }
  }

  lemma MineIsPart(ledger: seq<Receipt>, rows: seq<Receipt>, a: Address)
    requires WellFormed(ledger) && multiset(rows) == multiset(ledger)
    ensures Part(ledger, Mine(rows, a))
  {
    LedgerRowsSound(ledger, rows);
    MineMembers(rows, a);
    RowsOfLedger(ledger, rows);
    MineKeepsKeysDistinct(rows, a);
  }

  /** A wallet with all its receipts of one round open and nothing credited. */
  function Unsettled(receipts: seq<Receipt>): Wallet { Wallet([receipts], [[]], 0, 0, 0) }

  lemma AcrossOne(f: (Round, seq<Receipt>) -> int, round: Round, s: seq<Receipt>)
    ensures Across(f, [round], [s]) == f(round, s)
  {
    assert [round][..0] == [] && [s][..0] == [];
  }

  lemma WholeRunCredits(round: Round, ledger: seq<Receipt>, mine: seq<Receipt>, steps: seq<Step>)
    requires WellFormed(ledger) && Part(ledger, mine)
    ensures var done := SettleAll([round], Unsettled(mine), steps);
      done.open == [[]] ==>
        && done.sol == ExpectedSol(round, mine) + UncountedSol(round, mine)
        && done.myne + done.burned == EstimateMyne(round, mine) + UncountedMyne(round, mine)
  {
    var start := Unsettled(mine);
    var done := SettleAll([round], start, steps);
    if done.open == [[]] {
      HeadlineConstant([round], [ledger], start, steps);
      RunKeepsReceipts([round], start, steps, 0);
      assert done.open[0] == [] && Receipts(start, 0) == multiset(mine);
      EstimateReorder(round, done.settled[0], mine);
      WholeBooks(round, mine, done);
    }
  }

  /** Once all of a wallet's receipts are settled, in any order and against any races, the program has
      credited exactly the wallet's roster SOL, hit or not, and its roster MYNE, plus on a round that is no
      hit the Motherlode emission the roster withholds. */
  lemma FullyProcessedPaysAward(round: Round, ledger: seq<Receipt>, rows: seq<Receipt>, awards: seq<Award>, i: nat,
                                steps: seq<Step>)
    requires SettledRoster(round, ledger, rows, awards) && i < |awards|
    ensures var mine := Mine(rows, awards[i].miner.address);
      var done := SettleAll([round], Unsettled(mine), steps);
      done.open == [[]] ==>
        && done.sol == awards[i].eth
        && done.myne + done.burned == awards[i].bullion + UncountedMyne(round, mine)
  {
    var a := awards[i].miner.address;
    MineIsPart(ledger, rows, a);
    WholeRunCredits(round, ledger, Mine(rows, a), steps);
    ExpectedSolGap(round, rows, awards, i);
    SumMine(RoundShare(round, round.motherlodePayoutLamports), rows, a);
    MyneEstimateMatchesRoster(round, ledger, rows, awards, i);
  }

  lemma WholeBooks(round: Round, mine: seq<Receipt>, done: Wallet)
    requires done.open == [[]] && |done.settled| == 1
    ensures HeadlineSol([round], Unsettled(mine)) == ExpectedSol(round, mine)
    ensures HeadlineMyne([round], Unsettled(mine)) == EstimateMyne(round, mine)
    ensures HeadlineSol([round], done) == done.sol && HeadlineMyne([round], done) == done.myne
    ensures Across(UncountedSol, [round], [[]]) == Across(UncountedMyne, [round], [[]]) == 0
    ensures Across(UncountedSol, [round], done.settled) == UncountedSol(round, done.settled[0])
    ensures Across(UncountedMyne, [round], done.settled) == UncountedMyne(round, done.settled[0])
  {
    assert done.settled == [done.settled[0]];
    AcrossOne(ExpectedSol, round, mine);
    AcrossOne(EstimateMyne, round, mine);
    AcrossOne(ExpectedSol, round, []);
    AcrossOne(EstimateMyne, round, []);
    AcrossOne(UncountedSol, round, []);
    AcrossOne(UncountedMyne, round, []);
    AcrossOne(UncountedSol, round, done.settled[0]);
    AcrossOne(UncountedMyne, round, done.settled[0]);
  }

  /** How many receipts are still open. */
  function OpenCount(open: seq<seq<Receipt>>): nat {
    if open == [] then 0 else OpenCount(open[..|open| - 1]) + |open[|open| - 1]|
  }

  lemma {:induction false} OpenCountUpdate(open: seq<seq<Receipt>>, k: nat, s: seq<Receipt>)
    requires k < |open|
    ensures OpenCount(open[k := s]) == OpenCount(open) - |open[k]| + |s|
  {
    var n := |open| - 1;
    if k == n {
      assert open[k := s][..n] == open[..n];
    } else {
      assert open[k := s][..n] == open[..n][k := s];
      OpenCountUpdate(open[..n], k, s);
    }
  }

  /** Every round is settled, and every open receipt is one the program settles. */
  ghost predicate AllSettleable(rounds: seq<Round>, ledgers: seq<seq<Receipt>>, w: Wallet) {
    && Books(rounds, ledgers, w)
    && (forall k :: 0 <= k < |rounds| ==> Settles(rounds[k], ledgers[k]) && Fits(rounds[k]))
    && (forall k, r :: 0 <= k < |rounds| && r in w.open[k] ==> Settleable(rounds[k], r))
  }

  lemma SettleableLands(rounds: seq<Round>, ledgers: seq<seq<Receipt>>, w: Wallet, k: nat)
    requires AllSettleable(rounds, ledgers, w) && k < |rounds| && w.open[k] != []
    ensures Lands(rounds, w, k, 0)
  {
    var r := w.open[k][0];
    assert r in ledgers[k];
    var i :| 0 <= i < |ledgers[k]| && ledgers[k][i] == r;
    CreditDefinedIff(rounds[k], ledgers[k], i);
  }

  lemma SettleKeepsSettleable(rounds: seq<Round>, ledgers: seq<seq<Receipt>>, w: Wallet, k: nat)
    requires AllSettleable(rounds, ledgers, w) && Lands(rounds, w, k, 0)
    ensures AllSettleable(rounds, ledgers, Settle(rounds, w, k, 0))
  {
    var w' := Settle(rounds, w, k, 0);
    SettleKeepsLevels(rounds, ledgers, w, k, 0);
    forall j, r | 0 <= j < |rounds| && r in w'.open[j] ensures Settleable(rounds[j], r) {
      assert r in w.open[j];
    }
  }

  lemma SettleCounts(rounds: seq<Round>, w: Wallet, k: nat)
    requires |w.open| == |w.settled| == |rounds| && Lands(rounds, w, k, 0)
    ensures OpenCount(Settle(rounds, w, k, 0).open) == OpenCount(w.open) - 1
  {
    OpenCountUpdate(w.open, k, Without(w.open[k], 0));
  }

  ghost predicate Emptied(w: Wallet) { forall k :: 0 <= k < |w.open| ==> w.open[k] == [] }

  /** Nothing gets stuck: settling open receipts one after another, round by round, empties the wallet. */
  lemma {:induction false} EverythingSettles(rounds: seq<Round>, ledgers: seq<seq<Receipt>>, w: Wallet)
    returns (steps: seq<Step>)
    requires AllSettleable(rounds, ledgers, w)
    ensures Emptied(SettleAll(rounds, w, steps))
    decreases OpenCount(w.open)
  {
    steps := [];
    if !Emptied(w) {
      var k :| 0 <= k < |w.open| && w.open[k] != [];
      SettleableLands(rounds, ledgers, w, k);
      SettleKeepsSettleable(rounds, ledgers, w, k);
      SettleCounts(rounds, w, k);
      var rest := EverythingSettles(rounds, ledgers, Settle(rounds, w, k, 0));
      steps := [Step(k, 0)] + rest;
      assert steps[1..] == rest;
    }
  }

  // ----- what the headline does not keep -----

  /** A split round won by the only receipt, with nothing but a base emission to pay. */
  function EmissionRound(amount: nat, emission: nat): Round {
    Round(true, 0, amount, amount, 0, emission, 0, 0, false, false, 0)
  }

  lemma LoneLegs(round: Round, amount: nat, rewardMode: nat)
    requires 0 < amount == round.totalWager <= U64_MAX
    ensures RoundLeg(round, LoneReceipt(0, amount, rewardMode), 0) == Some(0)
  {
    var r := LoneReceipt(0, amount, rewardMode);
    OneTileSum(0, 0);
    CheckedSumValue(r.starts);
    ShareDefined(0, 0, amount, amount);
    RoundLegValue(round, r, 0);
  }

  lemma WholeShare(pool: nat, amount: nat)
    requires 0 < amount <= U64_MAX && pool <= U64_MAX
    ensures IntervalShare(pool, 0, amount, amount) == Some(pool)
  {
    ShareDefined(pool, 0, amount, amount);
    ShareValue(pool, 0, amount, amount);
    LoneMotherlode(pool, amount);
  }

  lemma LoneEmission(amount: nat, emission: nat, rewardMode: nat)
    requires 0 < amount <= U64_MAX && emission <= U64_MAX
    ensures RewardsOf(EmissionRound(amount, emission), LoneReceipt(0, amount, rewardMode))
      == Some(Rewards(0, emission, 0))
  {
    var round, r := EmissionRound(amount, emission), LoneReceipt(0, amount, rewardMode);
    LoneLegs(round, amount, rewardMode);
    WholeShare(0, amount);
    WholeShare(emission, amount);
    assert r.starts[0] == 0 && r.amounts[0] == amount;
    assert TileSol(round, r) == Some(0) && TileMyne(round, r) == Some(emission);
  }

  lemma BurnCredit(amount: nat, emission: nat)
    requires 0 < amount <= U64_MAX && emission * BURN_WEIGHT_MULTIPLIER <= U64_MAX
    ensures var round, r := EmissionRound(amount, emission), LoneReceipt(0, amount, BURN);
      CreditOf(round, r) == Some(Credit(0, 0, emission)) && EstimateMyne(round, [r]) == emission
  {
    var round, r := EmissionRound(amount, emission), LoneReceipt(0, amount, BURN);
    LoneEmission(amount, emission, BURN);
    CreditIsEstimate(round, r);
    NothingUncounted(round, [r]);
  }

  lemma NothingEstimated(round: Round)
    ensures EstimateMyne(round, []) == 0
  {
  }

  /** A wallet with one open receipt, settled. */
  lemma LoneSettled(round: Round, w: Wallet, w': Wallet, r: Receipt, c: Credit)
    requires w.open == [[r]] && w'.open == [[]] && w.myne == 0 && w'.myne == c.myne
    ensures HeadlineMyne([round], w) == EstimateMyne(round, [r]) && HeadlineMyne([round], w') == c.myne
  {
    AcrossOne(EstimateMyne, round, [r]);
    AcrossOne(EstimateMyne, round, []);
    NothingEstimated(round);
  }

  lemma SettleLone(round: Round, r: Receipt)
    requires CreditOf(round, r).Some?
    ensures var c := CreditOf(round, r).value;
      Settle([round], Unsettled([r]), 0, 0) == Wallet([[]], [[r]], c.sol, c.myne, c.burned)
  {
    assert Without([r], 0) == [] && [] + [r] == [r];
  }

  /** Settling a receipt in burn mode takes its MYNE off the page's headline: it becomes burn stake. */
  lemma BurnLowersHeadline(amount: nat, emission: nat)
    requires 0 < amount <= U64_MAX && emission * BURN_WEIGHT_MULTIPLIER <= U64_MAX
    ensures var round, r := EmissionRound(amount, emission), LoneReceipt(0, amount, BURN);
      var w := Settle([round], Unsettled([r]), 0, 0);
      && Settles(round, [r]) && PoolsOnlyOnHit(round)
      && HeadlineMyne([round], Unsettled([r])) == emission
      && HeadlineMyne([round], w) == 0 && w.burned == emission
  {
    var round, r := EmissionRound(amount, emission), LoneReceipt(0, amount, BURN);
    LoneReceiptSettles(round, 0, amount, BURN);
    BurnCredit(amount, emission);
    SettleLone(round, r);
    LoneSettled(round, Unsettled([r]), Wallet([[]], [[r]], 0, 0, emission), r, Credit(0, 0, emission));
  }
}
