/** `readRoundWinners` of Frontend/src/chain/lottery.js and what a settled round pays in total. */
module RoundWinners {
  import opened Common
  import opened Sums
  import opened RoundRewards
  import opened ReceiptLedger
  import opened MinerRoster

  datatype Award = Award(
    miner: Miner,
    eth: int,
    winningStake: int,
    winningTileTotal: int,
    winningSolReward: int,
    motherlodeSolReward: int,
    prizeLamports: int,
    bullion: int,
    won: bool,
    onWinningTile: bool,
    isSoloWinner: bool,
    motherlodeShare: bool,
    amountKnown: bool)

  datatype Winners =
    | Unsettled(miners: seq<Miner>)
    | Settled(awards: seq<Award>, winners: seq<Award>)

  /** A pool shared over the winning tile. */
  function TileShare(round: Round, pool: nat): Receipt -> int
    requires round.winningSquare < GRID
  {
    Share(pool, StartAt(round.winningSquare), AmountAt(round.winningSquare), round.winnerTotal)
  }

  /** A pool shared over the whole round. */
  function RoundShare(round: Round, pool: nat): Receipt -> int {
    Share(pool, RoundStart(), Total(), round.totalWager)
  }

  /** A reward summed over one wallet's receipts. */
  function Paid(f: Receipt -> int, a: Address, rows: seq<Receipt>): int {
    Sum(Only(f, Authority(), a), rows)
  }

  /** `find`: the wallet of the first receipt covering the sample. */
  function SoloWinner(rows: seq<Receipt>, t: nat, sample: nat): Option<Address>
    requires t < GRID
  {
    if rows == [] then None
    else if Covers(rows[0], t, sample) then Some(rows[0].authority)
    else SoloWinner(rows[1..], t, sample)
  }

  function BaseBullion(round: Round, rows: seq<Receipt>, m: Miner): int
    requires round.winningSquare < GRID && |m.tileBets| == GRID
  {
    if !(m.tileBets[round.winningSquare] > 0 && round.winnerTotal > 0) then 0
    else if round.singleMinerRound then
      if SoloWinner(rows, round.winningSquare, round.soloSample) == Some(m.address) then round.bullionForWinners else 0
    else Paid(TileShare(round, round.bullionForWinners), m.address, rows)
  }

  function MotherlodeBullion(round: Round, rows: seq<Receipt>, m: Miner): int {
    if round.jackpotHit && round.totalWager > 0
    then Paid(RoundShare(round, round.motherlodeEmission), m.address, rows) else 0
  }

  function Enrich(round: Round, rows: seq<Receipt>, m: Miner): Award
    requires round.winningSquare < GRID && |m.tileBets| == GRID
  {
    var stake := m.tileBets[round.winningSquare];
    var onTile := stake > 0 && round.winnerTotal > 0;
    var sol := Paid(TileShare(round, round.potForWinners), m.address, rows);
    var motherlodeSol := Paid(RoundShare(round, round.motherlodePayoutLamports), m.address, rows);
    var motherlodeMyne := MotherlodeBullion(round, rows, m);
    Award(
      m, sol + motherlodeSol, stake, round.winnerTotal, sol, motherlodeSol, round.potForWinners,
      BaseBullion(round, rows, m) + motherlodeMyne,
      onTile || (round.jackpotHit && m.deployed > 0),
      onTile,
      round.singleMinerRound && SoloWinner(rows, round.winningSquare, round.soloSample) == Some(m.address),
      motherlodeSol > 0 || motherlodeMyne > 0,
      true)
  }

  function Miners(awards: seq<Award>): seq<Miner> {
    seq(|awards|, i requires 0 <= i < |awards| => awards[i].miner)
  }

  function Wins(awards: seq<Award>): seq<Award> {
    if awards == [] then []
    else Wins(awards[..|awards| - 1]) + if awards[|awards| - 1].won then [awards[|awards| - 1]] else []
  }

  /** The awards of a round's roster, read from these receipt rows. */
  ghost predicate DirectAwards(round: Round, rows: seq<Receipt>, awards: seq<Award>)
    requires round.winningSquare < GRID
  {
    && IsRoster(rows, Miners(awards))
    && forall i :: 0 <= i < |awards| ==>
         |awards[i].miner.tileBets| == GRID && awards[i] == Enrich(round, rows, awards[i].miner)
  }

  function EnrichAll(round: Round, rows: seq<Receipt>, ms: seq<Miner>): (awards: seq<Award>)
    requires round.winningSquare < GRID && (forall i :: 0 <= i < |ms| ==> |ms[i].tileBets| == GRID)
    ensures |awards| == |ms|
    ensures forall i :: 0 <= i < |ms| ==> awards[i] == Enrich(round, rows, ms[i])
  {
    seq(|ms|, i requires 0 <= i < |ms| => Enrich(round, rows, ms[i]))
  }

  lemma RosterGrids(rows: seq<Receipt>, ms: seq<Miner>)
    requires IsRoster(rows, ms)
    ensures forall i :: 0 <= i < |ms| ==> |ms[i].tileBets| == GRID
  {
    forall i | 0 <= i < |ms| ensures |ms[i].tileBets| == GRID {
      assert ms[i] in ms;
      assert |MinerOf(Kept(rows), ms[i].address).tileBets| == GRID;
    }
  }

  method ReadRoundWinners(round: Round, rows: seq<Receipt>) returns (result: Winners)
    ensures result.Unsettled? <==> !round.resolved || round.winningSquare >= 25
    ensures result.Unsettled? ==> IsRoster(rows, result.miners)
    ensures result.Settled? ==> DirectAwards(round, rows, result.awards) && result.winners == Wins(result.awards)
  {
    var ms := AggregateMiners(rows);
    if !round.resolved || round.winningSquare >= GRID {
      return Unsettled(ms);
    }
    RosterGrids(rows, ms);
    var awards := EnrichAll(round, rows, ms);
    assert Miners(awards) == ms;
    result := Settled(awards, Wins(awards));
  }

  // ----- what the whole roster receives -----

  function Eth(): Award -> int { (w: Award) => w.eth }
  function Bullion(): Award -> int { (w: Award) => w.bullion }

  lemma {:induction false} SumAlong<S, T>(g: S -> int, ss: seq<S>, h: T -> int, ts: seq<T>)
    requires |ss| == |ts|
    requires forall i :: 0 <= i < |ss| ==> g(ss[i]) == h(ts[i])
    ensures Sum(g, ss) == Sum(h, ts)
  {
    if ss != [] {
      SumAlong(g, ss[..|ss| - 1], h, ts[..|ts| - 1]);
    }
  }

  /** Regrouping by wallet neither loses nor duplicates a receipt's reward. */
  lemma RosterTotal(round: Round, rows: seq<Receipt>, awards: seq<Award>, f: Receipt -> int, h: Award -> int)
    requires round.winningSquare < GRID && DirectAwards(round, rows, awards)
    requires forall r :: r in rows ==> !r.refunded
    requires forall i :: 0 <= i < |awards| ==> h(awards[i]) == Paid(f, awards[i].miner.address, rows)
    ensures Sum(h, awards) == Sum(f, rows)
  {
    var ms := Miners(awards);
    KeptAll(rows);
    RosterAddresses(rows, ms);
    var ks := Addresses(ms);
    var g := (k: Address) => Paid(f, k, rows);
    SumByGroup(f, Authority(), rows, ks, g);
    SumAlong(g, ks, h, awards);
  }

  ghost predicate SettledRoster(round: Round, ledger: seq<Receipt>, rows: seq<Receipt>, awards: seq<Award>) {
    && WellFormed(ledger) && Settles(round, ledger)
    && multiset(rows) == multiset(ledger)
    && DirectAwards(round, rows, awards)
  }

  lemma RowsOfLedger(ledger: seq<Receipt>, rows: seq<Receipt>)
    requires WellFormed(ledger) && multiset(rows) == multiset(ledger)
    ensures forall r :: r in rows <==> r in ledger
    ensures forall r :: r in rows ==> !r.refunded
  {
    SameElements(rows, ledger);
  }

  /** Receipts of one ledger, however scanned: totals add up and keys never repeat. */
  ghost predicate Sound(receipts: seq<Receipt>) {
    && (forall r :: r in receipts ==> !r.refunded && r.total == TileSum(r.amounts))
    && (forall i, j :: 0 <= i < j < |receipts| ==> receipts[i].key != receipts[j].key)
  }

  lemma DistinctPermutation<T>(s: seq<T>, t: seq<T>)
    requires Distinct(t) && multiset(s) == multiset(t)
    ensures Distinct(s)
  {
    forall i, j | 0 <= i < j < |s| ensures s[i] != s[j] {
      DistinctCount(t, s[i]);
      assert s == s[..i] + [s[i]] + s[i + 1..j] + [s[j]] + s[j + 1..];
      assert multiset(s)
        == multiset(s[..i]) + multiset{s[i]} + multiset(s[i + 1..j]) + multiset{s[j]} + multiset(s[j + 1..]);
    }
  }

  lemma LedgerRowsSound(ledger: seq<Receipt>, rows: seq<Receipt>)
    requires WellFormed(ledger) && multiset(rows) == multiset(ledger)
    ensures Sound(rows)
  {
    RowsOfLedger(ledger, rows);
    forall i, j | 0 <= i < j < |ledger| ensures ledger[i] != ledger[j] {
      assert ledger[i].key != ledger[j].key;
    }
    DistinctPermutation(rows, ledger);
    forall i, j | 0 <= i < j < |rows| ensures rows[i].key != rows[j].key {
      assert rows[i] in ledger && rows[j] in ledger;
      var x :| 0 <= x < |ledger| && ledger[x] == rows[i];
      var y :| 0 <= y < |ledger| && ledger[y] == rows[j];
    }
    forall r | r in rows ensures r.total == TileSum(r.amounts) {
      var x :| 0 <= x < |ledger| && ledger[x] == r;
    }
  }

  lemma TileShareTotal(round: Round, ledger: seq<Receipt>, rows: seq<Receipt>, pool: nat)
    requires WellFormed(ledger) && Settles(round, ledger) && multiset(rows) == multiset(ledger)
    ensures Sum(TileShare(round, pool), rows) == if round.winnerTotal > 0 then pool else 0
  {
    var w := round.winningSquare;
    SumPermutation(TileShare(round, pool), rows, ledger);
    TileChained(ledger, w);
    IntervalsExhaustPool(pool, StartAt(w), AmountAt(w), round.winnerTotal, ledger);
  }

  lemma RoundShareTotal(round: Round, ledger: seq<Receipt>, rows: seq<Receipt>, pool: nat)
    requires WellFormed(ledger) && Settles(round, ledger) && multiset(rows) == multiset(ledger)
    ensures Sum(RoundShare(round, pool), rows) == if round.totalWager > 0 then pool else 0
  {
    SumPermutation(RoundShare(round, pool), rows, ledger);
    RoundChained(ledger);
    IntervalsExhaustPool(pool, RoundStart(), Total(), round.totalWager, ledger);
  }

  /** Every lamport of the prize pot and of the Motherlode payout reaches the roster, and no more. */
  lemma SolConserved(round: Round, ledger: seq<Receipt>, rows: seq<Receipt>, awards: seq<Award>)
    requires SettledRoster(round, ledger, rows, awards)
    ensures Sum(Eth(), awards)
      == (if round.winnerTotal > 0 then round.potForWinners else 0)
       + (if round.totalWager > 0 then round.motherlodePayoutLamports else 0)
  {
    RowsOfLedger(ledger, rows);
    var tile := (w: Award) => w.winningSolReward;
    var mother := (w: Award) => w.motherlodeSolReward;
    RosterTotal(round, rows, awards, TileShare(round, round.potForWinners), tile);
    RosterTotal(round, rows, awards, RoundShare(round, round.motherlodePayoutLamports), mother);
    TileShareTotal(round, ledger, rows, round.potForWinners);
    RoundShareTotal(round, ledger, rows, round.motherlodePayoutLamports);
    SumAdd(tile, mother, Eth(), awards);
  }

  /** A sample is covered by exactly one receipt precisely when it lies below the tile total. */
  lemma ExactlyOneCovers(ledger: seq<Receipt>, t: nat, sample: nat)
    requires WellFormed(ledger) && t < GRID
    ensures sample < Sum(AmountAt(t), ledger) <==>
      exists i :: 0 <= i < |ledger| && Covers(ledger[i], t, sample)
        && forall j :: 0 <= j < |ledger| && Covers(ledger[j], t, sample) ==> j == i
  {
    if sample < Sum(AmountAt(t), ledger) {
      assert ledger[..|ledger|] == ledger;
      var i := SampleCovered(ledger, t, sample, |ledger|);
      forall j | 0 <= j < |ledger| && Covers(ledger[j], t, sample) ensures j == i {
        SampleCoveredOnce(ledger, t, sample, i, j);
      }
    } else if i :| 0 <= i < |ledger| && Covers(ledger[i], t, sample) {
      CoveredBelowTotal(ledger, t, sample, i);
      assert false;
    }
  }

  lemma {:induction false} SoloWinnerFound(rows: seq<Receipt>, t: nat, sample: nat)
    requires t < GRID
    ensures SoloWinner(rows, t, sample).None? <==> forall r :: r in rows ==> !Covers(r, t, sample)
    ensures var w := SoloWinner(rows, t, sample);
      w.Some? ==> exists r :: r in rows && Covers(r, t, sample) && r.authority == w.value
  {
    if rows != [] {
      assert forall r :: r in rows <==> r == rows[0] || r in rows[1..];
      SoloWinnerFound(rows[1..], t, sample);
    }
  }

  lemma {:induction false} SumTermBound<T>(f: T -> int, s: seq<T>, x: T)
    requires x in s && forall y :: y in s ==> f(y) >= 0
    ensures Sum(f, s) >= f(x)
  {
    var rest := s[..|s| - 1];
    if x in rest {
      SumTermBound(f, rest, x);
    } else {
      SumMonotone((y: T) => 0, f, rest);
      SumZero((y: T) => 0, rest);
    }
  }

  /** A wallet with nothing on the winning tile has no share in it. */
  lemma OffTilePaysNothing(round: Round, rows: seq<Receipt>, m: Miner, pool: nat)
    requires round.winningSquare < GRID && (forall r :: r in rows ==> !r.refunded)
    requires m == MinerOf(Kept(rows), m.address)
    requires m.tileBets[round.winningSquare] <= 0 || round.winnerTotal == 0
    ensures Paid(TileShare(round, pool), m.address, rows) == 0
  {
    KeptAll(rows);
    var f := Only(TileShare(round, pool), Authority(), m.address);
    var bet := Only(AmountAt(round.winningSquare), Authority(), m.address);
    forall r | r in rows ensures f(r) == 0 {
      SumTermBound(bet, rows, r);
    }
    SumZero(f, rows);
  }

  /** A wallet that deployed nothing has no share in a round-wide pool. */
  lemma NoDeploymentPaysNothing(round: Round, rows: seq<Receipt>, m: Miner, pool: nat)
    requires (forall r :: r in rows ==> !r.refunded) && m == MinerOf(Kept(rows), m.address) && m.deployed <= 0
    ensures Paid(RoundShare(round, pool), m.address, rows) == 0
  {
    KeptAll(rows);
    var f := Only(RoundShare(round, pool), Authority(), m.address);
    forall r | r in rows ensures f(r) == 0 {
      SumTermBound(Only(Total(), Authority(), m.address), rows, r);
    }
    SumZero(f, rows);
  }

  /** The wallet of a covering receipt has a stake on the tile. */
  lemma CoveringWalletOnTile(rows: seq<Receipt>, t: nat, sample: nat, r: Receipt)
    requires t < GRID && r in rows && Covers(r, t, sample) && (forall x :: x in rows ==> !x.refunded)
    ensures MinerOf(Kept(rows), r.authority).tileBets[t] > 0
  {
    KeptAll(rows);
    SumTermBound(Only(AmountAt(t), Authority(), r.authority), rows, r);
  }

  function Base(round: Round, rows: seq<Receipt>): Award -> int
    requires round.winningSquare < GRID
  {
    (w: Award) => if |w.miner.tileBets| == GRID then BaseBullion(round, rows, w.miner) else 0
  }

  lemma AwardMember(round: Round, rows: seq<Receipt>, awards: seq<Award>, i: nat)
    requires round.winningSquare < GRID && DirectAwards(round, rows, awards) && i < |awards|
    ensures awards[i].miner == MinerOf(Kept(rows), awards[i].miner.address)
  {
    assert Miners(awards)[i] in Miners(awards);
  }

  lemma UncoveredPastTotal(ledger: seq<Receipt>, t: nat, sample: nat)
    requires WellFormed(ledger) && t < GRID && sample >= Sum(AmountAt(t), ledger)
    ensures forall r :: r in ledger ==> !Covers(r, t, sample)
  {
    forall r | r in ledger ensures !Covers(r, t, sample) {
      var j :| 0 <= j < |ledger| && ledger[j] == r;
      if Covers(r, t, sample) {
        CoveredBelowTotal(ledger, t, sample, j);
        assert false;
      }
    }
  }

  lemma SoloBaseTotal(round: Round, ledger: seq<Receipt>, rows: seq<Receipt>, awards: seq<Award>)
    requires SettledRoster(round, ledger, rows, awards) && round.singleMinerRound
    ensures Sum(Base(round, rows), awards)
      == if round.soloSample < round.winnerTotal then round.bullionForWinners else 0
  {
    var w, sample := round.winningSquare, round.soloSample;
    RowsOfLedger(ledger, rows);
    SoloWinnerFound(rows, w, sample);
    ExactlyOneCovers(ledger, w, sample);
    var g := Base(round, rows);
    if sample < round.winnerTotal {
      var i :| 0 <= i < |ledger| && Covers(ledger[i], w, sample)
        && forall j :: 0 <= j < |ledger| && Covers(ledger[j], w, sample) ==> j == i;
      assert ledger[i] in rows;
      var r :| r in rows && Covers(r, w, sample) && Some(r.authority) == SoloWinner(rows, w, sample);
      CoveringWalletOnTile(rows, w, sample, r);
      SoloPick(round, rows, awards, r);
    } else {
      UncoveredPastTotal(ledger, w, sample);
      SumZero(g, awards);
    }
  }

  lemma SoloBase(round: Round, rows: seq<Receipt>, awards: seq<Award>, r: Receipt, i: nat)
    requires round.winningSquare < GRID && DirectAwards(round, rows, awards) && i < |awards|
    requires round.singleMinerRound && round.winnerTotal > 0
    requires SoloWinner(rows, round.winningSquare, round.soloSample) == Some(r.authority)
    requires MinerOf(Kept(rows), r.authority).tileBets[round.winningSquare] > 0
    ensures Base(round, rows)(awards[i])
      == if awards[i].miner.address == r.authority then round.bullionForWinners else 0
  {
    AwardMember(round, rows, awards, i);
  }

  /** Only the sampled wallet's award carries the solo emission. */
  lemma SoloPick(round: Round, rows: seq<Receipt>, awards: seq<Award>, r: Receipt)
    requires round.winningSquare < GRID && DirectAwards(round, rows, awards)
    requires round.singleMinerRound && round.winnerTotal > 0 && (forall x :: x in rows ==> !x.refunded) && r in rows
    requires SoloWinner(rows, round.winningSquare, round.soloSample) == Some(r.authority)
    requires MinerOf(Kept(rows), r.authority).tileBets[round.winningSquare] > 0
    ensures Sum(Base(round, rows), awards) == round.bullionForWinners
  {
    KeptAll(rows);
    RosterAddresses(rows, Miners(awards));
    var ks := Addresses(Miners(awards));
    var g := (a: Address) => if a == r.authority then round.bullionForWinners else 0;
    DistinctPick(g, ks, r.authority);
    forall i | 0 <= i < |awards| ensures g(ks[i]) == Base(round, rows)(awards[i]) {
      SoloBase(round, rows, awards, r, i);
    }
    SumAlong(g, ks, Base(round, rows), awards);
  }

  lemma SplitBaseTotal(round: Round, ledger: seq<Receipt>, rows: seq<Receipt>, awards: seq<Award>)
    requires SettledRoster(round, ledger, rows, awards) && !round.singleMinerRound
    ensures Sum(Base(round, rows), awards) == if round.winnerTotal > 0 then round.bullionForWinners else 0
  {
    RowsOfLedger(ledger, rows);
    forall i | 0 <= i < |awards|
      ensures Base(round, rows)(awards[i])
        == Paid(TileShare(round, round.bullionForWinners), awards[i].miner.address, rows)
    {
      AwardMember(round, rows, awards, i);
      var m := awards[i].miner;
      if !(m.tileBets[round.winningSquare] > 0 && round.winnerTotal > 0) {
        OffTilePaysNothing(round, rows, m, round.bullionForWinners);
      }
    }
    RosterTotal(round, rows, awards, TileShare(round, round.bullionForWinners), Base(round, rows));
    TileShareTotal(round, ledger, rows, round.bullionForWinners);
  }

  /** MYNE paid to the roster: the base emission exactly, in solo and in split mode, plus the
      Motherlode emission exactly on a hit. A solo sample at or past the tile total pays no base. */
  lemma MyneConserved(round: Round, ledger: seq<Receipt>, rows: seq<Receipt>, awards: seq<Award>)
    requires SettledRoster(round, ledger, rows, awards)
    ensures Sum(Bullion(), awards)
      == (if round.winnerTotal > 0 && (round.singleMinerRound ==> round.soloSample < round.winnerTotal)
          then round.bullionForWinners else 0)
       + (if round.jackpotHit && round.totalWager > 0 then round.motherlodeEmission else 0)
  {
    RowsOfLedger(ledger, rows);
    var base := Base(round, rows);
    var mother := (w: Award) => MotherlodeBullion(round, rows, w.miner);
    if round.singleMinerRound {
      SoloBaseTotal(round, ledger, rows, awards);
    } else {
      SplitBaseTotal(round, ledger, rows, awards);
    }
    if round.jackpotHit && round.totalWager > 0 {
      RosterTotal(round, rows, awards, RoundShare(round, round.motherlodeEmission), mother);
      RoundShareTotal(round, ledger, rows, round.motherlodeEmission);
    } else {
      SumZero(mother, awards);
    }
    SumAdd(base, mother, Bullion(), awards);
  }

  /** No wallet has a Motherlode SOL leg exactly when there is no payout or nothing was deployed. */
  lemma MotherlodeLegVanishes(round: Round, ledger: seq<Receipt>, rows: seq<Receipt>, awards: seq<Award>)
    requires SettledRoster(round, ledger, rows, awards)
    ensures (forall i :: 0 <= i < |awards| ==> awards[i].motherlodeSolReward == 0)
      <==> round.motherlodePayoutLamports == 0 || round.totalWager == 0
  {
    var mother := (w: Award) => w.motherlodeSolReward;
    var f := RoundShare(round, round.motherlodePayoutLamports);
    RowsOfLedger(ledger, rows);
    RosterTotal(round, rows, awards, f, mother);
    RoundShareTotal(round, ledger, rows, round.motherlodePayoutLamports);
    if round.motherlodePayoutLamports == 0 || round.totalWager == 0 {
      forall i | 0 <= i < |awards| ensures awards[i].motherlodeSolReward == 0 {
        SumZero(Only(f, Authority(), awards[i].miner.address), rows);
      }
    } else if forall i :: 0 <= i < |awards| ==> awards[i].motherlodeSolReward == 0 {
      SumZero(mother, awards);
      assert false;
    }
  }

  /** Off the winning tile only the Motherlode pays. */
  lemma OffTileAward(round: Round, rows: seq<Receipt>, awards: seq<Award>, i: nat)
    requires round.winningSquare < GRID && DirectAwards(round, rows, awards) && i < |awards|
    requires (forall r :: r in rows ==> !r.refunded) && !awards[i].onWinningTile
    ensures awards[i].eth == awards[i].motherlodeSolReward >= 0
    ensures !round.jackpotHit ==> awards[i].bullion == 0 && !awards[i].won
    ensures round.jackpotHit && !awards[i].won ==> awards[i].eth == awards[i].bullion == 0
  {
    var m := awards[i].miner;
    AwardMember(round, rows, awards, i);
    OffTilePaysNothing(round, rows, m, round.potForWinners);
    PaidNonNegative(round, rows, m.address);
    if m.deployed <= 0 {
      NoDeploymentPaysNothing(round, rows, m, round.motherlodePayoutLamports);
      NoDeploymentPaysNothing(round, rows, m, round.motherlodeEmission);
    }
  }

  /** A wallet that is paid is flagged as a winner, unless the round is no hit, the wallet is off the
      winning tile and the Motherlode SOL leg, which asks for no hit, still pays it. */
  lemma {:induction false} PaidWalletsWon(round: Round, ledger: seq<Receipt>, rows: seq<Receipt>,
                                          awards: seq<Award>, i: nat)
    requires SettledRoster(round, ledger, rows, awards) && i < |awards|
    ensures (awards[i].eth > 0 || awards[i].bullion > 0 ==> awards[i].won)
      <==> round.jackpotHit || awards[i].onWinningTile || awards[i].motherlodeSolReward == 0
    ensures awards[i].won <==> awards[i] in Wins(awards)
  {
    WinsMembers(awards);
    RowsOfLedger(ledger, rows);
    if awards[i].onWinningTile {
      OnTileWins(round, rows, awards, i);
    } else {
      OffTileAward(round, rows, awards, i);
    }
  }

  lemma OnTileWins(round: Round, rows: seq<Receipt>, awards: seq<Award>, i: nat)
    requires round.winningSquare < GRID && DirectAwards(round, rows, awards) && i < |awards|
    ensures awards[i].onWinningTile ==> awards[i].won
  {
  }

  /** The wallet has a receipt on the winning tile. */
  ghost predicate OnTile(round: Round, rows: seq<Receipt>, a: Address)
    requires round.winningSquare < GRID
  {
    exists r :: r in rows && r.authority == a && r.amounts[round.winningSquare] > 0
  }

  lemma BetsPositiveIff(rows: seq<Receipt>, t: nat, a: Address)
    requires t < GRID
    ensures Sum(Only(AmountAt(t), Authority(), a), rows) > 0
      <==> exists r :: r in rows && r.authority == a && r.amounts[t] > 0
  {
    var bet := Only(AmountAt(t), Authority(), a);
    if r :| r in rows && r.authority == a && r.amounts[t] > 0 {
      SumTermBound(bet, rows, r);
    } else {
      SumZero(bet, rows);
    }
  }

  lemma OnTileHasTotal(round: Round, ledger: seq<Receipt>, rows: seq<Receipt>, a: Address)
    requires WellFormed(ledger) && Settles(round, ledger) && multiset(rows) == multiset(ledger)
    requires OnTile(round, rows, a)
    ensures round.winnerTotal > 0
  {
    RowsOfLedger(ledger, rows);
    var r :| r in rows && r.authority == a && r.amounts[round.winningSquare] > 0;
    SumTermBound(AmountAt(round.winningSquare), ledger, r);
  }

  lemma OnTileIff(round: Round, ledger: seq<Receipt>, rows: seq<Receipt>, awards: seq<Award>, i: nat)
    requires SettledRoster(round, ledger, rows, awards) && i < |awards|
    ensures awards[i].onWinningTile <==> OnTile(round, rows, awards[i].miner.address)
  {
    var a := awards[i].miner.address;
    RowsOfLedger(ledger, rows);
    KeptAll(rows);
    AwardMember(round, rows, awards, i);
    BetsPositiveIff(rows, round.winningSquare, a);
    if OnTile(round, rows, a) { OnTileHasTotal(round, ledger, rows, a); }
    AwardOnTile(round, rows, awards, i);
  }

  lemma AwardOnTile(round: Round, rows: seq<Receipt>, awards: seq<Award>, i: nat)
    requires round.winningSquare < GRID && DirectAwards(round, rows, awards) && i < |awards|
    ensures awards[i].onWinningTile
      <==> awards[i].miner.tileBets[round.winningSquare] > 0 && round.winnerTotal > 0
  {
  }

  /** A receipt draws on the Motherlode payout. */
  predicate DrawsMotherlode(round: Round, r: Receipt) {
    RoundShare(round, round.motherlodePayoutLamports)(r) > 0
  }

  lemma DrawsIff(round: Round, rows: seq<Receipt>, a: Address)
    ensures Paid(RoundShare(round, round.motherlodePayoutLamports), a, rows) > 0
      <==> exists r :: r in rows && r.authority == a && DrawsMotherlode(round, r)
  {
    var f := Only(RoundShare(round, round.motherlodePayoutLamports), Authority(), a);
    if r :| r in rows && r.authority == a && DrawsMotherlode(round, r) {
      SumTermBound(f, rows, r);
    } else {
      SumZero(f, rows);
    }
  }

  /** Nobody is paid without being flagged exactly when the round is a hit or every receipt that draws on
      the Motherlode payout belongs to a wallet on the winning tile. */
  lemma EveryPaidWalletWon(round: Round, ledger: seq<Receipt>, rows: seq<Receipt>, awards: seq<Award>)
    requires SettledRoster(round, ledger, rows, awards)
    ensures (forall i :: 0 <= i < |awards| && (awards[i].eth > 0 || awards[i].bullion > 0) ==> awards[i].won)
      <==> round.jackpotHit
           || forall r :: r in rows && DrawsMotherlode(round, r) ==> OnTile(round, rows, r.authority)
  {
    RowsOfLedger(ledger, rows);
    KeptAll(rows);
    forall i | 0 <= i < |awards|
      ensures awards[i].onWinningTile <==> OnTile(round, rows, awards[i].miner.address)
      ensures (awards[i].eth > 0 || awards[i].bullion > 0 ==> awards[i].won)
        <==> round.jackpotHit || awards[i].onWinningTile || awards[i].motherlodeSolReward == 0
      ensures awards[i].motherlodeSolReward > 0
        <==> exists r :: r in rows && r.authority == awards[i].miner.address && DrawsMotherlode(round, r)
      ensures awards[i].motherlodeSolReward >= 0
    {
      PaidWalletsWon(round, ledger, rows, awards, i);
      OnTileIff(round, ledger, rows, awards, i);
      DrawsIff(round, rows, awards[i].miner.address);
      PaidNonNegative(round, rows, awards[i].miner.address);
    }
    forall r | r in rows ensures exists i :: 0 <= i < |awards| && awards[i].miner.address == r.authority {
      AwardOf(rows, awards, r);
    }
  }

  lemma PaidNonNegative(round: Round, rows: seq<Receipt>, a: Address)
    ensures Paid(RoundShare(round, round.motherlodePayoutLamports), a, rows) >= 0
  {
    var zero := (r: Receipt) => 0;
    SumZero(zero, rows);
    SumMonotone(zero, Only(RoundShare(round, round.motherlodePayoutLamports), Authority(), a), rows);
  }

  lemma AwardOf(rows: seq<Receipt>, awards: seq<Award>, r: Receipt)
    requires IsRoster(rows, Miners(awards)) && r in Kept(rows)
    ensures exists i :: 0 <= i < |awards| && awards[i].miner.address == r.authority
  {
    var ms := Miners(awards);
    assert ListsAddress(ms, r.authority);
    var m :| m in ms && m.address == r.authority;
    var i :| 0 <= i < |ms| && ms[i] == m;
    assert awards[i].miner == m;
  }

  /** Conditions a caller reads off the round or the board, each of them enough. */
  lemma PaidMeansWon(round: Round, ledger: seq<Receipt>, rows: seq<Receipt>, awards: seq<Award>, i: nat)
    requires SettledRoster(round, ledger, rows, awards) && i < |awards|
    requires awards[i].eth > 0 || awards[i].bullion > 0
    ensures round.jackpotHit || round.motherlodePayoutLamports == 0 || round.totalWager == 0
            || (forall r :: r in rows ==> OnTile(round, rows, r.authority))
      ==> awards[i].won && awards[i] in Wins(awards)
  {
    PaidWalletsWon(round, ledger, rows, awards, i);
    EveryPaidWalletWon(round, ledger, rows, awards);
  }

  // ----- a round of one receipt, for witnesses -----

  function OneTile(t: nat, amount: nat): (tiles: Tiles) {
    seq(GRID, i => if i == t then amount else 0)
  }

  function LoneReceipt(t: nat, amount: nat, rewardMode: nat): Receipt {
    Receipt(1, 1, OneTile(t, amount), OneTile(t, 0), amount, false, false, rewardMode)
  }

  ghost function LoneAward(round: Round, r: Receipt): Award
    requires round.winningSquare < GRID
  {
    Enrich(round, [r], MinerOf([r], r.authority))
  }

  lemma SumLone<T>(f: T -> int, x: T)
    ensures Sum(f, [x]) == f(x)
  {
    assert [x][..0] == [];
  }

  lemma OneTileSum(t: nat, amount: nat)
    requires t < GRID
    ensures TileSum(OneTile(t, amount)) == amount
  {
    var tiles := OneTile(t, amount);
    var rest := tiles[..t] + tiles[t + 1..];
    SumRemove(Value(), tiles, t);
    SumZero(Value(), rest);
  }

  lemma LoneReceiptSettles(round: Round, t: nat, amount: nat, rewardMode: nat)
    requires round.resolved && round.winningSquare < GRID && t < GRID && round.totalWager == amount
    requires round.winnerTotal == if round.winningSquare == t then amount else 0
    ensures var r := LoneReceipt(t, amount, rewardMode);
      SettledRoster(round, [r], [r], [LoneAward(round, r)]) && TileSum(r.starts) == 0
  {
    var r := LoneReceipt(t, amount, rewardMode);
    OneTileSum(t, amount);
    OneTileSum(t, 0);
    SumLone(AmountAt(round.winningSquare), r);
    SumLone(Total(), r);
    assert [r][..0] == [] && WellFormed([r]);
    var m := MinerOf([r], r.authority);
    KeptAll([r]);
    assert Miners([LoneAward(round, r)]) == [m];
    assert Deployed([r], r.authority) && ListsAddress([m], r.authority);
  }

  lemma LoneMotherlode(pool: nat, total: nat)
    requires total > 0
    ensures IntervalReward(pool, 0, total, total) == pool
  {
    FloorWhole(pool, total);
  }

  /** Off the winning tile the only wallet is paid the Motherlode payout and nothing else. */
  lemma LoneOffTile(round: Round, t: nat, amount: nat, rewardMode: nat)
    requires round.winningSquare < GRID && t < GRID && t != round.winningSquare
    requires round.totalWager == amount > 0 && round.winnerTotal == 0
    ensures var a := LoneAward(round, LoneReceipt(t, amount, rewardMode));
      && a.eth == a.motherlodeSolReward == round.motherlodePayoutLamports
      && !a.onWinningTile && (!round.jackpotHit ==> !a.won)
  {
    var r := LoneReceipt(t, amount, rewardMode);
    OneTileSum(t, 0);
    LoneMotherlode(round.motherlodePayoutLamports, amount);
    SumLone(Only(RoundShare(round, round.motherlodePayoutLamports), Authority(), 1), r);
    SumLone(Only(TileShare(round, round.potForWinners), Authority(), 1), r);
  }

  /** A settled round that is no hit: nothing on the winning tile, everything deployed elsewhere. */
  function UnflaggedRound(amount: nat, payout: nat): Round {
    Round(true, 0, 0, amount, 0, 0, payout, 0, false, false, 0)
  }

  /** Every such round pays its only wallet the payout, say 5 lamports of a payout of 5 for a deployment of
      10, and does not flag it. */
  lemma PaidWithoutWinning(amount: nat, payout: nat)
    requires amount > 0
    ensures var round, r := UnflaggedRound(amount, payout), LoneReceipt(1, amount, 0);
      var a := LoneAward(round, r);
      SettledRoster(round, [r], [r], [a]) && a.eth == a.motherlodeSolReward == payout && !a.won
  {
    LoneReceiptSettles(UnflaggedRound(amount, payout), 1, amount, 0);
    LoneOffTile(UnflaggedRound(amount, payout), 1, amount, 0);
  }

  lemma {:induction false} WinsMembers(awards: seq<Award>)
    ensures forall w :: w in Wins(awards) <==> w in awards && w.won
  {
    if awards != [] { WinsMembers(awards[..|awards| - 1]); }
  }

  /** How many of a wallet's receipts are on the winning tile. */
  function WinningReceipts(round: Round, rows: seq<Receipt>, a: Address): int
    requires round.winningSquare < GRID
  {
    Sum(Winning(Only(AmountAt(round.winningSquare), Authority(), a)), rows)
  }

  lemma TileInRange(ledger: seq<Receipt>, t: nat, i: nat)
    requires WellFormed(ledger) && t < GRID && i < |ledger|
    ensures ledger[i].starts[t] + ledger[i].amounts[t] <= Sum(AmountAt(t), ledger)
  {
    assert ledger[..i + 1][..i] == ledger[..i];
    TileTotalsGrow(ledger, t, i + 1, |ledger|);
    assert ledger[..|ledger|] == ledger;
  }

  lemma WalletInRange(ledger: seq<Receipt>, rows: seq<Receipt>, t: nat, a: Address)
    requires WellFormed(ledger) && t < GRID && (forall r :: r in rows ==> r in ledger)
    ensures InRange(StartAt(t), Only(AmountAt(t), Authority(), a), Sum(AmountAt(t), ledger), rows)
  {
    forall r | r in rows ensures r.starts[t] + r.amounts[t] <= Sum(AmountAt(t), ledger) {
      var j :| 0 <= j < |ledger| && ledger[j] == r;
      TileInRange(ledger, t, j);
    }
  }

  /** A wallet's tile pay, with the other wallets' receipts counted as empty intervals. */
  lemma WalletShare(round: Round, rows: seq<Receipt>, a: Address, pool: nat)
    requires round.winningSquare < GRID
    ensures Paid(TileShare(round, pool), a, rows) == Sum(Share(pool, StartAt(round.winningSquare),
        Only(AmountAt(round.winningSquare), Authority(), a), round.winnerTotal), rows)
  {
    SumExtensional(Only(TileShare(round, pool), Authority(), a),
                   Share(pool, StartAt(round.winningSquare), Only(AmountAt(round.winningSquare), Authority(), a),
                         round.winnerTotal), rows);
  }

  /** On a tile without lamports no receipt is a winning one. */
  lemma EmptyTile(ledger: seq<Receipt>, rows: seq<Receipt>, t: nat, a: Address)
    requires t < GRID && Sum(AmountAt(t), ledger) == 0 && (forall r :: r in rows ==> r in ledger)
    ensures Sum(Winning(Only(AmountAt(t), Authority(), a)), rows) == 0
  {
    forall r | r in rows ensures r.amounts[t] == 0 { SumTermBound(AmountAt(t), ledger, r); }
    SumZero(Winning(Only(AmountAt(t), Authority(), a)), rows);
  }

  /** The pro-rata figure shown beside a miner is within one lamport per winning receipt of its pay. */
  lemma ShownWithinReceiptCount(round: Round, ledger: seq<Receipt>, rows: seq<Receipt>, awards: seq<Award>, i: nat)
    requires SettledRoster(round, ledger, rows, awards) && i < |awards|
    ensures
      var k := WinningReceipts(round, rows, awards[i].miner.address);
      var shown := SettledSolReward(round.potForWinners, awards[i].winningStake, round.winnerTotal);
      if k == 0 then awards[i].winningSolReward == shown == 0
      else -k < awards[i].winningSolReward - shown <= k
  {
    var w, a := round.winningSquare, awards[i].miner.address;
    var size := Only(AmountAt(w), Authority(), a);
    RowsOfLedger(ledger, rows);
    KeptAll(rows);
    AwardMember(round, rows, awards, i);
    WalletInRange(ledger, rows, w, a);
    WalletShare(round, rows, a, round.potForWinners);
    if round.winnerTotal > 0 {
      MinerWithinReceiptCount(round.potForWinners, StartAt(w), size, round.winnerTotal, rows);
    } else {
      OffTilePaysNothing(round, rows, awards[i].miner, round.potForWinners);
      EmptyTile(ledger, rows, w, a);
    }
  }

  /** Rounding each receipt down separately would strand fewer lamports than there are receipts. */
  lemma PerReceiptDust(round: Round, ledger: seq<Receipt>)
    requires WellFormed(ledger) && Settles(round, ledger) && round.winnerTotal > 0
    ensures var paid := Sum(ProRata(round.potForWinners, AmountAt(round.winningSquare), round.winnerTotal), ledger);
      paid <= round.potForWinners < paid + |ledger|
  {
    ProRataDustBound(round.potForWinners, AmountAt(round.winningSquare), round.winnerTotal, ledger);
  }

  // ----- what an award says, read off the round and the receipts -----

  /** The wallet's receipt holds the solo sample. */
  ghost predicate HoldsSample(round: Round, rows: seq<Receipt>, a: Address)
    requires round.winningSquare < GRID
  {
    exists r :: r in rows && r.authority == a
      && r.starts[round.winningSquare] <= round.soloSample
      && round.soloSample < r.starts[round.winningSquare] + r.amounts[round.winningSquare]
  }

  /** One of the wallet's receipts draws on a round-wide pool. */
  ghost predicate DrawsOn(round: Round, rows: seq<Receipt>, a: Address, pool: nat) {
    exists r :: r in rows && r.authority == a
      && IntervalReward(pool, TileSum(r.starts), r.total, round.totalWager) > 0
  }

  lemma {:induction false} DrawsOnIff(round: Round, rows: seq<Receipt>, a: Address, pool: nat)
    ensures Paid(RoundShare(round, pool), a, rows) > 0 <==> DrawsOn(round, rows, a, pool)
  {
    var f := Only(RoundShare(round, pool), Authority(), a);
    if r :| r in rows && r.authority == a && IntervalReward(pool, TileSum(r.starts), r.total, round.totalWager) > 0 {
      SumTermBound(f, rows, r);
    } else {
      SumZero(f, rows);
    }
  }

  lemma {:induction false} SoloHolder(round: Round, ledger: seq<Receipt>, rows: seq<Receipt>, a: Address)
    requires WellFormed(ledger) && Settles(round, ledger) && multiset(rows) == multiset(ledger)
    ensures SoloWinner(rows, round.winningSquare, round.soloSample) == Some(a) <==> HoldsSample(round, rows, a)
  {
    var w, sample := round.winningSquare, round.soloSample;
    RowsOfLedger(ledger, rows);
    SoloWinnerFound(rows, w, sample);
    if r :| r in rows && r.authority == a && r.starts[w] <= sample && sample < r.starts[w] + r.amounts[w] {
      assert Covers(r, w, sample);
      var x :| x in rows && Covers(x, w, sample) && Some(x.authority) == SoloWinner(rows, w, sample);
      var i :| 0 <= i < |ledger| && ledger[i] == r;
      var j :| 0 <= j < |ledger| && ledger[j] == x;
      SampleCoveredOnce(ledger, w, sample, i, j);
    }
  }

  /** The wallet deployed something. */
  ghost predicate Played(rows: seq<Receipt>, a: Address) { exists r :: r in rows && r.authority == a && r.total > 0 }

  lemma {:induction false} PlayedIff(rows: seq<Receipt>, m: Miner)
    requires (forall r :: r in rows ==> !r.refunded) && m == MinerOf(Kept(rows), m.address)
    ensures m.deployed > 0 <==> Played(rows, m.address)
  {
    KeptAll(rows);
    var f := Only(Total(), Authority(), m.address);
    if r :| r in rows && r.authority == m.address && r.total > 0 {
      SumTermBound(f, rows, r);
    } else {
      SumZero(f, rows);
    }
  }

  lemma {:induction false} AwardFields(round: Round, rows: seq<Receipt>, awards: seq<Award>, i: nat)
    requires round.winningSquare < GRID && DirectAwards(round, rows, awards) && i < |awards|
    ensures var w := awards[i];
      && |w.miner.tileBets| == GRID && w.winningStake == w.miner.tileBets[round.winningSquare]
      && w.winningTileTotal == round.winnerTotal && w.prizeLamports == round.potForWinners && w.amountKnown
      && w.eth == w.winningSolReward + w.motherlodeSolReward
      && (w.won <==> w.onWinningTile || (round.jackpotHit && w.miner.deployed > 0))
      && (w.isSoloWinner <==>
            round.singleMinerRound
            && SoloWinner(rows, round.winningSquare, round.soloSample) == Some(w.miner.address))
      && w.motherlodeSolReward == Paid(RoundShare(round, round.motherlodePayoutLamports), w.miner.address, rows)
      && (w.motherlodeShare <==> w.motherlodeSolReward > 0 || MotherlodeBullion(round, rows, w.miner) > 0)
  {
  }

  /** Every flag and every copied figure of an award, in terms of the wallet's own receipts. */
  lemma {:induction false} AwardSays(round: Round, ledger: seq<Receipt>, rows: seq<Receipt>, awards: seq<Award>, i: nat)
    requires SettledRoster(round, ledger, rows, awards) && i < |awards|
    ensures var w, a := awards[i], awards[i].miner.address;
      && w.winningStake == Sum(Counted(AmountAt(round.winningSquare), a), rows)
      && w.winningTileTotal == Sum(AmountAt(round.winningSquare), ledger)
      && w.prizeLamports == round.potForWinners && w.amountKnown
      && w.eth == w.winningSolReward + w.motherlodeSolReward
      && (w.onWinningTile <==> OnTile(round, rows, a))
      && (w.won <==> OnTile(round, rows, a) || (round.jackpotHit && Played(rows, a)))
      && (w.isSoloWinner <==> round.singleMinerRound && HoldsSample(round, rows, a))
      && (w.motherlodeShare <==>
            DrawsOn(round, rows, a, round.motherlodePayoutLamports)
            || (round.jackpotHit && DrawsOn(round, rows, a, round.motherlodeEmission)))
  {
    var w, a := awards[i], awards[i].miner.address;
    RowsOfLedger(ledger, rows);
    AwardMember(round, rows, awards, i);
    AwardFields(round, rows, awards, i);
    EntryOf(rows, a);
    OnTileIff(round, ledger, rows, awards, i);
    PlayedIff(rows, w.miner);
    SoloHolder(round, ledger, rows, a);
    DrawsOnIff(round, rows, a, round.motherlodePayoutLamports);
    DrawsOnIff(round, rows, a, round.motherlodeEmission);
    if round.totalWager == 0 { NothingDrawn(round, rows, a); }
  }

  lemma {:induction false} NothingDrawn(round: Round, rows: seq<Receipt>, a: Address)
    requires round.totalWager == 0
    ensures !DrawsOn(round, rows, a, round.motherlodeEmission)
  {
  }

  /** The winners are listed in roster order. */
  lemma {:induction false} WinsInOrder(awards: seq<Award>, i: nat, j: nat) returns (x: nat, y: nat)
    requires i < j < |Wins(awards)|
    ensures x < y < |awards| && awards[x] == Wins(awards)[i] && awards[y] == Wins(awards)[j]
  {
    var rest := awards[..|awards| - 1];
    if j < |Wins(rest)| {
      x, y := WinsInOrder(rest, i, j);
    } else {
      WinsMembers(rest);
      assert Wins(rest)[i] in rest;
      x :| 0 <= x < |rest| && rest[x] == Wins(rest)[i];
      y := |awards| - 1;
    }
  }
}
