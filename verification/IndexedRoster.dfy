/**
 * `indexedMinerRoster` of Frontend/src/chain/rounds-index.js: the roster rebuilt from per-square
 * bet rows, and its agreement with the roster read from the receipts themselves.
 */
module IndexedRoster {
  import opened Common
  import opened Sums
  import opened RoundRewards
  import opened ReceiptLedger
  import opened MinerRoster
  import opened RoundWinners

  datatype BetRow = BetRow(
    receipt: nat, bettor: Address, square: int, amount: nat, cumulativeStart: nat, rewardMode: nat)

  predicate InGrid(row: BetRow) { 0 <= row.square < GRID }

  // ----- what the rows say about one receipt -----

  predicate Concerns(row: BetRow, k: nat) { InGrid(row) && row.receipt == k }

  function TileAmount(rows: seq<BetRow>, k: nat, t: nat): nat {
    if rows == [] then 0
    else
      var last := rows[|rows| - 1];
      TileAmount(rows[..|rows| - 1], k, t) + if Concerns(last, k) && last.square == t then last.amount else 0
  }

  function LastStart(rows: seq<BetRow>, k: nat, t: nat): nat {
    if rows == [] then 0
    else
      var last := rows[|rows| - 1];
      if Concerns(last, k) && last.square == t then last.cumulativeStart else LastStart(rows[..|rows| - 1], k, t)
  }

  function RowTotal(rows: seq<BetRow>, k: nat): nat {
    if rows == [] then 0
    else
      var last := rows[|rows| - 1];
      RowTotal(rows[..|rows| - 1], k) + if Concerns(last, k) then last.amount else 0
  }

  function MaxMode(rows: seq<BetRow>, k: nat): nat {
    if rows == [] then 0
    else
      var last, rest := rows[|rows| - 1], MaxMode(rows[..|rows| - 1], k);
      if Concerns(last, k) && last.rewardMode > rest then last.rewardMode else rest
  }

  /** Receipts in the order their first row appears. */
  function FirstSeen(rows: seq<BetRow>): seq<nat> {
    if rows == [] then []
    else
      var last, rest := rows[|rows| - 1], FirstSeen(rows[..|rows| - 1]);
      if InGrid(last) && last.receipt !in rest then rest + [last.receipt] else rest
  }

  /** The bettor named by the receipt's first row. */
  function Bettor(rows: seq<BetRow>, k: nat): Address {
    if rows == [] then 0
    else
      var last, rest := rows[|rows| - 1], rows[..|rows| - 1];
      if Concerns(last, k) && k !in FirstSeen(rest) then last.bettor else Bettor(rest, k)
  }

  function ReceiptOf(rows: seq<BetRow>, k: nat): Receipt {
    Receipt(
      k, Bettor(rows, k),
      seq(GRID, t requires 0 <= t < GRID => TileAmount(rows, k, t)),
      seq(GRID, t requires 0 <= t < GRID => LastStart(rows, k, t)),
      RowTotal(rows, k), false, false, MaxMode(rows, k))
  }

  /** The receipts the index describes. */
  function IndexReceipts(rows: seq<BetRow>): seq<Receipt> {
    var ks := FirstSeen(rows);
    seq(|ks|, i requires 0 <= i < |ks| => ReceiptOf(rows, ks[i]))
  }

  lemma {:induction false} FirstSeenMembers(rows: seq<BetRow>)
    ensures Distinct(FirstSeen(rows))
    ensures forall k :: k in FirstSeen(rows) <==> exists i :: 0 <= i < |rows| && Concerns(rows[i], k)
  {
    if rows != [] {
      var rest := rows[..|rows| - 1];
      FirstSeenMembers(rest);
      forall k ensures k in FirstSeen(rows) <==> exists i :: 0 <= i < |rows| && Concerns(rows[i], k) {
        if i :| 0 <= i < |rows| && Concerns(rows[i], k) {
          assert i < |rest| ==> Concerns(rest[i], k);
        }
        if j :| 0 <= j < |rest| && Concerns(rest[j], k) {
          assert Concerns(rows[j], k);
        }
      }
    }
  }

  lemma {:induction false} UnseenBlank(rows: seq<BetRow>, k: nat, t: nat)
    requires forall i :: 0 <= i < |rows| ==> !Concerns(rows[i], k)
    ensures TileAmount(rows, k, t) == 0 && LastStart(rows, k, t) == 0 && RowTotal(rows, k) == 0 && MaxMode(rows, k) == 0
  {
    if rows != [] { UnseenBlank(rows[..|rows| - 1], k, t); }
  }

  /** A row's amount, if it is this receipt's row for this square. */
  function AmountFor(k: nat, t: nat): BetRow -> int {
    (row: BetRow) => if row.receipt == k && row.square == t then row.amount else 0
  }

  /** A row's amount, if it is one of this receipt's rows on the board. */
  function AmountOf(k: nat): BetRow -> int {
    (row: BetRow) => if row.receipt == k && 0 <= row.square < 25 then row.amount else 0
  }

  lemma {:induction false} AmountsSay(rows: seq<BetRow>, k: nat, t: nat)
    requires t < GRID
    ensures TileAmount(rows, k, t) == Sum(AmountFor(k, t), rows) && RowTotal(rows, k) == Sum(AmountOf(k), rows)
  {
    if rows != [] { AmountsSay(rows[..|rows| - 1], k, t); }
  }

  /** The last row for a square decides its start; a square without one has none. */
  lemma {:induction false} StartSays(rows: seq<BetRow>, k: nat, t: nat, n: nat)
    requires t < GRID && n < |rows| && rows[n].receipt == k && rows[n].square == t
    requires forall i :: n < i < |rows| ==> rows[i].receipt != k || rows[i].square != t
    ensures LastStart(rows, k, t) == rows[n].cumulativeStart
  {
    if n < |rows| - 1 { StartSays(rows[..|rows| - 1], k, t, n); }
  }

  /** The reward mode is the highest of the receipt's rows. */
  lemma {:induction false} ModeSays(rows: seq<BetRow>, k: nat)
    ensures forall i :: 0 <= i < |rows| && Concerns(rows[i], k) ==> rows[i].rewardMode <= MaxMode(rows, k)
    ensures MaxMode(rows, k) > 0 ==>
      exists i :: 0 <= i < |rows| && Concerns(rows[i], k) && rows[i].rewardMode == MaxMode(rows, k)
  {
    if rows != [] {
      var rest := rows[..|rows| - 1];
      ModeSays(rest, k);
      if MaxMode(rows, k) > 0 && MaxMode(rows, k) == MaxMode(rest, k) {
        var i :| 0 <= i < |rest| && Concerns(rest[i], k) && rest[i].rewardMode == MaxMode(rest, k);
        assert Concerns(rows[i], k);
      }
    }
  }

  /** The bettor is that of the receipt's first row on the board. */
  lemma {:induction false} BettorSays(rows: seq<BetRow>, k: nat, n: nat)
    requires n < |rows| && Concerns(rows[n], k) && forall i :: 0 <= i < n ==> !Concerns(rows[i], k)
    ensures Bettor(rows, k) == rows[n].bettor
  {
    var rest := rows[..|rows| - 1];
    FirstSeenMembers(rest);
    if n < |rest| {
      assert Concerns(rest[n], k);
      BettorSays(rest, k, n);
    } else {
      assert forall i :: 0 <= i < |rest| ==> !Concerns(rest[i], k);
    }
  }

  /** What the rebuilt receipt says: amounts and total summed over its rows on the 25 squares, unclaimed and not
      refunded. */
  lemma {:induction false} ReceiptSays(rows: seq<BetRow>, k: nat)
    ensures var r := ReceiptOf(rows, k);
      && r.key == k && |r.amounts| == 25 && !r.claimed && !r.refunded
      && (forall t :: 0 <= t < 25 ==> r.amounts[t] == Sum(AmountFor(k, t), rows))
      && r.total == Sum(AmountOf(k), rows)
      && (forall row, t :: row in rows && 0 <= t < 25 && row.receipt == k && row.square == t ==>
            r.amounts[t] >= row.amount)
  {
    AmountsSay(rows, k, 0);
    forall t | 0 <= t < 25
      ensures ReceiptOf(rows, k).amounts[t] == Sum(AmountFor(k, t), rows)
      ensures forall row :: row in rows && row.receipt == k && row.square == t ==>
        ReceiptOf(rows, k).amounts[t] >= row.amount
    {
      AmountsSay(rows, k, t);
      forall row | row in rows && row.receipt == k && row.square == t ensures Sum(AmountFor(k, t), rows) >= row.amount {
        SumTermBound(AmountFor(k, t), rows, row);
      }
    }
  }

  /** Receipts come in the order their first rows do. */
  lemma {:induction false} FirstSeenKeepsOrder(rows: seq<BetRow>, i: nat, j: nat) returns (at: nat)
    requires i < j < |FirstSeen(rows)|
    ensures at < |rows| && Concerns(rows[at], FirstSeen(rows)[i])
    ensures forall n :: 0 <= n <= at ==> !Concerns(rows[n], FirstSeen(rows)[j])
  {
    var rest, last := rows[..|rows| - 1], rows[|rows| - 1];
    FirstSeenMembers(rest);
    if j < |FirstSeen(rest)| {
      at := FirstSeenKeepsOrder(rest, i, j);
      assert forall n :: 0 <= n <= at ==> rows[n] == rest[n];
    } else {
      var k := FirstSeen(rest)[i];
      assert k in FirstSeen(rest);
      at :| 0 <= at < |rest| && Concerns(rest[at], k);
      assert forall n :: 0 <= n < |rest| ==> !Concerns(rest[n], last.receipt);
    }
  }

  // ----- the code's own pass -----

  /** The loop body's update of one receipt. */
  function AddRow(r: Receipt, row: BetRow): Receipt
    requires InGrid(row)
  {
    r.(amounts := r.amounts[row.square := r.amounts[row.square] + row.amount],
       starts := r.starts[row.square := row.cumulativeStart],
       total := r.total + row.amount,
       rewardMode := if row.rewardMode > r.rewardMode then row.rewardMode else r.rewardMode)
  }

  function BlankReceipt(row: BetRow): Receipt {
    Receipt(row.receipt, row.bettor, seq(GRID, _ => 0), seq(GRID, _ => 0), 0, false, false, 0)
  }

  lemma RowAdds(rows: seq<BetRow>, row: BetRow, t: nat)
    requires InGrid(row)
    ensures var k, all := row.receipt, rows + [row];
      && TileAmount(all, k, t) == TileAmount(rows, k, t) + (if row.square == t then row.amount else 0)
      && LastStart(all, k, t) == (if row.square == t then row.cumulativeStart else LastStart(rows, k, t))
      && RowTotal(all, k) == RowTotal(rows, k) + row.amount
      && MaxMode(all, k) == (if row.rewardMode > MaxMode(rows, k) then row.rewardMode else MaxMode(rows, k))
      && Bettor(all, k) == (if k in FirstSeen(rows) then Bettor(rows, k) else row.bettor)
  {
    var all := rows + [row];
    assert all[..|all| - 1] == rows;
  }

  /** A receipt before its first row. */
  lemma UnseenReceipt(rows: seq<BetRow>, row: BetRow)
    requires row.receipt !in FirstSeen(rows)
    ensures ReceiptOf(rows, row.receipt) == BlankReceipt(row).(authority := Bettor(rows, row.receipt))
  {
    var k := row.receipt;
    FirstSeenMembers(rows);
    forall t | 0 <= t < GRID ensures TileAmount(rows, k, t) == 0 && LastStart(rows, k, t) == 0 {
      UnseenBlank(rows, k, t);
    }
    UnseenBlank(rows, k, 0);
    assert ReceiptOf(rows, k).amounts == BlankReceipt(row).amounts;
    assert ReceiptOf(rows, k).starts == BlankReceipt(row).starts;
  }

  lemma AddRowFolds(rows: seq<BetRow>, row: BetRow, r: Receipt)
    requires InGrid(row)
    requires r == if row.receipt in FirstSeen(rows) then ReceiptOf(rows, row.receipt) else BlankReceipt(row)
    ensures AddRow(r, row) == ReceiptOf(rows + [row], row.receipt)
  {
    if row.receipt !in FirstSeen(rows) { UnseenReceipt(rows, row); }
    var before, after := ReceiptOf(rows, row.receipt), ReceiptOf(rows + [row], row.receipt);
    forall t | 0 <= t < GRID
      ensures after.amounts[t] == before.amounts[t] + (if row.square == t then row.amount else 0)
      ensures after.starts[t] == if row.square == t then row.cumulativeStart else before.starts[t]
    {
      RowAdds(rows, row, t);
    }
    RowAdds(rows, row, 0);
    assert AddRow(r, row).amounts == after.amounts;
    assert AddRow(r, row).starts == after.starts;
  }

  lemma OtherRowUnfolds(rows: seq<BetRow>, row: BetRow, k: nat)
    requires !Concerns(row, k)
    ensures ReceiptOf(rows + [row], k) == ReceiptOf(rows, k)
  {
    var all := rows + [row];
    assert all[..|all| - 1] == rows;
    assert ReceiptOf(all, k).amounts == ReceiptOf(rows, k).amounts;
    assert ReceiptOf(all, k).starts == ReceiptOf(rows, k).starts;
  }

  ghost predicate Folded(rows: seq<BetRow>, receipts: map<nat, Receipt>, order: seq<nat>) {
    && order == FirstSeen(rows)
    && (forall k :: k in receipts <==> k in order)
    && (forall k :: k in receipts ==> receipts[k] == ReceiptOf(rows, k))
  }

  /** The first loop of `indexedMinerRoster`. */
  method FoldRows(rows: seq<BetRow>) returns (receipts: seq<Receipt>)
    ensures receipts == IndexReceipts(rows)
  {
    var byKey: map<nat, Receipt> := map[];
    var order: seq<nat> := [];
    for i := 0 to |rows|
      invariant Folded(rows[..i], byKey, order)
    {
      var row := rows[i];
      assert rows[..i + 1] == rows[..i] + [row];
      assert (rows[..i] + [row])[..i] == rows[..i];
      forall k | !Concerns(row, k) { OtherRowUnfolds(rows[..i], row, k); }
      if !InGrid(row) { continue; }
      var receipt := if row.receipt in byKey then byKey[row.receipt] else BlankReceipt(row);
      AddRowFolds(rows[..i], row, receipt);
      if row.receipt !in byKey { order := order + [row.receipt]; }
      byKey := byKey[row.receipt := AddRow(receipt, row)];
    }
    assert rows[..|rows|] == rows;
    assert forall j :: 0 <= j < |order| ==> order[j] in byKey by {
      forall j | 0 <= j < |order| ensures order[j] in byKey { assert order[j] in order; }
    }
    receipts := seq(|order|, j requires 0 <= j < |order| && order[j] in byKey => byKey[order[j]]);
  }

  /** A wallet's entry in the indexed roster. */
  function IndexAward(round: Round, soloWinner: Option<Address>, receipts: seq<Receipt>, m: Miner): Award
    requires round.winningSquare < GRID && |m.tileBets| == GRID
  {
    var stake := m.tileBets[round.winningSquare];
    var onTile := stake > 0 && round.winnerTotal > 0;
    var solo := round.singleMinerRound && soloWinner == Some(m.address);
    var sol := Paid(TileShare(round, round.potForWinners), m.address, receipts);
    var myne := if !onTile then 0
                else if round.singleMinerRound then (if solo then round.bullionForWinners else 0)
                else Paid(TileShare(round, round.bullionForWinners), m.address, receipts);
    Award(
      m, sol, stake, round.winnerTotal, sol, 0, round.potForWinners, myne,
      if round.jackpotHit then m.deployed > 0 else onTile || solo,
      onTile, solo, round.jackpotHit && m.deployed > 0, !round.jackpotHit)
  }

  ghost predicate IndexedAwards(round: Round, soloWinner: Option<Address>, rows: seq<BetRow>, awards: seq<Award>)
    requires round.winningSquare < GRID
  {
    && IsRoster(IndexReceipts(rows), Miners(awards))
    && (forall i :: 0 <= i < |awards| ==> |awards[i].miner.tileBets| == GRID)
    && (forall i :: 0 <= i < |awards| ==>
          awards[i] == IndexAward(round, soloWinner, IndexReceipts(rows), awards[i].miner))
  }

  /** `indexedMinerRoster`. Its grouping loop is the one of `aggregateMiners` over receipts that
      are neither claimed nor refunded; a settled round has a winning square on the grid. */
  method IndexedMinerRoster(round: Round, soloWinner: Option<Address>, rows: seq<BetRow>)
    returns (awards: seq<Award>, winners: seq<Award>)
    requires round.winningSquare < GRID
    ensures IndexedAwards(round, soloWinner, rows, awards)
    ensures winners == Wins(awards)
  {
    var receipts := FoldRows(rows);
    var ms := AggregateMiners(receipts);
    RosterGrids(receipts, ms);
    awards := seq(|ms|, i requires 0 <= i < |ms| && |ms[i].tileBets| == GRID =>
      IndexAward(round, soloWinner, receipts, ms[i]));
    assert Miners(awards) == ms;
    winners := Wins(awards);
  }

  // ----- agreement with the receipts -----

  predicate Describes(row: BetRow, r: Receipt)
    requires InGrid(row)
  {
    && row.receipt == r.key && row.bettor == r.authority && row.rewardMode == r.rewardMode
    && row.amount == r.amounts[row.square] && row.cumulativeStart == r.starts[row.square]
  }

  /** Every row of this receipt quotes it, and no positive square is missing. */
  ghost predicate Expanded(rows: seq<BetRow>, r: Receipt) {
    && (forall i :: 0 <= i < |rows| && Concerns(rows[i], r.key) ==> Describes(rows[i], r))
    && (forall t :: 0 <= t < GRID && r.amounts[t] > 0 ==> HasRow(rows, r.key, t))
    && (exists i :: 0 <= i < |rows| && Concerns(rows[i], r.key))
  }

  /** The rows, in any order, are these receipts expanded square by square. */
  ghost predicate Complete(rows: seq<BetRow>, receipts: seq<Receipt>) {
    && SquaresOnce(rows)
    && (forall r :: r in receipts ==> Expanded(rows, r))
    && (forall i :: 0 <= i < |rows| && InGrid(rows[i]) ==> exists r :: r in receipts && r.key == rows[i].receipt)
  }

  ghost predicate SquaresOnce(rows: seq<BetRow>) {
    forall i, j :: 0 <= i < j < |rows| && InGrid(rows[i]) && InGrid(rows[j])
      ==> rows[i].receipt != rows[j].receipt || rows[i].square != rows[j].square
  }

  ghost predicate HasRow(rows: seq<BetRow>, k: nat, t: nat) {
    exists i :: 0 <= i < |rows| && Concerns(rows[i], k) && rows[i].square == t
  }

  lemma {:induction false} TileFromRow(rows: seq<BetRow>, k: nat, t: nat, i: nat)
    requires SquaresOnce(rows) && i < |rows| && Concerns(rows[i], k) && rows[i].square == t
    ensures TileAmount(rows, k, t) == rows[i].amount && LastStart(rows, k, t) == rows[i].cumulativeStart
  {
    var rest := rows[..|rows| - 1];
    if i < |rest| {
      TileFromRow(rest, k, t, i);
    } else {
      TileWithoutRow(rest, k, t);
    }
  }

  lemma {:induction false} TileWithoutRow(rows: seq<BetRow>, k: nat, t: nat)
    requires !HasRow(rows, k, t)
    ensures TileAmount(rows, k, t) == 0
  {
    if rows != [] {
      var rest := rows[..|rows| - 1];
      assert !HasRow(rest, k, t) by {
        forall i | 0 <= i < |rest| ensures !(Concerns(rest[i], k) && rest[i].square == t) {
          assert rest[i] == rows[i];
        }
      }
      TileWithoutRow(rest, k, t);
    }
  }

  lemma {:induction false} TileSumUpdate(a: seq<nat>, i: nat, x: nat)
    requires i < |a|
    ensures TileSum(a[i := a[i] + x]) == TileSum(a) + x
  {
    var n, b := |a| - 1, a[i := a[i] + x];
    if i < n {
      assert b[..n] == a[..n][i := a[..n][i] + x];
      TileSumUpdate(a[..n], i, x);
    } else {
      assert b[..n] == a[..n];
    }
  }

  /** Row amounts add up per receipt as they do per square. */
  lemma {:induction false} RowTotalIsTileSum(rows: seq<BetRow>, k: nat)
    ensures RowTotal(rows, k) == TileSum(ReceiptOf(rows, k).amounts)
  {
    if rows == [] {
      TileSumZero(ReceiptOf(rows, k).amounts);
    } else {
      var rest, last := rows[..|rows| - 1], rows[|rows| - 1];
      RowTotalIsTileSum(rest, k);
      var before, after := ReceiptOf(rest, k).amounts, ReceiptOf(rows, k).amounts;
      if Concerns(last, k) {
        assert after == before[last.square := before[last.square] + last.amount];
        TileSumUpdate(before, last.square, last.amount);
      } else {
        assert after == before;
      }
    }
  }

  lemma {:induction false} SharedFields(rows: seq<BetRow>, k: nat, bettor: Address, mode: nat)
    requires forall i :: 0 <= i < |rows| && Concerns(rows[i], k) ==>
      rows[i].bettor == bettor && rows[i].rewardMode == mode
    ensures if k in FirstSeen(rows) then Bettor(rows, k) == bettor && MaxMode(rows, k) == mode
            else MaxMode(rows, k) == 0
  {
    if rows != [] { SharedFields(rows[..|rows| - 1], k, bettor, mode); }
  }

  /** A receipt as every roster computation sees it: a start matters only under a positive amount. */
  function Norm(r: Receipt): Receipt {
    r.(starts := seq(GRID, t requires 0 <= t < GRID => if r.amounts[t] > 0 then r.starts[t] else 0), claimed := false)
  }

  function Normalize(s: seq<Receipt>): seq<Receipt> {
    seq(|s|, i requires 0 <= i < |s| => Norm(s[i]))
  }

  lemma RebuiltTile(rows: seq<BetRow>, r: Receipt, t: nat)
    requires SquaresOnce(rows) && Expanded(rows, r) && t < GRID
    ensures TileAmount(rows, r.key, t) == r.amounts[t]
    ensures r.amounts[t] > 0 ==> LastStart(rows, r.key, t) == r.starts[t]
  {
    if HasRow(rows, r.key, t) {
      var i :| 0 <= i < |rows| && Concerns(rows[i], r.key) && rows[i].square == t;
      TileFromRow(rows, r.key, t, i);
    } else {
      TileWithoutRow(rows, r.key, t);
    }
  }

  /** Each receipt is rebuilt from its rows, up to starts that no reward looks at. */
  lemma Rebuilt(rows: seq<BetRow>, r: Receipt)
    requires SquaresOnce(rows) && Expanded(rows, r)
    requires !r.refunded && r.total == TileSum(r.amounts)
    ensures r.key in FirstSeen(rows) && Norm(ReceiptOf(rows, r.key)) == Norm(r)
  {
    FirstSeenMembers(rows);
    forall t | 0 <= t < GRID
      ensures TileAmount(rows, r.key, t) == r.amounts[t]
      ensures r.amounts[t] > 0 ==> LastStart(rows, r.key, t) == r.starts[t]
    {
      RebuiltTile(rows, r, t);
    }
    SharedFields(rows, r.key, r.authority, r.rewardMode);
    RowTotalIsTileSum(rows, r.key);
    assert ReceiptOf(rows, r.key).amounts == r.amounts;
    assert Norm(ReceiptOf(rows, r.key)).starts == Norm(r).starts;
  }

  lemma RowOwner(rows: seq<BetRow>, receipts: seq<Receipt>, k: nat)
    requires forall i :: 0 <= i < |rows| && InGrid(rows[i]) ==> exists r :: r in receipts && r.key == rows[i].receipt
    requires k in FirstSeen(rows)
    ensures exists r :: r in receipts && r.key == k
  {
    FirstSeenMembers(rows);
    var i :| 0 <= i < |rows| && Concerns(rows[i], k);
  }

  /** Every receipt is rebuilt and every rebuilt receipt is one of them. */
  ghost predicate RebuildsAll(rows: seq<BetRow>, receipts: seq<Receipt>) {
    && (forall r :: r in receipts ==> r.key in FirstSeen(rows) && Norm(ReceiptOf(rows, r.key)) == Norm(r))
    && (forall k :: k in FirstSeen(rows) ==> exists r :: r in receipts && r.key == k)
  }

  lemma CompleteRebuilds(rows: seq<BetRow>, receipts: seq<Receipt>)
    requires Sound(receipts) && Complete(rows, receipts)
    ensures RebuildsAll(rows, receipts)
  {
    forall r | r in receipts ensures r.key in FirstSeen(rows) && Norm(ReceiptOf(rows, r.key)) == Norm(r) {
      Rebuilt(rows, r);
    }
    forall k | k in FirstSeen(rows) ensures exists r :: r in receipts && r.key == k {
      RowOwner(rows, receipts, k);
    }
  }

  lemma NormKeysDistinct(s: seq<Receipt>)
    requires forall i, j :: 0 <= i < j < |s| ==> s[i].key != s[j].key
    ensures Distinct(Normalize(s))
  {
    forall i, j | 0 <= i < j < |s| ensures Normalize(s)[i] != Normalize(s)[j] {
      assert Normalize(s)[i].key == s[i].key && Normalize(s)[j].key == s[j].key;
    }
  }

  /** Normalised, the indexed receipts are a permutation of the receipts. */
  lemma IndexPermutes(rows: seq<BetRow>, receipts: seq<Receipt>)
    requires Sound(receipts) && Complete(rows, receipts)
    ensures multiset(Normalize(IndexReceipts(rows))) == multiset(Normalize(receipts))
  {
    CompleteRebuilds(rows, receipts);
    RebuildsPermutes(rows, receipts);
  }

  lemma RebuildsPermutes(rows: seq<BetRow>, receipts: seq<Receipt>)
    requires RebuildsAll(rows, receipts)
    requires forall i, j :: 0 <= i < j < |receipts| ==> receipts[i].key != receipts[j].key
    ensures multiset(Normalize(IndexReceipts(rows))) == multiset(Normalize(receipts))
  {
    var ks, s, t := FirstSeen(rows), Normalize(IndexReceipts(rows)), Normalize(receipts);
    FirstSeenMembers(rows);
    NormKeysDistinct(IndexReceipts(rows));
    NormKeysDistinct(receipts);
    NormalizeMembers(receipts);
    forall x | x in s ensures x in t {
      var j :| 0 <= j < |s| && s[j] == x;
      assert ks[j] in ks;
      var r :| r in receipts && r.key == ks[j];
    }
    forall x | x in t ensures x in s {
      var r :| r in receipts && x == Norm(r);
      var j :| 0 <= j < |ks| && ks[j] == r.key;
      assert s[j] == x;
    }
    SameMembersSameMultiset(s, t);
  }

  /** Sums that look at a receipt only through its normal form. */
  lemma SumNormalize(f: Receipt -> int, s: seq<Receipt>)
    requires forall r :: r in s ==> f(r) == f(Norm(r))
    ensures Sum(f, s) == Sum(f, Normalize(s))
  {
    SumAlong(f, s, f, Normalize(s));
  }

  function Unclaimed(m: Miner): Miner { m.(claimed := false) }

  lemma MinerOfNormalize(s: seq<Receipt>, a: Address)
    requires Deployed(s, a)
    ensures MinerOf(Normalize(s), a) == Unclaimed(MinerOf(s, a))
  {
    var n := Normalize(s);
    forall t | 0 <= t < GRID
      ensures Sum(Only(AmountAt(t), Authority(), a), s) == Sum(Only(AmountAt(t), Authority(), a), n)
    {
      SumNormalize(Only(AmountAt(t), Authority(), a), s);
    }
    SumNormalize(Only(Total(), Authority(), a), s);
    SumNormalize(Only(One(), Authority(), a), s);
    assert MinerOf(n, a).tileBets == MinerOf(s, a).tileBets;
    NormalizeMembers(s);
  }

  lemma NormalizeMembers(s: seq<Receipt>)
    ensures forall r :: r in s ==> Norm(r) in Normalize(s)
    ensures forall x :: x in Normalize(s) ==> exists r :: r in s && x == Norm(r)
  {
    forall r | r in s ensures Norm(r) in Normalize(s) {
      var i :| 0 <= i < |s| && s[i] == r;
      assert Normalize(s)[i] == Norm(r);
    }
    forall x | x in Normalize(s) ensures exists r :: r in s && x == Norm(r) {
      var i :| 0 <= i < |s| && Normalize(s)[i] == x;
      assert s[i] in s;
    }
  }

  function AllUnclaimed(ms: seq<Miner>): seq<Miner> {
    seq(|ms|, i requires 0 <= i < |ms| => Unclaimed(ms[i]))
  }

  lemma RosterNormalize(s: seq<Receipt>, ms: seq<Miner>)
    requires IsRoster(s, ms) && forall r :: r in s ==> !r.refunded
    ensures IsRoster(Normalize(s), AllUnclaimed(ms))
    ensures Kept(Normalize(s)) == Normalize(s)
  {
    NormalizeMembers(s);
    KeptAll(s);
    KeptAll(Normalize(s));
    var ns := AllUnclaimed(ms);
    forall n | n in ns
      ensures n == MinerOf(Normalize(s), n.address) && Deployed(Normalize(s), n.address)
    {
      var i :| 0 <= i < |ms| && ns[i] == n;
      assert ms[i] in ms;
      var r :| r in s && r.authority == ms[i].address;
      assert Norm(r) in Normalize(s);
      MinerOfNormalize(s, n.address);
    }
    forall x | x in Normalize(s) ensures ListsAddress(ns, x.authority) {
      var r :| r in s && x == Norm(r);
      var m :| m in ms && m.address == r.authority;
      var i :| 0 <= i < |ms| && ms[i] == m;
      assert ns[i] in ns;
    }
    forall i, j | 0 <= i < j < |ns| ensures Before(ns[i], ns[j]) {
      assert Before(ms[i], ms[j]);
    }
  }

  lemma IndexReceiptsKept(rows: seq<BetRow>)
    ensures forall r :: r in IndexReceipts(rows) ==> !r.refunded && !r.claimed
  {
  }

  /** Both paths list the same wallets with the same bets, totals and order. */
  lemma SameMiners(rows: seq<BetRow>, receipts: seq<Receipt>, direct: seq<Miner>, indexed: seq<Miner>)
    requires Sound(receipts) && Complete(rows, receipts)
    requires IsRoster(receipts, direct) && IsRoster(IndexReceipts(rows), indexed)
    ensures indexed == AllUnclaimed(direct)
  {
    var s := IndexReceipts(rows);
    IndexReceiptsKept(rows);
    RosterNormalize(receipts, direct);
    RosterNormalize(s, indexed);
    IndexPermutes(rows, receipts);
    RosterOrderIndependent(Normalize(receipts), Normalize(s), AllUnclaimed(direct), AllUnclaimed(indexed));
    IndexedUnclaimed(rows, indexed);
  }

  lemma IndexedUnclaimed(rows: seq<BetRow>, indexed: seq<Miner>)
    requires IsRoster(IndexReceipts(rows), indexed)
    ensures indexed == AllUnclaimed(indexed)
  {
    var s := IndexReceipts(rows);
    IndexReceiptsKept(rows);
    KeptAll(s);
    forall i | 0 <= i < |indexed| ensures indexed[i] == Unclaimed(indexed[i]) {
      assert indexed[i] in indexed;
      var r :| r in s && r.authority == indexed[i].address;
      assert !r.claimed;
      assert indexed[i] == MinerOf(s, indexed[i].address);
    }
  }

  lemma TileShareNorm(round: Round, pool: nat, r: Receipt)
    requires round.winningSquare < GRID
    ensures TileShare(round, pool)(r) == TileShare(round, pool)(Norm(r))
  {
    var w := round.winningSquare;
    assert Norm(r).amounts[w] == r.amounts[w];
    assert r.amounts[w] > 0 ==> Norm(r).starts[w] == r.starts[w];
  }

  lemma SameTilePay(round: Round, rows: seq<BetRow>, receipts: seq<Receipt>, pool: nat, a: Address)
    requires Sound(receipts) && Complete(rows, receipts) && round.winningSquare < GRID
    ensures Paid(TileShare(round, pool), a, IndexReceipts(rows)) == Paid(TileShare(round, pool), a, receipts)
  {
    var f, s := Only(TileShare(round, pool), Authority(), a), IndexReceipts(rows);
    forall r ensures f(r) == f(Norm(r)) { TileShareNorm(round, pool, r); }
    SumNormalize(f, s);
    SumNormalize(f, receipts);
    IndexPermutes(rows, receipts);
    SumPermutation(f, Normalize(s), Normalize(receipts));
  }

  /** In a settled round the sampled wallet has a stake on the winning tile. */
  lemma SoloWinnerOnTile(round: Round, ledger: seq<Receipt>, rows: seq<Receipt>, m: Miner)
    requires WellFormed(ledger) && Settles(round, ledger) && multiset(rows) == multiset(ledger)
    requires m == MinerOf(Kept(rows), m.address)
    requires SoloWinner(rows, round.winningSquare, round.soloSample) == Some(m.address)
    ensures m.tileBets[round.winningSquare] > 0 && round.winnerTotal > 0
  {
    var w := round.winningSquare;
    RowsOfLedger(ledger, rows);
    SoloWinnerFound(rows, w, round.soloSample);
    var r :| r in rows && Covers(r, w, round.soloSample) && r.authority == m.address;
    CoveringWalletOnTile(rows, w, round.soloSample, r);
    var i :| 0 <= i < |ledger| && ledger[i] == r;
    CoveredBelowTotal(ledger, w, round.soloSample, i);
  }

  /** A direct award as the index can know it: no claim flag and no Motherlode leg. */
  function TileLegOnly(a: Award): Award {
    a.(miner := Unclaimed(a.miner), eth := a.winningSolReward, motherlodeSolReward := 0, motherlodeShare := false)
  }

  /** One wallet: equal tallies and equal tile pay give the same award but for the Motherlode leg. */
  lemma SameAward(round: Round, soloWinner: Option<Address>, indexed: seq<Receipt>, receipts: seq<Receipt>, m: Miner)
    requires round.winningSquare < GRID && |m.tileBets| == GRID && !round.jackpotHit
    requires Paid(TileShare(round, round.potForWinners), m.address, indexed)
      == Paid(TileShare(round, round.potForWinners), m.address, receipts)
    requires Paid(TileShare(round, round.bullionForWinners), m.address, indexed)
      == Paid(TileShare(round, round.bullionForWinners), m.address, receipts)
    requires round.singleMinerRound ==> soloWinner == SoloWinner(receipts, round.winningSquare, round.soloSample)
    requires round.singleMinerRound && soloWinner == Some(m.address)
      ==> m.tileBets[round.winningSquare] > 0 && round.winnerTotal > 0
    ensures IndexAward(round, soloWinner, indexed, Unclaimed(m)) == TileLegOnly(Enrich(round, receipts, m))
  {
  }

  /** In a round that is no hit, an award is its tile leg alone exactly when its Motherlode leg is zero. */
  lemma TileLegOnlyIff(round: Round, rows: seq<Receipt>, awards: seq<Award>, i: nat)
    requires round.winningSquare < GRID && DirectAwards(round, rows, awards) && i < |awards| && !round.jackpotHit
    ensures TileLegOnly(awards[i]) == awards[i].(miner := Unclaimed(awards[i].miner))
      <==> awards[i].motherlodeSolReward == 0
  {
  }

  /**
   * For every settled round that is no hit the index yields the direct roster: same wallets, bets,
   * deployments, stakes, tile SOL, MYNE, flags and order. Only the claim flag, which the index does not
   * carry, is always false, and the Motherlode SOL leg is missing: everything agrees exactly when the round
   * carries no Motherlode payout or has no deployments.
   */
  lemma IndexMatchesReceipts(round: Round, soloWinner: Option<Address>, rows: seq<BetRow>, ledger: seq<Receipt>,
                             receipts: seq<Receipt>, direct: seq<Award>, indexed: seq<Award>)
    requires SettledRoster(round, ledger, receipts, direct) && Complete(rows, receipts) && !round.jackpotHit
    requires round.singleMinerRound ==> soloWinner == SoloWinner(receipts, round.winningSquare, round.soloSample)
    requires IndexedAwards(round, soloWinner, rows, indexed)
    ensures |indexed| == |direct|
    ensures forall i :: 0 <= i < |direct| ==> indexed[i] == TileLegOnly(direct[i])
    ensures (forall i :: 0 <= i < |direct| ==> indexed[i] == direct[i].(miner := Unclaimed(direct[i].miner)))
      <==> round.motherlodePayoutLamports == 0 || round.totalWager == 0
  {
    LedgerRowsSound(ledger, receipts);
    SameMiners(rows, receipts, Miners(direct), Miners(indexed));
    assert |indexed| == |Miners(indexed)| == |Miners(direct)| == |direct|;
    forall i | 0 <= i < |direct|
      ensures indexed[i] == TileLegOnly(direct[i])
      ensures TileLegOnly(direct[i]) == direct[i].(miner := Unclaimed(direct[i].miner))
        <==> direct[i].motherlodeSolReward == 0
    {
      assert indexed[i].miner == Miners(indexed)[i] == Unclaimed(Miners(direct)[i]);
      ParticipantReady(round, soloWinner, rows, ledger, receipts, direct, i);
      SameAward(round, soloWinner, IndexReceipts(rows), receipts, direct[i].miner);
      TileLegOnlyIff(round, receipts, direct, i);
    }
    MotherlodeLegVanishes(round, ledger, receipts, direct);
  }

  // ----- Motherlode rounds -----

  lemma StakeWithinDeployment(rows: seq<Receipt>, m: Miner, t: nat)
    requires Sound(rows) && m == MinerOf(Kept(rows), m.address) && t < GRID
    ensures m.tileBets[t] <= m.deployed
  {
    KeptAll(rows);
    var bet, all := Only(AmountAt(t), Authority(), m.address), Only(Total(), Authority(), m.address);
    forall r | r in rows ensures bet(r) <= all(r) { TileSumNonNegative(r.amounts); }
    SumMonotone(bet, all, rows);
  }

  /** What both paths must agree on in any settled round. */
  ghost predicate SameParticipant(indexed: Award, direct: Award) {
    && indexed.miner == Unclaimed(direct.miner)
    && indexed.won == direct.won && indexed.isSoloWinner == direct.isSoloWinner
    && indexed.onWinningTile == direct.onWinningTile && indexed.winningStake == direct.winningStake
    && indexed.winningSolReward == direct.winningSolReward
    && indexed.eth <= direct.eth && indexed.bullion <= direct.bullion
  }

  /** A direct award as the index reports it: without the Motherlode amounts, and saying so after a hit. */
  function Indexable(round: Round, receipts: seq<Receipt>, a: Award): Award {
    a.(miner := Unclaimed(a.miner), eth := a.winningSolReward, motherlodeSolReward := 0,
       bullion := a.bullion - MotherlodeBullion(round, receipts, a.miner),
       motherlodeShare := round.jackpotHit && a.miner.deployed > 0, amountKnown := !round.jackpotHit)
  }

  lemma {:induction false} RoundPayNonNegative(round: Round, pool: nat, a: Address, rows: seq<Receipt>)
    ensures Paid(RoundShare(round, pool), a, rows) >= 0
  {
    if rows != [] { RoundPayNonNegative(round, pool, a, rows[..|rows| - 1]); }
  }

  lemma SameParticipantAward(round: Round, soloWinner: Option<Address>, indexed: seq<Receipt>,
                             receipts: seq<Receipt>, m: Miner)
    requires round.winningSquare < GRID && |m.tileBets| == GRID && m.tileBets[round.winningSquare] <= m.deployed
    requires Paid(TileShare(round, round.potForWinners), m.address, indexed)
      == Paid(TileShare(round, round.potForWinners), m.address, receipts)
    requires Paid(TileShare(round, round.bullionForWinners), m.address, indexed)
      == Paid(TileShare(round, round.bullionForWinners), m.address, receipts)
    requires Paid(RoundShare(round, round.motherlodePayoutLamports), m.address, receipts) >= 0
    requires MotherlodeBullion(round, receipts, m) >= 0
    requires round.singleMinerRound ==> soloWinner == SoloWinner(receipts, round.winningSquare, round.soloSample)
    requires round.singleMinerRound && soloWinner == Some(m.address)
      ==> m.tileBets[round.winningSquare] > 0 && round.winnerTotal > 0
    ensures SameParticipant(IndexAward(round, soloWinner, indexed, Unclaimed(m)), Enrich(round, receipts, m))
    ensures IndexAward(round, soloWinner, indexed, Unclaimed(m))
      == Indexable(round, receipts, Enrich(round, receipts, m))
  {
  }

  /**
   * Even in a Motherlode round the index names exactly the participants and winners, in the same order,
   * with the same winning-tile leg; its amounts never exceed the direct ones, and it says itself that
   * they are not known precisely when the Motherlode was hit.
   */
  lemma IndexParticipantsExact(round: Round, soloWinner: Option<Address>, rows: seq<BetRow>, ledger: seq<Receipt>,
                               receipts: seq<Receipt>, direct: seq<Award>, indexed: seq<Award>)
    requires SettledRoster(round, ledger, receipts, direct) && Complete(rows, receipts)
    requires round.singleMinerRound ==> soloWinner == SoloWinner(receipts, round.winningSquare, round.soloSample)
    requires IndexedAwards(round, soloWinner, rows, indexed)
    ensures |indexed| == |direct|
    ensures forall i :: 0 <= i < |direct| ==> SameParticipant(indexed[i], direct[i])
    ensures forall i :: 0 <= i < |direct| ==> indexed[i] == Indexable(round, receipts, direct[i])
  {
    LedgerRowsSound(ledger, receipts);
    SameMiners(rows, receipts, Miners(direct), Miners(indexed));
    assert |indexed| == |Miners(indexed)| == |Miners(direct)| == |direct|;
    forall i | 0 <= i < |direct|
      ensures SameParticipant(indexed[i], direct[i]) && indexed[i] == Indexable(round, receipts, direct[i])
    {
      assert indexed[i].miner == Miners(indexed)[i] == Unclaimed(Miners(direct)[i]);
      ParticipantReady(round, soloWinner, rows, ledger, receipts, direct, i);
      SameParticipantAward(round, soloWinner, IndexReceipts(rows), receipts, direct[i].miner);
    }
  }

  lemma ParticipantReady(round: Round, soloWinner: Option<Address>, rows: seq<BetRow>, ledger: seq<Receipt>,
                         receipts: seq<Receipt>, direct: seq<Award>, i: nat)
    requires SettledRoster(round, ledger, receipts, direct) && Complete(rows, receipts) && Sound(receipts)
    requires i < |direct|
    requires round.singleMinerRound ==> soloWinner == SoloWinner(receipts, round.winningSquare, round.soloSample)
    ensures var m := direct[i].miner;
      && |m.tileBets| == GRID && m.tileBets[round.winningSquare] <= m.deployed
      && Paid(TileShare(round, round.potForWinners), m.address, IndexReceipts(rows))
        == Paid(TileShare(round, round.potForWinners), m.address, receipts)
      && Paid(TileShare(round, round.bullionForWinners), m.address, IndexReceipts(rows))
        == Paid(TileShare(round, round.bullionForWinners), m.address, receipts)
      && Paid(RoundShare(round, round.motherlodePayoutLamports), m.address, receipts) >= 0
      && MotherlodeBullion(round, receipts, m) >= 0
      && (round.singleMinerRound && soloWinner == Some(m.address)
          ==> m.tileBets[round.winningSquare] > 0 && round.winnerTotal > 0)
  {
    var m := direct[i].miner;
    AwardMember(round, receipts, direct, i);
    StakeWithinDeployment(receipts, m, round.winningSquare);
    SameTilePay(round, rows, receipts, round.potForWinners, m.address);
    SameTilePay(round, rows, receipts, round.bullionForWinners, m.address);
    RoundPayNonNegative(round, round.motherlodePayoutLamports, m.address, receipts);
    RoundPayNonNegative(round, round.motherlodeEmission, m.address, receipts);
    if round.singleMinerRound && soloWinner == Some(m.address) {
      SoloWinnerOnTile(round, ledger, receipts, m);
    }
  }

  lemma IndexedSol(round: Round, soloWinner: Option<Address>, rows: seq<BetRow>, awards: seq<Award>, i: nat)
    requires round.winningSquare < GRID && IndexedAwards(round, soloWinner, rows, awards) && i < |awards|
    ensures awards[i].eth == awards[i].winningSolReward
  {
  }

  lemma DirectSol(round: Round, rows: seq<Receipt>, awards: seq<Award>, i: nat)
    requires round.winningSquare < GRID && DirectAwards(round, rows, awards) && i < |awards|
    ensures awards[i].eth == awards[i].winningSolReward + awards[i].motherlodeSolReward
  {
  }

  /** In every settled round, hit or not, the index's SOL is the direct SOL exactly when the round carries no
      Motherlode payout or has no deployments. */
  lemma IndexSolIff(round: Round, soloWinner: Option<Address>, rows: seq<BetRow>, ledger: seq<Receipt>,
                    receipts: seq<Receipt>, direct: seq<Award>, indexed: seq<Award>)
    requires SettledRoster(round, ledger, receipts, direct) && Complete(rows, receipts)
    requires round.singleMinerRound ==> soloWinner == SoloWinner(receipts, round.winningSquare, round.soloSample)
    requires IndexedAwards(round, soloWinner, rows, indexed)
    ensures |indexed| == |direct|
    ensures (forall i :: 0 <= i < |direct| ==> indexed[i].eth == direct[i].eth)
      <==> round.motherlodePayoutLamports == 0 || round.totalWager == 0
  {
    IndexParticipantsExact(round, soloWinner, rows, ledger, receipts, direct, indexed);
    forall i | 0 <= i < |direct|
      ensures direct[i].eth == indexed[i].eth + direct[i].motherlodeSolReward
    {
      assert SameParticipant(indexed[i], direct[i]);
      IndexedSol(round, soloWinner, rows, indexed, i);
      DirectSol(round, receipts, direct, i);
    }
    MotherlodeLegVanishes(round, ledger, receipts, direct);
  }

  lemma LoneRowComplete(amount: nat)
    ensures Complete([BetRow(1, 1, 1, amount, 0, 0)], [LoneReceipt(1, amount, 0)])
  {
    var row, r := BetRow(1, 1, 1, amount, 0, 0), LoneReceipt(1, amount, 0);
    assert [row][0] == row && r in [r];
    assert Expanded([row], r);
  }

  /** A lone wallet in a round that is no hit: called known, and short of the Motherlode leg. */
  lemma LoneIndexed(round: Round, soloWinner: Option<Address>, rows: seq<BetRow>, r: Receipt, direct: Award,
                    indexed: seq<Award>)
    requires SettledRoster(round, [r], [r], [direct]) && Complete(rows, [r])
    requires !round.jackpotHit && !round.singleMinerRound && IndexedAwards(round, soloWinner, rows, indexed)
    ensures |indexed| == 1 && indexed[0].amountKnown && indexed[0].eth == direct.eth - direct.motherlodeSolReward
  {
    IndexMatchesReceipts(round, soloWinner, rows, [r], [r], [direct], indexed);
    IndexParticipantsExact(round, soloWinner, rows, [r], [r], [direct], indexed);
    DirectSol(round, [r], [direct], 0);
    assert indexed[0] == TileLegOnly([direct][0]);
  }

  /** In a round that is no hit but carries a payout, the index calls its amounts known and shows no SOL,
      while the receipts pay the payout. */
  lemma IndexMissesPayout(amount: nat, payout: nat, soloWinner: Option<Address>, indexed: seq<Award>)
    requires amount > 0
    requires IndexedAwards(UnflaggedRound(amount, payout), soloWinner, [BetRow(1, 1, 1, amount, 0, 0)], indexed)
    ensures |indexed| == 1 && indexed[0].amountKnown && indexed[0].eth == 0
    ensures LoneAward(UnflaggedRound(amount, payout), LoneReceipt(1, amount, 0)).eth == payout
  {
    var round, r := UnflaggedRound(amount, payout), LoneReceipt(1, amount, 0);
    PaidWithoutWinning(amount, payout);
    LoneRowComplete(amount);
    LoneIndexed(round, soloWinner, [BetRow(1, 1, 1, amount, 0, 0)], r, LoneAward(round, r), indexed);
  }
}
