/**
 * The reward-window functions of Frontend/src/chain/staking-apy.js: which stretch of indexed rounds, if
 * any, provably contains every staking fee of the requested period.
 */
module RewardWindows {
  import opened Common

  /** A JavaScript number; window lengths are exact reals. */
  datatype Number = NaN | Num(v: real)

  const MAX_SAFE: int := 9007199254740991

  predicate IsSafe(x: int) { -MAX_SAFE <= x <= MAX_SAFE }

  /** `Number.isSafeInteger`. */
  predicate IsSafeInteger(n: Number) {
    n.Num? && n.v == n.v.Floor as real && IsSafe(n.v.Floor)
  }

  /** An index row. Ids and rewards are absent when they are not unsigned integers. */
  datatype Row = Row(roundId: Option<nat>, settlesAt: Number, reward: Option<nat>, resolved: bool)

  datatype Summary = Summary(
    complete: bool, windowMinutes: real, rewardLamports: nat, rounds: nat, first: Option<int>, last: Option<int>)

  function Settles(row: Row): int { if row.settlesAt.Num? then row.settlesAt.v.Floor else 0 }

  function Id(row: Row): nat { if row.roundId.Some? then row.roundId.value else 0 }

  function Reward(row: Row): nat { if row.reward.Some? then row.reward.value else 0 }

  function RewardSum(rows: seq<Row>): nat {
    if rows == [] then 0 else RewardSum(rows[..|rows| - 1]) + Reward(rows[|rows| - 1])
  }

  // ----- what makes a window trustworthy -----

  /** A settled round with its fee event, at a readable time. */
  predicate Indexed(row: Row) {
    row.roundId.Some? && row.reward.Some? && row.resolved && IsSafeInteger(row.settlesAt)
  }

  /** The very next round, settled later and without skipping a scheduled interval. */
  predicate Follows(a: Row, b: Row, maxGap: int) {
    Id(b) == Id(a) + 1 && 0 < Settles(b) - Settles(a) <= maxGap
  }

  predicate Linked(rows: seq<Row>, maxGap: int) {
    forall i :: 0 < i < |rows| ==> Follows(rows[i - 1], rows[i], maxGap)
  }

  /** Every scheduled settlement of [start, end] is present, resolved and paid for. */
  predicate Covers(rows: seq<Row>, start: int, end: int, maxGap: int) {
    && rows != []
    && (forall i :: 0 <= i < |rows| ==> Indexed(rows[i]) && start <= Settles(rows[i]) <= end)
    && Linked(rows, maxGap)
    && Settles(rows[|rows| - 1]) == end
    && Settles(rows[0]) < start + maxGap
  }

  datatype Request = Request(
    start: int, end: int, windowMinutes: real, cadence: int, maxRows: int,
    observedAt: int, watermark: int, maxStaleness: int, maxGap: int)

  predicate Admissible(q: Request, count: nat) {
    && 0 < count < q.maxRows && IsSafe(q.maxRows)
    && 0 <= q.start < q.end && IsSafe(q.start) && IsSafe(q.end)
    && q.windowMinutes > 0.0 && q.cadence > 0 && IsSafe(q.cadence)
    && IsSafe(q.observedAt) && IsSafe(q.watermark)
    && 0 < q.maxStaleness && IsSafe(q.maxStaleness) && 0 < q.maxGap && IsSafe(q.maxGap)
    && q.watermark == q.end && q.watermark <= q.observedAt && q.observedAt - q.watermark <= q.maxStaleness
  }

  function Incomplete(windowMinutes: real, count: nat): Summary {
    Summary(false, windowMinutes, 0, count, None, None)
  }

  /** `summariseStakingRewardWindow`. */
  method Summarise(rows: seq<Row>, q: Request) returns (out: Summary)
    ensures out.complete <==> Admissible(q, |rows|) && Covers(rows, q.start, q.end, q.maxGap)
    ensures out.windowMinutes == q.windowMinutes && out.rounds == |rows|
    ensures out.rewardLamports == if out.complete then RewardSum(rows) else 0
    ensures out.complete ==> out.first == Some(Settles(rows[0])) && out.last == Some(q.end)
  {
    if !Admissible(q, |rows|) { return Incomplete(q.windowMinutes, |rows|); }
    var reward: nat := 0;
    var previousRoundId: Option<nat> := None;
    var previousSettlesAt: Option<int> := None;
    var first: Option<int> := None;
    for i := 0 to |rows|
      invariant reward == RewardSum(rows[..i])
      invariant forall j :: 0 <= j < i ==> Indexed(rows[j]) && q.start <= Settles(rows[j]) <= q.end
      invariant Linked(rows[..i], q.maxGap)
      invariant i == 0 ==> previousRoundId == None && previousSettlesAt == None && first == None
      invariant i > 0 ==> previousRoundId == Some(Id(rows[i - 1])) && previousSettlesAt == Some(Settles(rows[i - 1]))
      invariant i > 0 ==> first == Some(Settles(rows[0]))
    {
      var row := rows[i];
      assert rows[..i + 1][..i] == rows[..i];
      if !Indexed(row) || Settles(row) < q.start || Settles(row) > q.end
        || (previousRoundId.Some? && Id(row) != previousRoundId.value + 1)
        || (previousSettlesAt.Some? && Settles(row) <= previousSettlesAt.value)
        || (previousSettlesAt.Some? && Settles(row) - previousSettlesAt.value > q.maxGap)
      {
        assert i > 0 ==> !(Indexed(row) && q.start <= Settles(row) <= q.end && Follows(rows[i - 1], rows[i], q.maxGap));
        return Incomplete(q.windowMinutes, |rows|);
      }
      if first.None? { first := Some(Settles(row)); }
      previousRoundId, previousSettlesAt := Some(Id(row)), Some(Settles(row));
      reward := reward + Reward(row);
    }
    assert rows[..|rows|] == rows;
    var complete := previousSettlesAt.value == q.watermark && first.value < q.start + q.maxGap;
    out := Summary(complete, q.windowMinutes, if complete then reward else 0, |rows|, first, previousSettlesAt);
  }

  // ----- the newest complete window -----

  /** `Number(row.settles_at) >= start`, false for NaN. */
  predicate NotBefore(row: Row, start: int) { row.settlesAt.Num? && row.settlesAt.v >= start as real }

  /** Where the backwards walk from an end row stops. */
  function WindowStart(rows: seq<Row>, e: nat, start: int): (s: nat)
    requires e < |rows|
    ensures s <= e
    ensures forall i :: s <= i < e ==> NotBefore(rows[i], start)
    ensures s > 0 ==> !NotBefore(rows[s - 1], start)
  {
    if e > 0 && NotBefore(rows[e - 1], start) then WindowStart(rows, e - 1, start) else e
  }

  /** `Math.round(windowMinutes * 60)`. */
  function WindowSeconds(windowMinutes: real): int { (windowMinutes * 60.0 + 0.5).Floor }

  /** Seconds and minutes: a whole number of seconds fits the window exactly when it is no more than sixty
      times the minutes, rounded to the nearest second. */
  lemma {:induction false} SecondsPerMinute(windowMinutes: real, seconds: int)
    ensures 60.0 * windowMinutes - 0.5 < WindowSeconds(windowMinutes) as real <= 60.0 * windowMinutes + 0.5
    ensures seconds <= WindowSeconds(windowMinutes) <==> seconds as real <= 60.0 * windowMinutes + 0.5
    ensures seconds >= WindowSeconds(windowMinutes) <==> seconds as real > 60.0 * windowMinutes - 0.5
  {
  }

  datatype Query = Query(windowMinutes: real, cadence: int, observedAt: int, maxRows: int)

  predicate Answerable(q: Query, count: nat) {
    && 0 < count < q.maxRows && q.windowMinutes > 0.0
    && q.cadence > 0 && IsSafe(q.cadence) && IsSafe(q.observedAt)
  }

  function RequestAt(rows: seq<Row>, e: nat, q: Query): Request
    requires e < |rows|
  {
    var end := Settles(rows[e]);
    Request(end - WindowSeconds(q.windowMinutes), end, q.windowMinutes, q.cadence, q.maxRows,
            q.observedAt, end, MAX_SAFE, q.cadence + 5)
  }

  function WindowAt(rows: seq<Row>, e: nat, q: Query): seq<Row>
    requires e < |rows|
  {
    rows[WindowStart(rows, e, RequestAt(rows, e, q).start)..e + 1]
  }

  /** The window that ends at this row validates. */
  predicate CompleteAt(rows: seq<Row>, e: nat, q: Query)
    requires e < |rows|
  {
    var r := RequestAt(rows, e, q);
    && IsSafeInteger(rows[e].settlesAt) && Settles(rows[e]) <= q.observedAt
    && Admissible(r, |WindowAt(rows, e, q)|)
    && Covers(WindowAt(rows, e, q), r.start, r.end, r.maxGap)
  }

  /** The newest end row whose window validates. */
  ghost predicate Newest(rows: seq<Row>, e: nat, q: Query) {
    e < |rows| && CompleteAt(rows, e, q) && forall later :: e < later < |rows| ==> !CompleteAt(rows, later, q)
  }

  /** What the selector reports for the window ending at a row. */
  ghost predicate Reports(out: Summary, rows: seq<Row>, e: nat, q: Query)
    requires e < |rows|
  {
    && out.complete && out.windowMinutes == q.windowMinutes
    && out.rewardLamports == RewardSum(WindowAt(rows, e, q))
    && out.rounds == |WindowAt(rows, e, q)|
    && out.first == Some(Settles(WindowAt(rows, e, q)[0])) && out.last == Some(Settles(rows[e]))
  }

  /** `selectLatestCompleteStakingRewardWindow`: the summary, and the end row it was found at. */
  method SelectComplete(rows: seq<Row>, q: Query) returns (out: Option<Summary>, e: int)
    ensures out.None? ==> !Answerable(q, |rows|) || forall i :: 0 <= i < |rows| ==> !CompleteAt(rows, i, q)
    ensures out.Some? ==> Answerable(q, |rows|) && 0 <= e && Newest(rows, e, q) && Reports(out.value, rows, e, q)
  {
    e := -1;
    if !Answerable(q, |rows|) { return None, e; }
    e := |rows| - 1;
    while e >= 0
      invariant -1 <= e < |rows|
      invariant forall later :: e < later < |rows| ==> !CompleteAt(rows, later, q)
    {
      out := TryEnd(rows, e, q);
      if out.Some? { return out, e; }
      e := e - 1;
    }
    return None, e;
  }

  /** The body of the selector's loop for one end row. */
  method TryEnd(rows: seq<Row>, e: nat, q: Query) returns (out: Option<Summary>)
    requires e < |rows|
    ensures out.Some? <==> CompleteAt(rows, e, q)
    ensures out.Some? ==> Reports(out.value, rows, e, q)
  {
    if !IsSafeInteger(rows[e].settlesAt) || Settles(rows[e]) > q.observedAt { return None; }
    var request := RequestAt(rows, e, q);
    var startIndex := e;
    while startIndex > 0 && NotBefore(rows[startIndex - 1], request.start)
      invariant 0 <= startIndex <= e
      invariant WindowStart(rows, e, request.start) == WindowStart(rows, startIndex, request.start)
    {
      startIndex := startIndex - 1;
    }
    var candidate := rows[startIndex..e + 1];
    assert candidate == WindowAt(rows, e, q);
    var summary := Summarise(candidate, request);
    out := if summary.complete then Some(summary) else None;
  }

  // ----- what a validated window says -----

  /** Ids run consecutively. */
  lemma {:induction false} ConsecutiveIds(rows: seq<Row>, maxGap: int, i: nat)
    requires Linked(rows, maxGap) && i < |rows|
    ensures Id(rows[i]) == Id(rows[0]) + i
  {
    if i > 0 { ConsecutiveIds(rows, maxGap, i - 1); }
  }

  lemma {:induction false} SpanBound(rows: seq<Row>, maxGap: int, i: nat)
    requires Linked(rows, maxGap) && i < |rows|
    ensures Settles(rows[i]) - Settles(rows[0]) <= i * maxGap
  {
    if i > 0 { SpanBound(rows, maxGap, i - 1); }
  }

  /** A validated window has enough rows to have left no scheduled settlement out. */
  lemma WindowIsDense(rows: seq<Row>, start: int, end: int, maxGap: int)
    requires Covers(rows, start, end, maxGap)
    ensures |rows| * maxGap > end - start
    ensures forall i :: 0 <= i < |rows| ==> Id(rows[i]) == Id(rows[0]) + i
  {
    var n := |rows| - 1;
    SpanBound(rows, maxGap, n);
    assert |rows| * maxGap == n * maxGap + maxGap;
    forall i | 0 <= i < |rows| ensures Id(rows[i]) == Id(rows[0]) + i { ConsecutiveIds(rows, maxGap, i); }
  }

  ghost predicate StrictlyLater(rows: seq<Row>) {
    && (forall i :: 0 <= i < |rows| ==> IsSafeInteger(rows[i].settlesAt))
    && (forall i, j :: 0 <= i < j < |rows| ==> Settles(rows[i]) < Settles(rows[j]))
  }

  lemma NotBeforeSafe(row: Row, start: int)
    requires IsSafeInteger(row.settlesAt)
    ensures NotBefore(row, start) <==> Settles(row) >= start
  {
  }

  lemma WindowStartTimes(rows: seq<Row>, e: nat, start: int)
    requires StrictlyLater(rows) && e < |rows|
    ensures var s := WindowStart(rows, e, start);
      && (forall i :: s <= i < e ==> Settles(rows[i]) >= start)
      && (s > 0 ==> Settles(rows[s - 1]) < start)
  {
    var s := WindowStart(rows, e, start);
    forall i | s <= i < e ensures Settles(rows[i]) >= start { NotBeforeSafe(rows[i], start); }
    if s > 0 { NotBeforeSafe(rows[s - 1], start); }
  }

  /** With chronological rows the window is exactly the rows settling in [start, end]. */
  lemma WindowIsInterval(rows: seq<Row>, e: nat, start: int, i: nat)
    requires StrictlyLater(rows) && e < |rows| && start <= Settles(rows[e]) && i < |rows|
    ensures WindowStart(rows, e, start) <= i <= e <==> start <= Settles(rows[i]) <= Settles(rows[e])
  {
    var s := WindowStart(rows, e, start);
    WindowStartTimes(rows, e, start);
    assert i > e ==> Settles(rows[e]) < Settles(rows[i]);
    assert i + 1 < s ==> Settles(rows[i]) < Settles(rows[s - 1]);
    assert i < e ==> Settles(rows[i]) < Settles(rows[e]);
  }

  /** The selected reward window: dense, consecutive, and exactly the rows settled in the last so many
      minutes. */
  lemma SelectedWindow(rows: seq<Row>, e: nat, q: Query)
    requires StrictlyLater(rows) && Newest(rows, e, q)
    ensures var w := WindowAt(rows, e, q);
      && (|w| * (q.cadence + 5)) as real > 60.0 * q.windowMinutes - 0.5
      && (forall i :: 0 <= i < |w| ==> Id(w[i]) == Id(w[0]) + i)
      && (forall i :: 0 <= i < |rows| ==>
           (rows[i] in w <==>
             && Settles(rows[i]) <= Settles(rows[e])
             && (Settles(rows[e]) - Settles(rows[i])) as real <= 60.0 * q.windowMinutes + 0.5))
  {
    SecondsPerMinute(q.windowMinutes, |WindowAt(rows, e, q)| * (q.cadence + 5));
    forall i | 0 <= i < |rows|
      ensures Settles(rows[e]) - WindowSeconds(q.windowMinutes) <= Settles(rows[i])
        <==> (Settles(rows[e]) - Settles(rows[i])) as real <= 60.0 * q.windowMinutes + 0.5
    {
      SecondsPerMinute(q.windowMinutes, Settles(rows[e]) - Settles(rows[i]));
    }
    var r, w := RequestAt(rows, e, q), WindowAt(rows, e, q);
    WindowIsDense(w, r.start, r.end, r.maxGap);
    var s := WindowStart(rows, e, r.start);
    forall i | 0 <= i < |rows|
      ensures rows[i] in w <==> r.start <= Settles(rows[i]) <= Settles(rows[e])
    {
      WindowIsInterval(rows, e, r.start, i);
      if s <= i <= e { assert w[i - s] == rows[i]; }
      if rows[i] in w {
        var j :| 0 <= j < |w| && w[j] == rows[i];
        assert rows[s + j] == rows[i];
      }
    }
  }

  // ----- the fallback run -----

  datatype Verified = Verified(
    windowMinutes: real, rewardLamports: nat, rounds: nat, first: int, last: int, isPartial: bool)

  predicate Usable(row: Row, observedAt: int) { Indexed(row) && Settles(row) <= observedAt }

  /** This many rounds cover the requested period. */
  predicate Reached(rounds: nat, q: Query) { rounds * q.cadence >= WindowSeconds(q.windowMinutes) }

  /** Rows lo..hi inclusive are the newest contiguous run, no longer than the target needs. */
  predicate IsRun(rows: seq<Row>, lo: nat, hi: nat, q: Query) {
    && lo <= hi < |rows|
    && (forall i :: hi < i < |rows| ==> !Usable(rows[i], q.observedAt))
    && (forall i :: lo <= i <= hi ==> Usable(rows[i], q.observedAt))
    && (forall i :: lo < i <= hi ==> Follows(rows[i - 1], rows[i], q.cadence + 5))
    && (lo < hi ==> !Reached(hi - lo, q))
  }

  /** The run stops because the rows do, the target is met, or the row before it breaks the chain. */
  predicate CannotExtend(rows: seq<Row>, lo: nat, hi: nat, q: Query)
    requires lo <= hi < |rows|
  {
    || lo == 0
    || Reached(hi - lo + 1, q)
    || !Usable(rows[lo - 1], q.observedAt)
    || !Follows(rows[lo - 1], rows[lo], q.cadence + 5)
  }

  /** The accepted rows, as the loop leaves them. `lo > hi` while none has been accepted. */
  ghost predicate Accepted(rows: seq<Row>, accepted: seq<Row>, lo: int, hi: int, q: Query) {
    if accepted == [] then hi == -1 else 0 <= lo && 0 <= hi && IsRun(rows, lo, hi, q) && accepted == rows[lo..hi + 1]
  }

  lemma StartRun(rows: seq<Row>, at: nat, q: Query)
    requires at < |rows| && Usable(rows[at], q.observedAt)
    requires forall i :: at < i < |rows| ==> !Usable(rows[i], q.observedAt)
    ensures IsRun(rows, at, at, q) && rows[at..at + 1] == [rows[at]]
  {
  }

  lemma ExtendRun(rows: seq<Row>, lo: nat, hi: nat, q: Query)
    requires IsRun(rows, lo, hi, q) && lo > 0
    requires Usable(rows[lo - 1], q.observedAt) && Follows(rows[lo - 1], rows[lo], q.cadence + 5)
    requires !Reached(hi - lo + 1, q)
    ensures IsRun(rows, lo - 1, hi, q) && rows[lo - 1..hi + 1] == [rows[lo - 1]] + rows[lo..hi + 1]
  {
  }

  /** The loop's state before it looks at a row: rows after `index` have been dealt with. */
  ghost predicate Walking(rows: seq<Row>, q: Query, accepted: seq<Row>, lo: int, hi: int, index: int,
                          expectedRoundId: Option<nat>, laterSettlesAt: Option<int>) {
    && -1 <= index < |rows|
    && Accepted(rows, accepted, lo, hi, q)
    && (accepted == [] ==> expectedRoundId.None? && laterSettlesAt.None?)
    && (accepted == [] ==> forall i :: index < i < |rows| ==> !Usable(rows[i], q.observedAt))
    && (accepted != [] ==> lo == index + 1 && !Reached(|accepted|, q))
    && (accepted != [] ==> expectedRoundId == Some(Id(rows[lo])) && laterSettlesAt == Some(Settles(rows[lo])))
  }

  /** Taking a usable row that continues the run, or starts it. */
  lemma TakeRow(rows: seq<Row>, q: Query, accepted: seq<Row>, lo: int, hi: int, index: int,
                expectedRoundId: Option<nat>, laterSettlesAt: Option<int>)
    requires Walking(rows, q, accepted, lo, hi, index, expectedRoundId, laterSettlesAt)
    requires index >= 0 && Usable(rows[index], q.observedAt)
    requires expectedRoundId.Some? ==> Id(rows[index]) + 1 == expectedRoundId.value
    requires laterSettlesAt.Some? ==> 0 < laterSettlesAt.value - Settles(rows[index]) <= q.cadence + 5
    ensures var top := if accepted == [] then index else hi;
      && Accepted(rows, [rows[index]] + accepted, index, top, q)
      && |[rows[index]] + accepted| == top - index + 1
  {
    if accepted == [] {
      StartRun(rows, index, q);
      assert [rows[index]] + accepted == [rows[index]];
    } else {
      ExtendRun(rows, lo, hi, q);
    }
  }

  /** The loop of `selectLatestVerifiedStakingRewardWindow`; rows are pushed newest first and reversed at
      the end, here kept in final order. */
  method NewestRun(rows: seq<Row>, q: Query) returns (accepted: seq<Row>, lo: int, hi: int)
    requires Answerable(q, |rows|)
    ensures Accepted(rows, accepted, lo, hi, q)
    ensures accepted == [] ==> forall i :: 0 <= i < |rows| ==> !Usable(rows[i], q.observedAt)
    ensures accepted != [] ==> CannotExtend(rows, lo, hi, q)
  {
    accepted, lo, hi := [], 0, -1;
    var expectedRoundId: Option<nat> := None;
    var laterSettlesAt: Option<int> := None;
    var index := |rows| - 1;
    while index >= 0
      invariant Walking(rows, q, accepted, lo, hi, index, expectedRoundId, laterSettlesAt)
    {
      var row := rows[index];
      if !Usable(row, q.observedAt) {
        if accepted != [] { return; }
        index := index - 1;
        continue;
      }
      if expectedRoundId.Some? && Id(row) + 1 != expectedRoundId.value { return; }
      if laterSettlesAt.Some? && !(0 < laterSettlesAt.value - Settles(row) <= q.cadence + 5) { return; }
      TakeRow(rows, q, accepted, lo, hi, index, expectedRoundId, laterSettlesAt);
      if accepted == [] { hi := index; }
      accepted, lo := [row] + accepted, index;
      expectedRoundId, laterSettlesAt := Some(Id(row)), Some(Settles(row));
      if Reached(|accepted|, q) { return; }
      index := index - 1;
    }
  }

  function EffectiveSeconds(rounds: nat, q: Query): int {
    if WindowSeconds(q.windowMinutes) < rounds * q.cadence then WindowSeconds(q.windowMinutes) else rounds * q.cadence
  }

  /** A run has consecutive ids. */
  lemma {:induction false} RunIsConsecutive(rows: seq<Row>, lo: nat, hi: nat, q: Query, i: nat)
    requires IsRun(rows, lo, hi, q) && lo <= i <= hi
    ensures Id(rows[i]) == Id(rows[lo]) + (i - lo)
    decreases i - lo
  {
    if i > lo { RunIsConsecutive(rows, lo, hi, q, i - 1); }
  }

  /** What the fallback reports about its run. */
  ghost predicate ReportsRun(v: Verified, rows: seq<Row>, lo: int, hi: int, q: Query) {
    && 0 <= lo <= hi && IsRun(rows, lo, hi, q) && CannotExtend(rows, lo, hi, q)
    && (forall i :: lo <= i <= hi ==> Id(rows[i]) == Id(rows[lo]) + (i - lo))
    && v.rounds == hi - lo + 1
    && v.rewardLamports == RewardSum(rows[lo..hi + 1])
    && v.first == Settles(rows[lo]) && v.last == Settles(rows[hi])
    && v.windowMinutes == EffectiveSeconds(hi - lo + 1, q) as real / 60.0
    && v.isPartial == (v.windowMinutes < q.windowMinutes)
    && HonestLength(v.windowMinutes, (hi - lo + 1) * q.cadence, q.windowMinutes)
  }

  /** The reported length is that of the rounds observed, cut at the period asked for. */
  ghost predicate HonestLength(reported: real, observedSeconds: int, windowMinutes: real) {
    && (observedSeconds as real <= 60.0 * windowMinutes + 0.5 ==> 60.0 * reported == observedSeconds as real)
    && (observedSeconds as real > 60.0 * windowMinutes + 0.5 ==>
          60.0 * windowMinutes - 0.5 < 60.0 * reported <= 60.0 * windowMinutes + 0.5)
  }

  ghost predicate NoRun(rows: seq<Row>, lo: int, hi: int, q: Query, minimum: int) {
    || (forall i :: 0 <= i < |rows| ==> !Usable(rows[i], q.observedAt))
    || (0 <= lo <= hi && IsRun(rows, lo, hi, q) && CannotExtend(rows, lo, hi, q) && hi - lo + 1 < minimum)
  }

  method SelectFallback(rows: seq<Row>, q: Query, minimumFallbackRounds: int)
    returns (out: Option<Verified>, lo: int, hi: int)
    requires Answerable(q, |rows|) && minimumFallbackRounds >= 1
    ensures out.Some? ==> ReportsRun(out.value, rows, lo, hi, q) && out.value.rounds >= minimumFallbackRounds
    ensures out.None? ==> NoRun(rows, lo, hi, q, minimumFallbackRounds)
  {
    var accepted;
    accepted, lo, hi := NewestRun(rows, q);
    if |accepted| < minimumFallbackRounds { return None, lo, hi; }
    forall i | lo <= i <= hi ensures Id(rows[i]) == Id(rows[lo]) + (i - lo) { RunIsConsecutive(rows, lo, hi, q, i); }
    var minutes := EffectiveSeconds(|accepted|, q) as real / 60.0;
    SecondsPerMinute(q.windowMinutes, |accepted| * q.cadence);
    out := Some(Verified(minutes, RewardSum(accepted), |accepted|,
                         Settles(accepted[0]), Settles(accepted[|accepted| - 1]), minutes < q.windowMinutes));
  }

  /** `selectLatestVerifiedStakingRewardWindow`; hi is the end row, lo the first row of a fallback run. */
  method SelectVerified(rows: seq<Row>, q: Query, minimumFallbackRounds: int)
    returns (out: Option<Verified>, lo: int, hi: int)
    ensures !Answerable(q, |rows|) ==> out.None?
    // an exact window wins
    ensures (Answerable(q, |rows|) && exists i :: 0 <= i < |rows| && CompleteAt(rows, i, q)) ==>
      && out.Some? && 0 <= hi && Newest(rows, hi, q) && !out.value.isPartial
      && out.value.rewardLamports == RewardSum(WindowAt(rows, hi, q))
      && out.value.rounds == |WindowAt(rows, hi, q)|
      && out.value.first == Settles(WindowAt(rows, hi, q)[0]) && out.value.last == Settles(rows[hi])
      && out.value.windowMinutes == q.windowMinutes
    // otherwise the newest contiguous run
    ensures (out.Some? && forall i :: 0 <= i < |rows| ==> !CompleteAt(rows, i, q)) ==>
      ReportsRun(out.value, rows, lo, hi, q) && out.value.rounds >= minimumFallbackRounds >= 1
    // and nothing only when there is no such run or it is too short
    ensures (out.None? && Answerable(q, |rows|) && IsSafe(minimumFallbackRounds) && minimumFallbackRounds >= 1) ==>
      NoRun(rows, lo, hi, q, minimumFallbackRounds)
  {
    lo, hi := 0, -1;
    var exact, e := SelectComplete(rows, q);
    if exact.Some? {
      var w := WindowAt(rows, e, q);
      return Some(Verified(exact.value.windowMinutes, exact.value.rewardLamports, exact.value.rounds,
                           Settles(w[0]), Settles(rows[e]), false)), lo, e;
    }
    if !Answerable(q, |rows|) || !IsSafe(minimumFallbackRounds) || minimumFallbackRounds < 1 { return None, lo, hi; }
    out, lo, hi := SelectFallback(rows, q, minimumFallbackRounds);
  }

  /** There is only one such run: the end is the last usable row, the start where it must stop. */
  lemma RunIsUnique(rows: seq<Row>, lo: nat, hi: nat, lo': nat, hi': nat, q: Query)
    requires q.cadence > 0
    requires IsRun(rows, lo, hi, q) && CannotExtend(rows, lo, hi, q)
    requires IsRun(rows, lo', hi', q) && CannotExtend(rows, lo', hi', q)
    ensures lo == lo' && hi == hi'
  {
    assert Usable(rows[hi], q.observedAt) && Usable(rows[hi'], q.observedAt);
    if lo < lo' {
      ShorterRunExtends(rows, lo, lo', hi, q);
    } else if lo' < lo {
      ShorterRunExtends(rows, lo', lo, hi, q);
    }
  }

  lemma ShorterRunExtends(rows: seq<Row>, lo: nat, lo': nat, hi: nat, q: Query)
    requires q.cadence > 0 && IsRun(rows, lo, hi, q) && lo < lo' <= hi
    ensures !CannotExtend(rows, lo', hi, q)
  {
    assert (hi - lo' + 1) * q.cadence <= (hi - lo) * q.cadence;
    assert Usable(rows[lo' - 1], q.observedAt) && Follows(rows[lo' - 1], rows[lo'], q.cadence + 5);
  }

  // ----- the same, read off the rows -----

  /** What the accessors mean on the rows they are used for. */
  lemma {:induction false} RowSays(row: Row)
    requires Indexed(row)
    ensures row.resolved && row.roundId == Some(Id(row)) && row.reward == Some(Reward(row))
    ensures row.settlesAt == Num(Settles(row) as real)
    ensures -9007199254740991 <= Settles(row) <= 9007199254740991
    ensures RewardSum([row]) == row.reward.value
  {
    assert [row][..0] == [];
  }

  lemma {:induction false} RewardSumAppend(a: seq<Row>, b: seq<Row>)
    ensures RewardSum(a + b) == RewardSum(a) + RewardSum(b)
  {
    if b == [] {
      assert a + b == a;
    } else {
      assert (a + b)[..|a + b| - 1] == a + b[..|b| - 1];
      RewardSumAppend(a, b[..|b| - 1]);
    }
  }

  /** A settled row with a fee, an id and a whole settlement time. */
  predicate Sound(row: Row) {
    && row.resolved && row.roundId.Some? && row.reward.Some? && row.settlesAt.Num?
    && row.settlesAt.v == row.settlesAt.v.Floor as real
    && -9007199254740991.0 <= row.settlesAt.v <= 9007199254740991.0
  }

  /** The next round, settled within the cadence and five seconds. */
  predicate Next(a: Row, b: Row, cadence: int) {
    && a.roundId.Some? && b.roundId.Some? && b.roundId.value == a.roundId.value + 1
    && a.settlesAt.Num? && b.settlesAt.Num?
    && 0.0 < b.settlesAt.v - a.settlesAt.v <= (cadence + 5) as real
  }

  lemma {:induction false} LinkSays(a: Row, b: Row, cadence: int)
    ensures Indexed(a) <==> Sound(a)
    ensures Sound(a) && Sound(b) ==> (Follows(a, b, cadence + 5) <==> Next(a, b, cadence))
  {
  }

  predicate Safe(x: int) { -9007199254740991 <= x <= 9007199254740991 }

  /** A request that can be answered at all. */
  predicate Reasonable(q: Request, count: nat) {
    && 1 <= count && count + 1 <= q.maxRows
    && q.windowMinutes > 0.0 && q.cadence >= 1 && q.maxStaleness >= 1 && q.maxGap >= 1
    && Safe(q.maxRows) && Safe(q.start) && Safe(q.end) && Safe(q.cadence) && Safe(q.observedAt)
    && Safe(q.watermark) && Safe(q.maxStaleness) && Safe(q.maxGap)
    && 0 <= q.start && q.start + 1 <= q.end == q.watermark <= q.observedAt <= q.end + q.maxStaleness
  }

  /** Sound rows, one round after the other from the beginning of the period to its end. */
  ghost predicate Unbroken(rows: seq<Row>, q: Request) {
    && rows != [] && (forall i :: 0 <= i < |rows| ==> Sound(rows[i]))
    && (forall i :: 0 <= i < |rows| ==> q.start as real <= rows[i].settlesAt.v <= q.end as real)
    && (forall i :: 0 < i < |rows| ==> rows[i].roundId.value == rows[i - 1].roundId.value + 1)
    && (forall i :: 0 < i < |rows| ==> 0.0 < rows[i].settlesAt.v - rows[i - 1].settlesAt.v <= q.maxGap as real)
    && rows[|rows| - 1].settlesAt.v == q.end as real
    && rows[0].settlesAt.v < (q.start + q.maxGap) as real
  }

  /** The validator accepts exactly reasonable requests over unbroken rows. */
  lemma {:induction false} SummaryIff(rows: seq<Row>, q: Request)
    ensures Admissible(q, |rows|) <==> Reasonable(q, |rows|)
    ensures Covers(rows, q.start, q.end, q.maxGap) <==> Unbroken(rows, q)
  {
    forall i | 0 <= i < |rows| ensures Indexed(rows[i]) <==> Sound(rows[i]) { LinkSays(rows[i], rows[i], 0); }
  }

  /** Settled no earlier than `m` minutes before row `last`, to the nearest second. */
  predicate Within(row: Row, last: Row, m: real) {
    row.settlesAt.Num? && last.settlesAt.Num?
    && (last.settlesAt.v.Floor - row.settlesAt.v.Floor) as real <= 60.0 * m + 0.5
  }

  /**
   * Rows lo..e are a full window of `m` minutes ending at row e: all sound, each the next of the one before,
   * all within the period, the row before them not, and the first close enough to its beginning.
   */
  ghost predicate FullWindow(rows: seq<Row>, lo: nat, e: nat, m: real, cadence: int) {
    && lo <= e < |rows|
    && (forall i :: lo <= i <= e ==> Sound(rows[i]) && Within(rows[i], rows[e], m))
    && (forall i :: lo < i <= e ==> Next(rows[i - 1], rows[i], cadence))
    && (lo > 0 ==> !Within(rows[lo - 1], rows[e], m))
    && (rows[e].settlesAt.v.Floor - rows[lo].settlesAt.v.Floor + cadence + 5) as real > 60.0 * m + 0.5
  }

  /** What is asked for makes sense: a period of at least a second that began after time zero, a row limit
      not reached, and an end row already settled. */
  ghost predicate Sensible(rows: seq<Row>, lo: nat, e: nat, q: Query)
    requires lo <= e < |rows| && rows[e].settlesAt.Num?
  {
    && e - lo + 1 < q.maxRows <= 9007199254740991
    && q.windowMinutes > 0.0 && 60.0 * q.windowMinutes >= 0.5
    && rows[e].settlesAt.v.Floor as real > 60.0 * q.windowMinutes - 0.5
    && 0 < q.cadence && q.cadence + 5 <= 9007199254740991
    && rows[e].settlesAt.v.Floor <= q.observedAt <= 9007199254740991
  }

  lemma {:induction false} WindowStartUnique(rows: seq<Row>, lo: nat, e: nat, start: int)
    requires lo <= e < |rows| && (forall i :: lo <= i < e ==> NotBefore(rows[i], start))
    requires lo > 0 ==> !NotBefore(rows[lo - 1], start)
    ensures WindowStart(rows, e, start) == lo
  {
  }

  lemma {:induction false} WithinSays(row: Row, last: Row, m: real)
    requires Sound(last)
    ensures Within(row, last, m) <==> NotBefore(row, Settles(last) - WindowSeconds(m))
  {
    if row.settlesAt.Num? {
      var start := Settles(last) - WindowSeconds(m);
      SecondsPerMinute(m, Settles(last) - row.settlesAt.v.Floor);
      assert row.settlesAt.v >= start as real <==> row.settlesAt.v.Floor >= start;
    }
  }

  lemma {:induction false} SensibleSays(rows: seq<Row>, lo: nat, e: nat, q: Query)
    requires lo <= e < |rows| && Sound(rows[e])
    ensures Sensible(rows, lo, e, q) <==>
      Settles(rows[e]) <= q.observedAt && Admissible(RequestAt(rows, e, q), e - lo + 1)
  {
    SecondsPerMinute(q.windowMinutes, Settles(rows[e]));
    SecondsPerMinute(q.windowMinutes, 1);
  }

  lemma {:induction false} CoversSays(rows: seq<Row>, lo: nat, e: nat, q: Query)
    requires lo <= e < |rows| && Sound(rows[e])
    ensures var r := RequestAt(rows, e, q);
      FullWindow(rows, lo, e, q.windowMinutes, q.cadence) <==>
        WindowStart(rows, e, r.start) == lo && Covers(rows[lo..e + 1], r.start, r.end, r.maxGap)
  {
    var r, w := RequestAt(rows, e, q), rows[lo..e + 1];
    forall i | lo <= i <= e
      ensures w[i - lo] == rows[i]
      ensures Indexed(rows[i]) <==> Sound(rows[i])
      ensures Within(rows[i], rows[e], q.windowMinutes) <==> NotBefore(rows[i], r.start)
    {
      LinkSays(rows[i], rows[i], q.cadence);
      WithinSays(rows[i], rows[e], q.windowMinutes);
    }
    if lo > 0 { WithinSays(rows[lo - 1], rows[e], q.windowMinutes); }
    SecondsPerMinute(q.windowMinutes, Settles(rows[e]) - Settles(rows[lo]) + q.cadence + 5);
    if FullWindow(rows, lo, e, q.windowMinutes, q.cadence) {
      WindowStartUnique(rows, lo, e, r.start);
      FullCovers(rows, lo, e, q);
    }
    if WindowStart(rows, e, r.start) == lo && Covers(w, r.start, r.end, r.maxGap) { CoversFull(rows, lo, e, q); }
  }

  lemma {:induction false} FullCovers(rows: seq<Row>, lo: nat, e: nat, q: Query)
    requires FullWindow(rows, lo, e, q.windowMinutes, q.cadence)
    ensures var r := RequestAt(rows, e, q); Covers(rows[lo..e + 1], r.start, r.end, r.maxGap)
  {
    var r, w := RequestAt(rows, e, q), rows[lo..e + 1];
    LaterNext(rows, lo, e, q);
    forall k | 0 <= k < |w| ensures Indexed(w[k]) && r.start <= Settles(w[k]) <= r.end {
      assert w[k] == rows[lo + k];
      LinkSays(rows[lo + k], rows[lo + k], q.cadence);
      WithinSays(rows[lo + k], rows[e], q.windowMinutes);
    }
    forall k | 0 < k < |w| ensures Follows(w[k - 1], w[k], r.maxGap) {
      assert w[k] == rows[lo + k] && w[k - 1] == rows[lo + k - 1];
      LinkSays(rows[lo + k - 1], rows[lo + k], q.cadence);
    }
    SecondsPerMinute(q.windowMinutes, Settles(rows[e]) - Settles(rows[lo]) + q.cadence + 5);
  }

  lemma {:induction false} LaterNext(rows: seq<Row>, lo: nat, e: nat, q: Query)
    requires lo <= e < |rows| && (forall i :: lo <= i <= e ==> Sound(rows[i]))
    requires forall i :: lo < i <= e ==> Next(rows[i - 1], rows[i], q.cadence)
    ensures forall i :: lo <= i <= e ==> Settles(rows[i]) <= Settles(rows[e])
    decreases e - lo
  {
    if lo < e {
      LaterNext(rows, lo + 1, e, q);
      assert Next(rows[lo], rows[lo + 1], q.cadence);
    }
  }

  lemma {:induction false} CoversFull(rows: seq<Row>, lo: nat, e: nat, q: Query)
    requires lo <= e < |rows| && Sound(rows[e])
    requires var r := RequestAt(rows, e, q);
      WindowStart(rows, e, r.start) == lo && Covers(rows[lo..e + 1], r.start, r.end, r.maxGap)
    ensures FullWindow(rows, lo, e, q.windowMinutes, q.cadence)
  {
    var r, w := RequestAt(rows, e, q), rows[lo..e + 1];
    forall i | lo <= i <= e ensures Sound(rows[i]) && Within(rows[i], rows[e], q.windowMinutes) {
      assert w[i - lo] == rows[i];
      LinkSays(rows[i], rows[i], q.cadence);
      WithinSays(rows[i], rows[e], q.windowMinutes);
    }
    forall i | lo < i <= e ensures Next(rows[i - 1], rows[i], q.cadence) {
      assert w[i - lo] == rows[i] && w[i - lo - 1] == rows[i - 1];
      assert Follows(w[i - lo - 1], w[i - lo], r.maxGap);
      LinkSays(rows[i - 1], rows[i], q.cadence);
    }
    if lo > 0 { WithinSays(rows[lo - 1], rows[e], q.windowMinutes); }
    SecondsPerMinute(q.windowMinutes, Settles(rows[e]) - Settles(rows[lo]) + q.cadence + 5);
  }

  /** The window ending at a row validates exactly when the rows of the last so many minutes are full. */
  lemma {:induction false} CompleteAtIff(rows: seq<Row>, e: nat, q: Query)
    requires e < |rows|
    ensures CompleteAt(rows, e, q) <==>
      exists lo :: FullWindow(rows, lo, e, q.windowMinutes, q.cadence) && Sensible(rows, lo, e, q)
  {
    if Sound(rows[e]) {
      var lo := WindowStart(rows, e, RequestAt(rows, e, q).start);
      CoversSays(rows, lo, e, q);
      SensibleSays(rows, lo, e, q);
      if other: nat :| FullWindow(rows, other, e, q.windowMinutes, q.cadence) && Sensible(rows, other, e, q) {
        CoversSays(rows, other, e, q);
      }
    } else {
      LinkSays(rows[e], rows[e], q.cadence);
      if CompleteAt(rows, e, q) { LastOfWindow(rows, e, q); }
    }
  }

  lemma {:induction false} LastOfWindow(rows: seq<Row>, e: nat, q: Query)
    requires e < |rows| && CompleteAt(rows, e, q)
    ensures Indexed(rows[e])
  {
    var w := WindowAt(rows, e, q);
    assert w[|w| - 1] == rows[e];
  }

  predicate Seen(row: Row, observedAt: int) { Sound(row) && row.settlesAt.v <= observedAt as real }

  /** The newest contiguous run of sound rows, no longer than the period needs and as long as it can be. */
  ghost predicate LongestRun(rows: seq<Row>, lo: nat, hi: nat, q: Query) {
    && lo <= hi < |rows|
    && (forall i :: hi < i < |rows| ==> !Seen(rows[i], q.observedAt))
    && (forall i :: lo <= i <= hi ==> Seen(rows[i], q.observedAt))
    && (forall i :: lo < i <= hi ==> Next(rows[i - 1], rows[i], q.cadence))
    && (lo < hi ==> ((hi - lo) * q.cadence) as real <= 60.0 * q.windowMinutes - 0.5)
    && (|| lo == 0 || ((hi - lo + 1) * q.cadence) as real > 60.0 * q.windowMinutes - 0.5
        || !Seen(rows[lo - 1], q.observedAt) || !Next(rows[lo - 1], rows[lo], q.cadence))
  }

  lemma {:induction false} SeenSays(row: Row, observedAt: int)
    ensures Seen(row, observedAt) <==> Usable(row, observedAt)
  {
  }

  lemma {:induction false} RunIff(rows: seq<Row>, lo: nat, hi: nat, q: Query)
    ensures IsRun(rows, lo, hi, q) && CannotExtend(rows, lo, hi, q) <==> LongestRun(rows, lo, hi, q)
  {
    forall i | 0 <= i < |rows| ensures Seen(rows[i], q.observedAt) <==> Usable(rows[i], q.observedAt) {
      SeenSays(rows[i], q.observedAt);
    }
    forall i | 0 < i < |rows| && Seen(rows[i - 1], q.observedAt) && Seen(rows[i], q.observedAt)
      ensures Follows(rows[i - 1], rows[i], q.cadence + 5) <==> Next(rows[i - 1], rows[i], q.cadence)
    {
      LinkSays(rows[i - 1], rows[i], q.cadence);
    }
    SecondsPerMinute(q.windowMinutes, (hi - lo) * q.cadence);
    SecondsPerMinute(q.windowMinutes, (hi - lo + 1) * q.cadence);
  }
}
