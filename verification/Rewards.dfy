/** Frontend/src/chain/round-rewards.js: integer allocation of a pool over a tile or a round. */
module RoundRewards {
  import opened Sums

  /** Rounded-down pro-rata share, shown for a winning stake. */
  function SettledSolReward(prize: nat, stake: int, total: int): (r: nat)
  {
    if stake > 0 && total > 0 then Floor(prize, stake, total) else 0
  }

  /** Allocation by cumulative interval: the floor at the interval's end less the floor at its start. */
  function IntervalReward(pool: int, start: int, amount: int, denominator: int): (r: nat)
  {
    if pool <= 0 || amount <= 0 || denominator <= 0 || start < 0 || start + amount > denominator then 0
    else
      FloorMonotone(pool, start, start + amount, denominator);
      Floor(pool, start + amount, denominator) - Floor(pool, start, denominator)
  }

  function Floor(pool: nat, x: nat, total: nat): (r: nat)
    requires total > 0
  {
    pool * x / total
  }

  lemma FloorMonotone(pool: nat, x: nat, y: nat, total: nat)
    requires total > 0 && x <= y
    ensures Floor(pool, x, total) <= Floor(pool, y, total)
  {
    assert pool * x <= pool * y;
    DivMonotone(pool * x, pool * y, total);
  }

  lemma DivMonotone(a: nat, b: nat, d: nat)
    requires d > 0 && a <= b
    ensures a / d <= b / d
  {
    ScaledBound(a / d, b / d + 1, d);
  }

  /** Floor is the integer quotient: it is bracketed by the exact product. */
  lemma FloorBracket(pool: nat, x: nat, total: nat)
    requires total > 0
    ensures total * Floor(pool, x, total) <= pool * x < total * Floor(pool, x, total) + total
  {
  }

  lemma FloorWhole(pool: nat, total: nat)
    requires total > 0
    ensures Floor(pool, total, total) == pool && Floor(pool, 0, total) == 0
  {
    FloorBracket(pool, total, total);
    var q := Floor(pool, total, total);
    ScaledBound(q, pool + 1, total);
    ScaledBound(pool, q + 1, total);
  }

  /** Cancelling a positive factor. */
  lemma ScaledBound(a: int, b: int, factor: nat)
    requires factor > 0 && factor * a < factor * b
    ensures a < b
  {
  }

  lemma Distribute(a: int, b: int, c: int)
    ensures a * (b + c) == a * b + a * c
  {
  }

  // ----- allocation over many positions -----

  /** The interval reward of a position, as a function to sum. */
  function Share<T>(pool: int, start: T -> int, size: T -> int, total: int): T -> int {
    (x: T) => IntervalReward(pool, start(x), size(x), total)
  }

  /** Positions laid end to end: each starts where the ones before it stop. */
  ghost predicate Chained<T>(start: T -> int, size: T -> int, s: seq<T>) {
    forall i :: 0 <= i < |s| ==> size(s[i]) >= 0 && start(s[i]) == Sum(size, s[..i])
  }

  lemma ChainedPrefix<T>(start: T -> int, size: T -> int, s: seq<T>, n: nat)
    requires Chained(start, size, s) && n <= |s|
    ensures Chained(start, size, s[..n])
  {
    forall i | 0 <= i < n ensures size(s[..n][i]) >= 0 && start(s[..n][i]) == Sum(size, s[..n][..i]) {
      assert s[..n][..i] == s[..i];
    }
  }

  lemma {:induction false} ChainedSumNonNegative<T>(start: T -> int, size: T -> int, s: seq<T>)
    requires Chained(start, size, s)
    ensures Sum(size, s) >= 0
  {
    if s != [] {
      ChainedPrefix(start, size, s, |s| - 1);
      ChainedSumNonNegative(start, size, s[..|s| - 1]);
    }
  }

  lemma IntervalStep(pool: nat, start: nat, amount: nat, total: nat)
    requires total > 0 && start + amount <= total
    ensures Floor(pool, start, total) + IntervalReward(pool, start, amount, total) == Floor(pool, start + amount, total)
  {
    if pool == 0 { assert pool * start == pool * (start + amount) == 0; }
  }

  /** Telescoping floors: a chain of intervals receives the floor of its joint end, no dust lost. */
  lemma {:induction false} IntervalsTelescope<T>(pool: nat, start: T -> int, size: T -> int, total: nat, s: seq<T>)
    requires total > 0
    requires Chained(start, size, s)
    requires 0 <= Sum(size, s) <= total
    ensures Sum(Share(pool, start, size, total), s) == Floor(pool, Sum(size, s), total)
  {
    if s == [] {
      FloorWhole(pool, total);
    } else {
      var rest, x := s[..|s| - 1], s[|s| - 1];
      ChainedPrefix(start, size, s, |s| - 1);
      ChainedSumNonNegative(start, size, rest);
      IntervalsTelescope(pool, start, size, total, rest);
      IntervalStep(pool, Sum(size, rest), size(x), total);
    }
  }

  /** The whole pool, exactly, when the chain fills the denominator. */
  lemma IntervalsExhaustPool<T>(pool: nat, start: T -> int, size: T -> int, total: nat, s: seq<T>)
    requires Chained(start, size, s)
    requires Sum(size, s) == total
    ensures Sum(Share(pool, start, size, total), s) == if total > 0 then pool else 0
  {
    if total > 0 {
      IntervalsTelescope(pool, start, size, total, s);
      FloorWhole(pool, total);
    } else {
      SumZero(Share(pool, start, size, total), s);
    }
  }

  // ----- interval rewards against the pro-rata figure -----

  /** 1 for a position with a positive size: summed, it counts winning receipts. */
  function Winning<T>(size: T -> int): T -> int {
    (x: T) => if size(x) > 0 then 1 else 0
  }

  ghost predicate InRange<T>(start: T -> int, size: T -> int, total: int, s: seq<T>) {
    forall x :: x in s ==> start(x) >= 0 && size(x) >= 0 && start(x) + size(x) <= total
  }

  /** |total * r - p| < k * total, or equality when k is 0; here p is pool times size. */
  predicate Near(total: int, r: int, p: int, k: int) {
    if k == 0 then total * r == p else p - k * total < total * r < p + k * total
  }

  lemma NearDifference(total: int, hi: int, lo: int, pHi: int, pLo: int)
    requires total * hi <= pHi < total * hi + total
    requires total * lo <= pLo < total * lo + total
    ensures Near(total, hi - lo, pHi - pLo, 1)
  {
    Distribute(total, hi, -lo);
  }

  lemma NearAdd(total: int, r0: int, p0: int, k: nat, r: int, p: int)
    requires total > 0 && Near(total, r0, p0, k) && Near(total, r, p, 1)
    ensures Near(total, r0 + r, p0 + p, k + 1)
  {
    Distribute(total, r0, r);
    Distribute(total, k, 1);
  }

  lemma IntervalNearProportional(pool: nat, start: nat, amount: nat, total: nat)
    requires total > 0 && start + amount <= total && amount > 0
    ensures Near(total, IntervalReward(pool, start, amount, total), pool * amount, 1)
  {
    if pool > 0 {
      FloorBracket(pool, start + amount, total);
      FloorBracket(pool, start, total);
      NearDifference(total, Floor(pool, start + amount, total), Floor(pool, start, total),
                     pool * (start + amount), pool * start);
      Distribute(pool, start, amount);
    }
  }

  lemma {:induction false} IntervalSumNearProportional<T>(
    pool: nat, start: T -> int, size: T -> int, total: nat, s: seq<T>)
    requires total > 0 && InRange(start, size, total, s)
    ensures 0 <= Sum(Winning(size), s) && 0 <= Sum(size, s)
    ensures Sum(Winning(size), s) == 0 <==> Sum(size, s) == 0
    ensures Near(total, Sum(Share(pool, start, size, total), s), pool * Sum(size, s), Sum(Winning(size), s))
  {
    if s != [] {
      var rest, x := s[..|s| - 1], s[|s| - 1];
      IntervalSumNearProportional(pool, start, size, total, rest);
      if size(x) > 0 {
        IntervalNearProportional(pool, start(x), size(x), total);
        NearAdd(total, Sum(Share(pool, start, size, total), rest), pool * Sum(size, rest), Sum(Winning(size), rest),
                IntervalReward(pool, start(x), size(x), total), pool * size(x));
        Distribute(pool, Sum(size, rest), size(x));
      }
    }
  }

  /** From a scaled bracket back to whole lamports. */
  lemma NearFloor(total: nat, paid: int, shown: int, p: int, k: int)
    requires total > 0 && k > 0 && Near(total, paid, p, k)
    requires total * shown <= p < total * shown + total
    ensures -k < paid - shown <= k
  {
    Distribute(total, shown, k + 1);
    Distribute(total, k, 1);
    ScaledBound(paid, shown + k + 1, total);
    Distribute(total, shown, -k);
    ScaledBound(shown - k, paid, total);
  }

  /** A miner with k winning receipts is paid within k lamports of the pro-rata figure on display. */
  lemma MinerWithinReceiptCount<T>(pool: nat, start: T -> int, size: T -> int, total: nat, s: seq<T>)
    requires total > 0 && InRange(start, size, total, s)
    ensures
      var k := Sum(Winning(size), s);
      var paid := Sum(Share(pool, start, size, total), s);
      var shown := SettledSolReward(pool, Sum(size, s), total);
      if k == 0 then paid == shown == 0 else -k < paid - shown <= k
  {
    IntervalSumNearProportional(pool, start, size, total, s);
    var k, z := Sum(Winning(size), s), Sum(size, s);
    var paid := Sum(Share(pool, start, size, total), s);
    if k == 0 {
      ScaledBound(paid, 1, total);
      ScaledBound(-1, paid, total);
    } else {
      FloorBracket(pool, z, total);
      NearFloor(total, paid, Floor(pool, z, total), pool * z, k);
    }
  }

  /** Rounded-down pro-rata reward of a position, as a function to sum. */
  function ProRata<T>(pool: nat, size: T -> int, total: int): T -> int {
    (x: T) => SettledSolReward(pool, size(x), total)
  }

  lemma ProRataBracket(pool: nat, size: nat, total: nat)
    requires total > 0
    ensures var p := SettledSolReward(pool, size, total);
      total * p <= pool * size < total * p + total
  {
    if size > 0 { FloorBracket(pool, size, total); }
  }

  lemma {:induction false} ProRataSumBracket<T>(pool: nat, size: T -> int, total: nat, s: seq<T>)
    requires total > 0
    requires forall x :: x in s ==> size(x) >= 0
    ensures
      var paid := Sum(ProRata(pool, size, total), s);
      total * paid <= pool * Sum(size, s) <= total * paid + total * |s|
      && (s != [] ==> pool * Sum(size, s) < total * paid + total * |s|)
  {
    if s != [] {
      var rest, x := s[..|s| - 1], s[|s| - 1];
      ProRataSumBracket(pool, size, total, rest);
      ProRataBracket(pool, size(x), total);
      Distribute(total, Sum(ProRata(pool, size, total), rest), SettledSolReward(pool, size(x), total));
      Distribute(pool, Sum(size, rest), size(x));
      Distribute(total, |rest|, 1);
    }
  }

  /** Per-receipt rounding never overdraws the pool and strands fewer than n lamports. */
  lemma ProRataDustBound<T>(pool: nat, size: T -> int, total: nat, s: seq<T>)
    requires total > 0 && Sum(size, s) == total
    requires forall x :: x in s ==> size(x) >= 0
    ensures Sum(ProRata(pool, size, total), s) <= pool < Sum(ProRata(pool, size, total), s) + |s|
  {
    var paid := Sum(ProRata(pool, size, total), s);
    ProRataSumBracket(pool, size, total, s);
    Distribute(total, paid, |s|);
    ScaledBound(pool, paid + |s|, total);
    Distribute(total, pool, 1);
    ScaledBound(paid, pool + 1, total);
  }
}
