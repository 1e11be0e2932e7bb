/** Finite sums over sequences: the common currency of every ledger statement. */
module Sums {

  /** The source's `reduce((sum, x) => sum + f(x), 0n)`. */
  function Sum<T>(f: T -> int, s: seq<T>): int {
    if s == [] then 0 else Sum(f, s[..|s| - 1]) + f(s[|s| - 1])
  }

  /** `f` counted only for the elements whose key is `k`. */
  function Only<T, K(==)>(f: T -> int, key: T -> K, k: K): T -> int {
    (x: T) => if key(x) == k then f(x) else 0
  }

  lemma {:induction false} SumAppend<T>(f: T -> int, a: seq<T>, b: seq<T>)
    ensures Sum(f, a + b) == Sum(f, a) + Sum(f, b)
  {
    if b == [] {
      assert a + b == a;
    } else {
      var n := |a + b| - 1;
      assert (a + b)[..n] == a + b[..|b| - 1];
      SumAppend(f, a, b[..|b| - 1]);
    }
  }

  lemma {:induction false} SumExtensional<T>(f: T -> int, g: T -> int, s: seq<T>)
    requires forall x :: x in s ==> f(x) == g(x)
    ensures Sum(f, s) == Sum(g, s)
  {
    if s != [] {
      SumExtensional(f, g, s[..|s| - 1]);
    }
  }

  lemma {:induction false} SumAdd<T>(f: T -> int, g: T -> int, h: T -> int, s: seq<T>)
    requires forall x :: x in s ==> h(x) == f(x) + g(x)
    ensures Sum(h, s) == Sum(f, s) + Sum(g, s)
  {
    if s != [] {
      SumAdd(f, g, h, s[..|s| - 1]);
    }
  }

  lemma {:induction false} SumZero<T>(f: T -> int, s: seq<T>)
    requires forall x :: x in s ==> f(x) == 0
    ensures Sum(f, s) == 0
  {
    if s != [] {
      SumZero(f, s[..|s| - 1]);
    }
  }

  lemma {:induction false} SumMonotone<T>(f: T -> int, g: T -> int, s: seq<T>)
    requires forall x :: x in s ==> f(x) <= g(x)
    ensures Sum(f, s) <= Sum(g, s)
  {
    if s != [] {
      SumMonotone(f, g, s[..|s| - 1]);
    }
  }

  /** Pulling one element out of the middle. */
  lemma SumRemove<T>(f: T -> int, s: seq<T>, i: nat)
    requires i < |s|
    ensures Sum(f, s) == Sum(f, s[..i] + s[i + 1..]) + f(s[i])
  {
    assert s == s[..i] + ([s[i]] + s[i + 1..]);
    SumAppend(f, s[..i], [s[i]] + s[i + 1..]);
    SumAppend(f, [s[i]], s[i + 1..]);
    SumAppend(f, s[..i], s[i + 1..]);
    assert [s[i]][..0] == [];
  }

  lemma MultisetRemove<T>(s: seq<T>, i: nat)
    requires i < |s|
    ensures multiset(s) == multiset(s[..i] + s[i + 1..]) + multiset{s[i]}
  {
    assert s == s[..i] + [s[i]] + s[i + 1..];
  }

  lemma MultisetCancel<T>(a: multiset<T>, b: multiset<T>, x: T)
    requires a + multiset{x} == b + multiset{x}
    ensures a == b
  {
    assert a == a + multiset{x} - multiset{x};
    assert b == b + multiset{x} - multiset{x};
  }

  /** Order never matters: account scans return receipts in no particular order. */
  lemma {:induction false} SumPermutation<T>(f: T -> int, s: seq<T>, t: seq<T>)
    requires multiset(s) == multiset(t)
    ensures Sum(f, s) == Sum(f, t)
    decreases |s|
  {
    if s == [] {
      assert |multiset(t)| == 0;
    } else {
      var n, x := |s| - 1, s[|s| - 1];
      assert x in multiset(s);
      var i :| 0 <= i < |t| && t[i] == x;
      var rest := t[..i] + t[i + 1..];
      MultisetRemove(s, n);
      MultisetRemove(t, i);
      assert s[..n] + s[n + 1..] == s[..n];
      MultisetCancel(multiset(s[..n]), multiset(rest), x);
      SumPermutation(f, s[..n], rest);
      SumRemove(f, t, i);
    }
  }

  predicate Distinct<T(==)>(s: seq<T>) {
    forall i, j :: 0 <= i < j < |s| ==> s[i] != s[j]
  }

  /** A function that vanishes at every other key contributes once. */
  lemma {:induction false} DistinctPick<K>(g: K -> int, ks: seq<K>, k: K)
    requires Distinct(ks) && k in ks
    requires forall j :: j in ks && j != k ==> g(j) == 0
    ensures Sum(g, ks) == g(k)
  {
    var rest := ks[..|ks| - 1];
    if ks[|ks| - 1] == k {
      SumZero(g, rest);
    } else {
      DistinctPick(g, rest, k);
    }
  }

  /** Regrouping: summing group by group over distinct keys is summing once. */
  lemma {:induction false} SumByGroup<T, K>(f: T -> int, key: T -> K, s: seq<T>, ks: seq<K>, g: K -> int)
    requires Distinct(ks)
    requires forall x :: x in s ==> key(x) in ks
    requires forall k :: k in ks ==> g(k) == Sum(Only(f, key, k), s)
    ensures Sum(g, ks) == Sum(f, s)
  {
    if s == [] {
      SumZero(g, ks);
    } else {
      var rest, x := s[..|s| - 1], s[|s| - 1];
      var g0 := (k: K) => Sum(Only(f, key, k), rest);
      var g1 := (k: K) => Only(f, key, k)(x);
      SumByGroup(f, key, rest, ks, g0);
      SumAdd(g0, g1, g, ks);
      DistinctPick(g1, ks, key(x));
      assert Sum(g1, ks) == g1(key(x)) == f(x);
    }
  }

  /** Sequences without repetition and with the same members are permutations of each other. */
  lemma SameMembersSameMultiset<T>(s: seq<T>, t: seq<T>)
    requires Distinct(s) && Distinct(t)
    requires forall x :: x in s <==> x in t
    ensures multiset(s) == multiset(t)
  {
    forall x ensures multiset(s)[x] == multiset(t)[x] {
      DistinctCount(s, x);
      DistinctCount(t, x);
    }
  }

  lemma {:induction false} DistinctCount<T>(s: seq<T>, x: T)
    requires Distinct(s)
    ensures multiset(s)[x] == if x in s then 1 else 0
  {
    if s != [] {
      assert s == s[..|s| - 1] + [s[|s| - 1]];
      DistinctCount(s[..|s| - 1], x);
    }
  }
}
