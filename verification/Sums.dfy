/** Sums over the rows of a table and over the entries of a log. */
module Sums {

  /** The sum of the values of a finite map. */
  ghost function Sum<K(!new)>(m: map<K, int>): int {
    if m == map[] then 0 else var k :| k in m; m[k] + Sum(m - {k})
  }

  ghost function At<K>(m: map<K, int>, k: K): int { if k in m then m[k] else 0 }

  lemma {:induction false} SumRemove<K(!new)>(m: map<K, int>, k: K)
    requires k in m
    ensures Sum(m) == m[k] + Sum(m - {k})
  {
    var p :| p in m && Sum(m) == m[p] + Sum(m - {p});
    if p != k {
      SumRemove(m - {p}, k);
      SumRemove(m - {k}, p);
      assert m - {p} - {k} == m - {k} - {p};
    }
  }

  lemma {:induction false} SumUpdate<K(!new)>(m: map<K, int>, k: K, x: int)
    ensures Sum(m[k := x]) == Sum(m) - At(m, k) + x
  {
    SumRemove(m[k := x], k);
    if k in m {
      SumRemove(m, k);
      assert m[k := x] - {k} == m - {k};
    } else {
      assert m[k := x] - {k} == m;
    }
  }

  /** A part of a map of non-negative values sums to at most the whole. */
  lemma {:induction false} SumOfPart<K(!new)>(part: map<K, int>, whole: map<K, int>)
    requires forall k :: k in part ==> k in whole && part[k] <= whole[k]
    requires forall k :: k in whole ==> whole[k] >= 0
    ensures Sum(part) <= Sum(whole)
  {
    if whole == map[] {
      assert part == map[];
    } else {
      var k :| k in whole;
      SumRemove(whole, k);
      if k in part {
        SumRemove(part, k);
        SumOfPart(part - {k}, whole - {k});
      } else {
        SumOfPart(part, whole - {k});
      }
    }
  }

  /** The total of `f` over a log. */
  function Total<T>(log: seq<T>, f: T -> int): int {
    if log == [] then 0 else Total(log[..|log| - 1], f) + f(log[|log| - 1])
  }

  lemma {:induction false} TotalAppend<T>(a: seq<T>, b: seq<T>, f: T -> int)
    ensures Total(a + b, f) == Total(a, f) + Total(b, f)
  {
    if b == [] {
      assert a + b == a;
    } else {
      assert (a + b)[..|a + b| - 1] == a + b[..|b| - 1];
      TotalAppend(a, b[..|b| - 1], f);
    }
  }

  lemma {:induction false} TotalShort<T>(log: seq<T>, f: T -> int)
    ensures |log| == 1 ==> Total(log, f) == f(log[0])
    ensures |log| == 2 ==> Total(log, f) == f(log[0]) + f(log[1])
    ensures |log| == 3 ==> Total(log, f) == f(log[0]) + f(log[1]) + f(log[2])
  {
    if 1 <= |log| <= 3 {
      TotalShort(log[..|log| - 1], f);
    }
  }

  lemma {:induction false} TotalSame<T>(log: seq<T>, f: T -> int, g: T -> int)
    requires forall i :: 0 <= i < |log| ==> f(log[i]) == g(log[i])
    ensures Total(log, f) == Total(log, g)
  {
    if log != [] {
      TotalSame(log[..|log| - 1], f, g);
    }
  }

  /** A total does not depend on the order of the entries. */
  lemma {:induction false} TotalOfAnyOrder<T>(a: seq<T>, b: seq<T>, f: T -> int)
    requires multiset(a) == multiset(b)
    ensures Total(a, f) == Total(b, f)
  {
    if a == [] {
      assert |multiset(b)| == 0;
    } else {
      var n := |a| - 1;
      assert a[n] in multiset(a);
      var i :| 0 <= i < |b| && b[i] == a[n];
      TakeOut(a, n);
      TakeOut(b, i);
      assert a[..n] + a[n + 1..] == a[..n];
      TotalOfAnyOrder(a[..n], b[..i] + b[i + 1..], f);
      TotalTakeOut(b, i, f);
    }
  }

  lemma TakeOut<T>(b: seq<T>, i: nat)
    requires i < |b|
    ensures multiset(b[..i] + b[i + 1..]) == multiset(b) - multiset{b[i]}
  {
    assert b == b[..i] + [b[i]] + b[i + 1..];
  }

  lemma {:induction false} TotalTakeOut<T>(b: seq<T>, i: nat, f: T -> int)
    requires i < |b|
    ensures Total(b, f) == Total(b[..i] + b[i + 1..], f) + f(b[i])
  {
    assert b == (b[..i] + [b[i]]) + b[i + 1..];
    TotalAppend(b[..i] + [b[i]], b[i + 1..], f);
    TotalAppend(b[..i], b[i + 1..], f);
    assert (b[..i] + [b[i]])[..i] == b[..i];
  }
}
