/**
 * `Series.rank(pct=True) * 100` (average ranks for ties) and the
 * `sort_values(..., ascending=False)` row order of the scorers.
 */
module Ranking {

  /** How many scores are strictly below `x`. */
  function CountLess(s: seq<real>, x: real): (c: nat)
    ensures c <= |s|
  {
    if s == [] then 0 else (if s[0] < x then 1 else 0) + CountLess(s[1..], x)
  }

  /** How many scores equal `x`. */
  function CountEq(s: seq<real>, x: real): (c: nat)
    ensures c <= |s|
  {
    if s == [] then 0 else (if s[0] == x then 1 else 0) + CountEq(s[1..], x)
  }

  /** The average rank of value `x`: the tied positions L+1 .. L+E averaged. */
  function AverageRank(s: seq<real>, x: real): real {
    CountLess(s, x) as real + (CountEq(s, x) as real + 1.0) / 2.0
  }

  /** `rank(pct=True) * 100`: the average rank divided by the count, as a percentage. */
  function Percentiles(s: seq<real>): (p: seq<real>)
    ensures |p| == |s|
  {
    seq(|s|, i requires 0 <= i < |s| => AverageRank(s, s[i]) / |s| as real * 100.0)
  }

  lemma {:induction false} CountLessPlusEq(s: seq<real>, x: real)
    ensures CountLess(s, x) + CountEq(s, x) <= |s|
  {
    if s != [] {
      CountLessPlusEq(s[1..], x);
    }
  }

  lemma {:induction false} CountEqOfMember(s: seq<real>, i: nat)
    requires i < |s|
    ensures CountEq(s, s[i]) >= 1
  {
    if i > 0 {
      assert s[1..][i - 1] == s[i];
      CountEqOfMember(s[1..], i - 1);
    }
  }

  /** Everything below or equal to `x` is below a larger `y`. */
  lemma {:induction false} CountLessGrows(s: seq<real>, x: real, y: real)
    requires x < y
    ensures CountLess(s, x) + CountEq(s, x) <= CountLess(s, y)
  {
    if s != [] {
      CountLessGrows(s[1..], x, y);
    }
  }

  lemma DivMonotone(a: real, b: real, n: real)
    requires n > 0.0 && a <= b
    ensures a / n <= b / n
    ensures a < b ==> a / n < b / n
  {
    assert b / n - a / n == (b - a) / n;
  }

  /** A positive value no larger than `n` is a fraction of `n` in (0, 1]. */
  lemma FractionInUnit(r: real, n: real)
    requires 0.0 < r <= n
    ensures 0.0 < r / n <= 1.0
  {
    DivMonotone(r, n, n);
    DivMonotone(0.0, r, n);
    assert n / n == 1.0 && 0.0 / n == 0.0;
  }

  /** Every percentile lies in (0, 100]. */
  lemma PercentileBounds(s: seq<real>, i: nat)
    requires i < |s|
    ensures 0.0 < Percentiles(s)[i] <= 100.0
  {
    CountLessPlusEq(s, s[i]);
    CountEqOfMember(s, i);
    var n := |s| as real;
    var r := AverageRank(s, s[i]);
    assert 0.0 < r <= n;
    FractionInUnit(r, n);
    assert Percentiles(s)[i] == r / n * 100.0;
  }

  /** Equal scores share a percentile; a strictly larger score has a strictly larger one. */
  lemma PercentileOrder(s: seq<real>, i: nat, j: nat)
    requires i < |s| && j < |s|
    ensures s[i] == s[j] ==> Percentiles(s)[i] == Percentiles(s)[j]
    ensures s[i] < s[j] ==> Percentiles(s)[i] < Percentiles(s)[j]
  {
    if s[i] < s[j] {
      CountLessGrows(s, s[i], s[j]);
      CountEqOfMember(s, i);
      CountEqOfMember(s, j);
      var ri, rj := AverageRank(s, s[i]), AverageRank(s, s[j]);
      assert ri < rj;
      DivMonotone(ri, rj, |s| as real);
    }
  }

  // ---------------------------------------------------------------- descending sort

  function Range(n: nat): (r: seq<nat>)
    ensures |r| == n && forall k :: 0 <= k < n ==> r[k] == k
  {
    seq(n, k => k)
  }

  predicate Indexes(key: seq<real>, q: seq<nat>) {
    forall k :: 0 <= k < |q| ==> q[k] < |key|
  }

  /** The rows `q` are in non-increasing order of `key`. */
  predicate SortedDesc(key: seq<real>, q: seq<nat>)
    requires Indexes(key, q)
  {
    forall a, b :: 0 <= a < b < |q| ==> key[q[a]] >= key[q[b]]
  }

  /** Places row `x` before the first row of `q` with a smaller key. */
  function Insert(key: seq<real>, x: nat, q: seq<nat>): (r: seq<nat>)
    requires x < |key| && Indexes(key, q)
    ensures |r| == |q| + 1 && Indexes(key, r)
    ensures multiset(r) == multiset(q) + multiset{x}
  {
    if q == [] then [x]
    else if key[x] >= key[q[0]] then [x] + q
    else
      assert q == [q[0]] + q[1..];
      [q[0]] + Insert(key, x, q[1..])
  }

  /** Row order of `sort_values(ascending=False)`; ties may come in any order. */
  function SortDesc(key: seq<real>, q: seq<nat>): (r: seq<nat>)
    requires Indexes(key, q)
    ensures |r| == |q| && Indexes(key, r)
    ensures multiset(r) == multiset(q)
  {
    if q == [] then []
    else
      assert q == [q[0]] + q[1..];
      Insert(key, q[0], SortDesc(key, q[1..]))
  }

  predicate AllAtMost(key: seq<real>, q: seq<nat>, v: real)
    requires Indexes(key, q)
  {
    forall k :: 0 <= k < |q| ==> key[q[k]] <= v
  }

  lemma {:induction false} InsertAtMost(key: seq<real>, x: nat, q: seq<nat>, v: real)
    requires x < |key| && Indexes(key, q) && AllAtMost(key, q, v) && key[x] <= v
    ensures AllAtMost(key, Insert(key, x, q), v)
  {
    if q != [] && key[x] < key[q[0]] {
      InsertAtMost(key, x, q[1..], v);
    }
  }

  lemma {:induction false} InsertSorted(key: seq<real>, x: nat, q: seq<nat>)
    requires x < |key| && Indexes(key, q) && SortedDesc(key, q)
    ensures SortedDesc(key, Insert(key, x, q))
  {
    if q != [] && key[x] < key[q[0]] {
      var tail := q[1..];
      assert SortedDesc(key, tail) by {
        forall a, b | 0 <= a < b < |tail|
          ensures key[tail[a]] >= key[tail[b]]
        {
          assert tail[a] == q[a + 1] && tail[b] == q[b + 1];
        }
      }
      InsertSorted(key, x, tail);
      InsertAtMost(key, x, tail, key[q[0]]);
      var rest := Insert(key, x, tail);
      var r := [q[0]] + rest;
      assert Insert(key, x, q) == r;
      forall a, b | 0 <= a < b < |r|
        ensures key[r[a]] >= key[r[b]]
      {
        assert r[b] == rest[b - 1];
        if a > 0 {
          assert r[a] == rest[a - 1];
        }
      }
    }
  }

  lemma {:induction false} SortDescSorted(key: seq<real>, q: seq<nat>)
    requires Indexes(key, q)
    ensures SortedDesc(key, SortDesc(key, q))
  {
    if q != [] {
      SortDescSorted(key, q[1..]);
      InsertSorted(key, q[0], SortDesc(key, q[1..]));
    }
  }

  /** The descending order of all rows of `key`: a permutation of 0 .. n-1, sorted by key. */
  function DescendingOrder(key: seq<real>): (p: seq<nat>)
    ensures |p| == |key| && Indexes(key, p) && SortedDesc(key, p)
    ensures multiset(p) == multiset(Range(|key|))
  {
    SortDescSorted(key, Range(|key|));
    var p := SortDesc(key, Range(|key|));
    assert |p| == |multiset(p)| == |key|;
    p
  }
}
