/**
 * Exact real arithmetic used by the scorers: clipping, sequence extrema, the
 * min-max rescaling that scikit-learn's MinMaxScaler performs on one column,
 * and numpy's `round(2)` (round half to even at two decimals).
 */
module RealMath {

  function Max(a: real, b: real): (r: real)
    ensures r >= a && r >= b && (r == a || r == b)
  {
    if a >= b then a else b
  }

  function Min(a: real, b: real): (r: real)
    ensures r <= a && r <= b && (r == a || r == b)
  {
    if a <= b then a else b
  }

  /** pandas `clip(lo, hi)` on one value. */
  function Clip(x: real, lo: real, hi: real): (r: real)
    requires lo <= hi
    ensures lo <= r <= hi
    ensures lo <= x <= hi ==> r == x
  {
    if x < lo then lo else if x > hi then hi else x
  }

  /** Largest element of a non-empty sequence (pandas `max()`). */
  function SeqMax(s: seq<real>): (m: real)
    requires |s| > 0
    ensures forall i :: 0 <= i < |s| ==> s[i] <= m
    ensures exists i :: 0 <= i < |s| && s[i] == m
  {
    if |s| == 1 then s[0]
    else
      var m' := SeqMax(s[1..]);
      assert forall i :: 1 <= i < |s| ==> s[i] == s[1..][i - 1];
      if s[0] >= m' then s[0] else m'
  }

  /** Smallest element of a non-empty sequence (pandas `min()`). */
  function SeqMin(s: seq<real>): (m: real)
    requires |s| > 0
    ensures forall i :: 0 <= i < |s| ==> m <= s[i]
    ensures exists i :: 0 <= i < |s| && s[i] == m
  {
    if |s| == 1 then s[0]
    else
      var m' := SeqMin(s[1..]);
      assert forall i :: 1 <= i < |s| ==> s[i] == s[1..][i - 1];
      if s[0] <= m' then s[0] else m'
  }

  predicate AllEqual(s: seq<real>) {
    forall i, j :: 0 <= i < |s| && 0 <= j < |s| ==> s[i] == s[j]
  }

  lemma MaxIsMinIffAllEqual(s: seq<real>)
    requires |s| > 0
    ensures SeqMax(s) == SeqMin(s) <==> AllEqual(s)
  {
    if SeqMax(s) == SeqMin(s) {
      forall i, j | 0 <= i < |s| && 0 <= j < |s| ensures s[i] == s[j] {
        assert SeqMin(s) <= s[i] <= SeqMax(s);
        assert SeqMin(s) <= s[j] <= SeqMax(s);
      }
    }
    if AllEqual(s) {
      var i :| 0 <= i < |s| && s[i] == SeqMax(s);
      var j :| 0 <= j < |s| && s[j] == SeqMin(s);
      assert s[i] == s[j];
    }
  }

  /**
   * MinMaxScaler(feature_range=(a, b)) fitted on data whose minimum is `lo`
   * and maximum is `hi`, applied to `x`.  A zero data range is replaced by 1,
   * as scikit-learn does, so every value then maps to the floor `a`.
   */
  function ScaleInto(x: real, lo: real, hi: real, a: real, b: real): real
  {
    a + (x - lo) * (b - a) / (if hi == lo then 1.0 else hi - lo)
  }

  lemma ScaleIntoBounds(x: real, lo: real, hi: real, a: real, b: real)
    requires lo <= x <= hi && a <= b
    ensures a <= ScaleInto(x, lo, hi, a, b) <= b
    ensures x == lo ==> ScaleInto(x, lo, hi, a, b) == a
    ensures lo < hi && x == hi ==> ScaleInto(x, lo, hi, a, b) == b
    ensures lo == hi ==> ScaleInto(x, lo, hi, a, b) == a
  {
    if lo < hi {
      var t := (x - lo) / (hi - lo);
      assert 0.0 <= t <= 1.0;
      assert (x - lo) * (b - a) / (hi - lo) == t * (b - a);
      MulNonneg(t, b - a);
      MulNonneg(1.0 - t, b - a);
    }
  }

  lemma ScaleIntoMonotone(x: real, y: real, lo: real, hi: real, a: real, b: real)
    requires x <= y && lo <= hi && a <= b
    ensures ScaleInto(x, lo, hi, a, b) <= ScaleInto(y, lo, hi, a, b)
    ensures lo < hi && a < b && x < y ==> ScaleInto(x, lo, hi, a, b) < ScaleInto(y, lo, hi, a, b)
  {
    var d := if hi == lo then 1.0 else hi - lo;
    assert d > 0.0;
    assert (x - lo) * (b - a) <= (y - lo) * (b - a);
    if lo < hi && a < b && x < y {
      assert (x - lo) * (b - a) < (y - lo) * (b - a);
    }
  }

  lemma MulNonneg(p: real, q: real)
    requires p >= 0.0 && q >= 0.0
    ensures p * q >= 0.0
  {
  }

  /** numpy's rint: to the nearest integer, ties to the even one. */
  function RoundHalfEven(y: real): int
  {
    var f := y.Floor;
    var d := y - f as real;
    if d < 0.5 then f
    else if d > 0.5 then f + 1
    else if f % 2 == 0 then f
    else f + 1
  }

  /** pandas/numpy `round(2)` on one value, computed exactly. */
  function Round2(x: real): real
  {
    RoundHalfEven(x * 100.0) as real / 100.0
  }

  lemma RoundHalfEvenNear(y: real)
    ensures y.Floor <= RoundHalfEven(y) <= y.Floor + 1
    ensures RoundHalfEven(y) == y.Floor ==> y - y.Floor as real <= 0.5
    ensures RoundHalfEven(y) == y.Floor + 1 ==> y - y.Floor as real >= 0.5
  {
  }

  lemma {:induction false} RoundHalfEvenMonotone(x: real, y: real)
    requires x <= y
    ensures RoundHalfEven(x) <= RoundHalfEven(y)
  {
    RoundHalfEvenNear(x);
    RoundHalfEvenNear(y);
    if x.Floor == y.Floor {
      var f := x.Floor;
      assert x - f as real <= y - f as real;
    } else {
      assert x.Floor < y.Floor;
    }
  }

  lemma RoundHalfEvenOfInt(k: int)
    ensures RoundHalfEven(k as real) == k
  {
    assert (k as real).Floor == k;
  }

  lemma {:induction false} Round2Monotone(x: real, y: real)
    requires x <= y
    ensures Round2(x) <= Round2(y)
  {
    RoundHalfEvenMonotone(x * 100.0, y * 100.0);
  }

  /** Values with at most two decimals, here the integers 0..100 scaled, are kept by Round2. */
  lemma Round2OfInt(k: int)
    ensures Round2(k as real) == k as real
  {
    assert k as real * 100.0 == (k * 100) as real;
    RoundHalfEvenOfInt(k * 100);
  }

  lemma Round2Between(x: real, lo: int, hi: int)
    requires lo as real <= x <= hi as real
    ensures lo as real <= Round2(x) <= hi as real
  {
    Round2Monotone(lo as real, x);
    Round2Monotone(x, hi as real);
    Round2OfInt(lo);
    Round2OfInt(hi);
  }
}
