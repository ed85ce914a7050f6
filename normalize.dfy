/**
 * The final-score normalisers of the scorer variants, as functions of the boosted
 * scores.  They share the min-max scaler: sklearn's `MinMaxScaler(feature_range=(a, b))`
 * maps x to a + (x - min) * (b - a) / (max - min), with a zero range replaced by 1,
 * which is `RealMath.ScaleInto`.  `round(2)` is `RealMath.Round2`.
 */
module Normalize {
  import opened RealMath

  function Const(n: nat, v: real): (r: seq<real>)
    ensures |r| == n && forall i :: 0 <= i < n ==> r[i] == v
  {
    seq(n, i => v)
  }

  predicate HasPositive(s: seq<real>) {
    exists i :: 0 <= i < |s| && s[i] > 0.0
  }

  /** `scores[scores > 0]`, in order. */
  function Positives(s: seq<real>): (p: seq<real>)
    ensures forall x :: x in p <==> x in s && x > 0.0
  {
    if s == [] then []
    else (if s[0] > 0.0 then [s[0]] else []) + Positives(s[1..])
  }

  /** The smallest positive score. */
  function PosMin(s: seq<real>): (m: real)
    requires HasPositive(s)
    ensures m > 0.0
    ensures forall i :: 0 <= i < |s| && s[i] > 0.0 ==> m <= s[i]
    ensures exists i :: 0 <= i < |s| && s[i] == m
  {
    var p := Positives(s);
    var i :| 0 <= i < |s| && s[i] > 0.0;
    assert s[i] in p;
    assert forall k :: 0 <= k < |s| && s[k] > 0.0 ==> s[k] in p;
    var m := SeqMin(p);
    assert m in p && m in s;
    m
  }

  /** The largest positive score. */
  function PosMax(s: seq<real>): (m: real)
    requires HasPositive(s)
    ensures m > 0.0
    ensures forall i :: 0 <= i < |s| && s[i] > 0.0 ==> s[i] <= m
    ensures exists i :: 0 <= i < |s| && s[i] == m
  {
    var p := Positives(s);
    var i :| 0 <= i < |s| && s[i] > 0.0;
    assert s[i] in p;
    assert forall k :: 0 <= k < |s| && s[k] > 0.0 ==> s[k] in p;
    var m := SeqMax(p);
    assert m in p && m in s;
    m
  }

  /** The positive scores fitted into [a, b] by the min-max scaler. */
  function ScalePositive(s: seq<real>, x: real, a: real, b: real): real
    requires HasPositive(s)
  {
    ScaleInto(x, PosMin(s), PosMax(s), a, b)
  }

  lemma ScalePositiveBounds(s: seq<real>, i: nat, a: real, b: real)
    requires HasPositive(s) && i < |s| && s[i] > 0.0 && a <= b
    ensures a <= ScalePositive(s, s[i], a, b) <= b
    ensures s[i] == PosMin(s) ==> ScalePositive(s, s[i], a, b) == a
    ensures s[i] == PosMax(s) && PosMin(s) < PosMax(s) ==> ScalePositive(s, s[i], a, b) == b
  {
    ScaleIntoBounds(s[i], PosMin(s), PosMax(s), a, b);
  }

  lemma ScalePositiveMonotone(s: seq<real>, i: nat, j: nat, a: real, b: real)
    requires HasPositive(s) && i < |s| && j < |s| && s[i] > 0.0 && s[j] > 0.0 && s[i] <= s[j] && a <= b
    ensures ScalePositive(s, s[i], a, b) <= ScalePositive(s, s[j], a, b)
  {
    ScaleIntoMonotone(s[i], s[j], PosMin(s), PosMax(s), a, b);
  }

  /** Row `i` holds the smallest positive score. */
  predicate IsMinPositive(s: seq<real>, i: nat) {
    i < |s| && s[i] > 0.0 && forall j :: 0 <= j < |s| && s[j] > 0.0 ==> s[i] <= s[j]
  }

  /** Row `i` holds the largest score, and some positive score is smaller. */
  predicate IsSpreadMax(s: seq<real>, i: nat) {
    i < |s| && (forall j :: 0 <= j < |s| ==> s[j] <= s[i]) && exists j :: 0 <= j < |s| && 0.0 < s[j] < s[i]
  }

  lemma MinPositiveIsPosMin(s: seq<real>, i: nat)
    requires IsMinPositive(s, i)
    ensures HasPositive(s) && s[i] == PosMin(s)
  {
  }

  lemma SpreadMaxIsPosMax(s: seq<real>, i: nat)
    requires IsSpreadMax(s, i)
    ensures HasPositive(s) && s[i] == PosMax(s) && PosMin(s) < PosMax(s)
  {
    var j :| 0 <= j < |s| && 0.0 < s[j] < s[i];
    assert PosMin(s) <= s[j];
  }

  // ---------------------------------------------------------------- enhanced scorer

  /**
   * `_normalize_final_scores`: empty stays empty, all-equal gives 50, no positive
   * score gives 0; otherwise positive scores are fitted into [0, 100] and raised
   * to at least 1, the rest keep their value, and everything is rounded.
   */
  function EnhancedNormalized(s: seq<real>): (r: seq<real>)
    ensures |r| == |s|
  {
    if |s| == 0 then []
    else if SeqMax(s) == SeqMin(s) then Const(|s|, 50.0)
    else if !HasPositive(s) then Const(|s|, 0.0)
    else seq(|s|, i requires 0 <= i < |s| =>
               Round2(if s[i] > 0.0 then Max(ScalePositive(s, s[i], 0.0, 100.0), 1.0) else s[i]))
  }

  lemma EnhancedNormalizedCases(s: seq<real>)
    ensures |EnhancedNormalized(s)| == |s|
    ensures |s| > 0 && AllEqual(s) ==> forall i :: 0 <= i < |s| ==> EnhancedNormalized(s)[i] == 50.0
    ensures !AllEqual(s) && !HasPositive(s) ==> forall i :: 0 <= i < |s| ==> EnhancedNormalized(s)[i] == 0.0
    ensures !AllEqual(s) && HasPositive(s) ==> forall i :: 0 <= i < |s| && s[i] > 0.0 ==>
              1.0 <= EnhancedNormalized(s)[i] <= 100.0
    ensures !AllEqual(s) ==> forall i :: 0 <= i < |s| && s[i] <= 0.0 ==>
              EnhancedNormalized(s)[i] == (if HasPositive(s) then Round2(s[i]) else 0.0) &&
              EnhancedNormalized(s)[i] <= 0.0
  {
    var r := EnhancedNormalized(s);
    if |s| > 0 {
      MaxIsMinIffAllEqual(s);
    }
    Round2OfInt(0);
    if !AllEqual(s) && HasPositive(s) {
      assert |s| > 0;
      forall i | 0 <= i < |s|
        ensures s[i] > 0.0 ==> 1.0 <= r[i] <= 100.0
        ensures s[i] <= 0.0 ==> r[i] == Round2(s[i]) <= 0.0
      {
        if s[i] > 0.0 {
          ScalePositiveBounds(s, i, 0.0, 100.0);
          Round2Between(Max(ScalePositive(s, s[i], 0.0, 100.0), 1.0), 1, 100);
        } else {
          Round2Monotone(s[i], 0.0);
        }
      }
    }
  }

  lemma EnhancedNormalizedExtremes(s: seq<real>)
    requires !AllEqual(s)
    ensures forall i :: 0 <= i < |s| && IsMinPositive(s, i) ==> EnhancedNormalized(s)[i] == 1.0
    ensures forall i :: 0 <= i < |s| && IsSpreadMax(s, i) ==> EnhancedNormalized(s)[i] == 100.0
  {
    MaxIsMinIffAllEqual(s);
    Round2OfInt(1);
    Round2OfInt(100);
    forall i | 0 <= i < |s| && IsMinPositive(s, i) ensures EnhancedNormalized(s)[i] == 1.0 {
      MinPositiveIsPosMin(s, i);
      ScalePositiveBounds(s, i, 0.0, 100.0);
    }
    forall i | 0 <= i < |s| && IsSpreadMax(s, i) ensures EnhancedNormalized(s)[i] == 100.0 {
      SpreadMaxIsPosMax(s, i);
      ScalePositiveBounds(s, i, 0.0, 100.0);
    }
  }

  /** Normalisation never reverses the order of two scores. */
  lemma EnhancedNormalizedMonotone(s: seq<real>, i: nat, j: nat)
    requires i < |s| && j < |s| && s[i] <= s[j]
    ensures EnhancedNormalized(s)[i] <= EnhancedNormalized(s)[j]
  {
    if SeqMax(s) != SeqMin(s) && HasPositive(s) {
      var x := if s[i] > 0.0 then Max(ScalePositive(s, s[i], 0.0, 100.0), 1.0) else s[i];
      var y := if s[j] > 0.0 then Max(ScalePositive(s, s[j], 0.0, 100.0), 1.0) else s[j];
      if s[i] > 0.0 {
        ScalePositiveMonotone(s, i, j, 0.0, 100.0);
      } else if s[j] > 0.0 {
        assert x <= 0.0 < 1.0 <= y;
      }
      Round2Monotone(x, y);
    }
  }

  // ---------------------------------------------------------------- core scorer

  /**
   * `core/scorer.py` `_normalize_scores`: empty or all-equal gives 50, no positive
   * score gives 0; otherwise positive scores are fitted into [1, 100], the rest keep
   * their value, and everything is rounded.
   */
  function CoreNormalized(s: seq<real>): (r: seq<real>)
    ensures |r| == |s|
  {
    if |s| == 0 || SeqMax(s) == SeqMin(s) then Const(|s|, 50.0)
    else if !HasPositive(s) then Const(|s|, 0.0)
    else seq(|s|, i requires 0 <= i < |s| =>
               Round2(if s[i] > 0.0 then ScalePositive(s, s[i], 1.0, 100.0) else s[i]))
  }

  lemma CoreNormalizedCases(s: seq<real>)
    ensures |CoreNormalized(s)| == |s|
    ensures AllEqual(s) ==> forall i :: 0 <= i < |s| ==> CoreNormalized(s)[i] == 50.0
    ensures !AllEqual(s) && !HasPositive(s) ==> forall i :: 0 <= i < |s| ==> CoreNormalized(s)[i] == 0.0
    ensures !AllEqual(s) && HasPositive(s) ==> forall i :: 0 <= i < |s| && s[i] > 0.0 ==>
              1.0 <= CoreNormalized(s)[i] <= 100.0
    ensures !AllEqual(s) ==> forall i :: 0 <= i < |s| && s[i] <= 0.0 ==>
              CoreNormalized(s)[i] == (if HasPositive(s) then Round2(s[i]) else 0.0) &&
              CoreNormalized(s)[i] <= 0.0
  {
    var r := CoreNormalized(s);
    if |s| > 0 {
      MaxIsMinIffAllEqual(s);
    }
    Round2OfInt(0);
    if !AllEqual(s) && HasPositive(s) {
      assert |s| > 0;
      forall i | 0 <= i < |s|
        ensures s[i] > 0.0 ==> 1.0 <= r[i] <= 100.0
        ensures s[i] <= 0.0 ==> r[i] == Round2(s[i]) <= 0.0
      {
        if s[i] > 0.0 {
          ScalePositiveBounds(s, i, 1.0, 100.0);
          Round2Between(ScalePositive(s, s[i], 1.0, 100.0), 1, 100);
        } else {
          Round2Monotone(s[i], 0.0);
        }
      }
    }
  }

  lemma CoreNormalizedExtremes(s: seq<real>)
    requires !AllEqual(s)
    ensures forall i :: 0 <= i < |s| && IsMinPositive(s, i) ==> CoreNormalized(s)[i] == 1.0
    ensures forall i :: 0 <= i < |s| && IsSpreadMax(s, i) ==> CoreNormalized(s)[i] == 100.0
  {
    MaxIsMinIffAllEqual(s);
    Round2OfInt(1);
    Round2OfInt(100);
    forall i | 0 <= i < |s| && IsMinPositive(s, i) ensures CoreNormalized(s)[i] == 1.0 {
      MinPositiveIsPosMin(s, i);
      ScalePositiveBounds(s, i, 1.0, 100.0);
    }
    forall i | 0 <= i < |s| && IsSpreadMax(s, i) ensures CoreNormalized(s)[i] == 100.0 {
      SpreadMaxIsPosMax(s, i);
      ScalePositiveBounds(s, i, 1.0, 100.0);
    }
  }

  lemma CoreNormalizedMonotone(s: seq<real>, i: nat, j: nat)
    requires i < |s| && j < |s| && s[i] <= s[j]
    ensures CoreNormalized(s)[i] <= CoreNormalized(s)[j]
  {
    if SeqMax(s) != SeqMin(s) && HasPositive(s) {
      var x := if s[i] > 0.0 then ScalePositive(s, s[i], 1.0, 100.0) else s[i];
      var y := if s[j] > 0.0 then ScalePositive(s, s[j], 1.0, 100.0) else s[j];
      if s[i] > 0.0 {
        ScalePositiveMonotone(s, i, j, 1.0, 100.0);
      } else if s[j] > 0.0 {
        ScalePositiveBounds(s, j, 1.0, 100.0);
      }
      Round2Monotone(x, y);
    }
  }

  // ---------------------------------------------------------------- scripts scorer

  /**
   * `scripts/scoring.py` `_normalize_scores`: no positive score gives 0; otherwise
   * positive scores are fitted into [1, 100], every other score becomes 0, and
   * everything is rounded.  There is no empty or all-equal branch.
   */
  function ScriptNormalized(s: seq<real>): (r: seq<real>)
    ensures |r| == |s|
  {
    if !HasPositive(s) then Const(|s|, 0.0)
    else seq(|s|, i requires 0 <= i < |s| =>
               Round2(if s[i] > 0.0 then ScalePositive(s, s[i], 1.0, 100.0) else 0.0))
  }

  lemma ScriptNormalizedCases(s: seq<real>)
    ensures |ScriptNormalized(s)| == |s|
    ensures forall i :: 0 <= i < |s| && s[i] <= 0.0 ==> ScriptNormalized(s)[i] == 0.0
    ensures forall i :: 0 <= i < |s| && s[i] > 0.0 ==> 1.0 <= ScriptNormalized(s)[i] <= 100.0
    ensures forall i :: 0 <= i < |s| ==> ScriptNormalized(s)[i] == 0.0 || 1.0 <= ScriptNormalized(s)[i] <= 100.0
    ensures forall i :: 0 <= i < |s| && IsMinPositive(s, i) ==> ScriptNormalized(s)[i] == 1.0
    ensures forall i :: 0 <= i < |s| && IsSpreadMax(s, i) ==> ScriptNormalized(s)[i] == 100.0
  {
    var r := ScriptNormalized(s);
    Round2OfInt(0);
    Round2OfInt(1);
    Round2OfInt(100);
    if HasPositive(s) {
      forall i | 0 <= i < |s| && s[i] > 0.0
        ensures 1.0 <= r[i] <= 100.0
        ensures IsMinPositive(s, i) ==> r[i] == 1.0
        ensures IsSpreadMax(s, i) ==> r[i] == 100.0
      {
        ScalePositiveBounds(s, i, 1.0, 100.0);
        Round2Between(ScalePositive(s, s[i], 1.0, 100.0), 1, 100);
        if IsMinPositive(s, i) {
          MinPositiveIsPosMin(s, i);
        }
        if IsSpreadMax(s, i) {
          SpreadMaxIsPosMax(s, i);
        }
      }
    }
    forall i | 0 <= i < |s| && IsSpreadMax(s, i) ensures s[i] > 0.0 {
      var j :| 0 <= j < |s| && 0.0 < s[j] < s[i];
    }
  }

  lemma ScriptNormalizedMonotone(s: seq<real>, i: nat, j: nat)
    requires i < |s| && j < |s| && s[i] <= s[j]
    ensures ScriptNormalized(s)[i] <= ScriptNormalized(s)[j]
  {
    if HasPositive(s) {
      var x := if s[i] > 0.0 then ScalePositive(s, s[i], 1.0, 100.0) else 0.0;
      var y := if s[j] > 0.0 then ScalePositive(s, s[j], 1.0, 100.0) else 0.0;
      if s[i] > 0.0 {
        ScalePositiveMonotone(s, i, j, 1.0, 100.0);
      } else if s[j] > 0.0 {
        ScalePositiveBounds(s, j, 1.0, 100.0);
      }
      Round2Monotone(x, y);
    }
  }

  // ---------------------------------------------------------------- packaged and CSV scorers

  /**
   * `part_priority_scoring/core/scorer.py` and `tests/csv_test/csv_test_scoring.py`
   * `_normalize_scores`: empty stays empty, all-equal gives 50, otherwise plain
   * min-max over the whole series to [0, 100], clipped below at 0 and rounded.
   */
  function MinMaxNormalized(s: seq<real>): (r: seq<real>)
    ensures |r| == |s|
  {
    if |s| == 0 then []
    else if SeqMax(s) == SeqMin(s) then Const(|s|, 50.0)
    else
      var lo, hi := SeqMin(s), SeqMax(s);
      seq(|s|, i requires 0 <= i < |s| => Round2(Max(MinMaxValue(s[i], lo, hi), 0.0)))
  }

  /** `((x - min) / (max - min)) * 100`. */
  function MinMaxValue(x: real, lo: real, hi: real): real
    requires lo < hi
  {
    (x - lo) / (hi - lo) * 100.0
  }

  lemma MinMaxStep(x: real, lo: real, hi: real)
    requires lo <= x <= hi && lo < hi
    ensures Max(MinMaxValue(x, lo, hi), 0.0) == ScaleInto(x, lo, hi, 0.0, 100.0)
  {
    ScaleIntoBounds(x, lo, hi, 0.0, 100.0);
  }

  lemma MinMaxNormalizedCases(s: seq<real>)
    ensures |MinMaxNormalized(s)| == |s|
    ensures |s| > 0 && AllEqual(s) ==> forall i :: 0 <= i < |s| ==> MinMaxNormalized(s)[i] == 50.0
    ensures forall i :: 0 <= i < |s| ==> 0.0 <= MinMaxNormalized(s)[i] <= 100.0
    ensures !AllEqual(s) ==> forall i :: 0 <= i < |s| && s[i] == SeqMin(s) ==> MinMaxNormalized(s)[i] == 0.0
    ensures !AllEqual(s) ==> forall i :: 0 <= i < |s| && s[i] == SeqMax(s) ==> MinMaxNormalized(s)[i] == 100.0
  {
    if |s| > 0 {
      MaxIsMinIffAllEqual(s);
      Round2OfInt(0);
      Round2OfInt(100);
      if !AllEqual(s) {
        var lo, hi := SeqMin(s), SeqMax(s);
        forall i | 0 <= i < |s|
          ensures 0.0 <= MinMaxNormalized(s)[i] <= 100.0
          ensures s[i] == lo ==> MinMaxNormalized(s)[i] == 0.0
          ensures s[i] == hi ==> MinMaxNormalized(s)[i] == 100.0
        {
          MinMaxStep(s[i], lo, hi);
          ScaleIntoBounds(s[i], lo, hi, 0.0, 100.0);
          Round2Between(ScaleInto(s[i], lo, hi, 0.0, 100.0), 0, 100);
        }
      }
    }
  }

  lemma MinMaxNormalizedMonotone(s: seq<real>, i: nat, j: nat)
    requires i < |s| && j < |s| && s[i] <= s[j]
    ensures MinMaxNormalized(s)[i] <= MinMaxNormalized(s)[j]
  {
    if SeqMax(s) != SeqMin(s) {
      var lo, hi := SeqMin(s), SeqMax(s);
      MinMaxStep(s[i], lo, hi);
      MinMaxStep(s[j], lo, hi);
      ScaleIntoMonotone(s[i], s[j], lo, hi, 0.0, 100.0);
      Round2Monotone(ScaleInto(s[i], lo, hi, 0.0, 100.0), ScaleInto(s[j], lo, hi, 0.0, 100.0));
    }
  }
}
