/**
 * `PartScorer` of `core/scorer.py` and of its packaged copy
 * `part_priority_scoring/core/scorer.py`.  The two differ only in the final
 * normaliser, so the scorer takes the variant as a parameter.
 */
module PartScorer {
  import opened Wrappers
  import opened Frames
  import opened RealMath
  import opened Features
  import opened CoreFeatures
  import opened Scoring
  import opened Normalize
  import opened Ranking

  /** Which copy of the scorer: `core/scorer.py` or `part_priority_scoring/core/scorer.py`. */
  datatype Variant = Core | Packaged

  /** The final normaliser of each variant. */
  function Normalized(variant: Variant, s: seq<real>): (r: seq<real>)
    ensures |r| == |s|
  {
    match variant
    case Core => CoreNormalized(s)
    case Packaged => MinMaxNormalized(s)
  }

  /** `_calculate_base_score`: the weighted sum, zeroed for unavailable records only when both gate columns exist. */
  method CalculateBaseScore(df: Frame, weights: Weights) returns (base: seq<real>)
    requires WellFormed(df)
    ensures |base| == df.n
    ensures forall i :: 0 <= i < df.n ==>
              base[i] == if GateColumns(df) && Unavailable(df, i) then 0.0 else WeightedSum(df, weights, i)
  {
    var gate := GateColumns(df);
    var unavailable := seq(df.n, i requires 0 <= i < df.n => gate && Unavailable(df, i));
    base := WeightedBaseScore(df, weights, unavailable);
  }

  /** `_apply_boosts`: the four fixed rules in order, each compounding on the rows it fires on. */
  method ApplyBoosts(df: Frame, base: seq<real>) returns (boosted: seq<real>)
    ensures boosted == Compounded(base, FixedRules(df))
    ensures forall i :: 0 <= i < |base| && base[i] == 0.0 ==> boosted[i] == 0.0
  {
    boosted := CompoundBoosts(base, FixedRules(df));
  }

  /**
   * `_normalize_scores` of either variant, branch by branch: the core copy fits the
   * positive scores into [1, 100] and keeps the others, the packaged copy fits the
   * whole series into [0, 100] and clips below at 0; both round to two decimals.
   */
  method NormalizeScores(variant: Variant, scores: seq<real>) returns (r: seq<real>)
    ensures r == Normalized(variant, scores)
  {
    var n := |scores|;
    if variant == Core {
      if n == 0 || SeqMax(scores) == SeqMin(scores) {
        return Const(n, 50.0);
      }
      if !HasPositive(scores) {
        return Const(n, 0.0);
      }
      var normalized := scores;
      normalized := seq(n, i requires 0 <= i < n =>
                          if scores[i] > 0.0 then ScalePositive(scores, scores[i], 1.0, 100.0) else normalized[i]);
      r := seq(n, i requires 0 <= i < n => Round2(normalized[i]));
    } else {
      if n == 0 {
        return [];
      }
      if SeqMax(scores) == SeqMin(scores) {
        return Const(n, 50.0);
      }
      var lo, hi := SeqMin(scores), SeqMax(scores);
      var normalized := seq(n, i requires 0 <= i < n => MinMaxValue(scores[i], lo, hi));
      normalized := seq(n, i requires 0 <= i < n => Max(normalized[i], 0.0));
      r := seq(n, i requires 0 <= i < n => Round2(normalized[i]));
    }
  }

  /** The base score of every engineered record. */
  function BaseScores(ef: Frame, weights: Weights): (r: seq<real>)
    ensures |r| == ef.n
    ensures forall i :: 0 <= i < ef.n ==>
              r[i] == if GateColumns(ef) && Unavailable(ef, i) then 0.0 else WeightedSum(ef, weights, i)
  {
    seq(ef.n, i requires 0 <= i < ef.n =>
      if GateColumns(ef) && Unavailable(ef, i) then 0.0 else WeightedSum(ef, weights, i))
  }

  function BoostedScores(ef: Frame, weights: Weights): (r: seq<real>)
    ensures |r| == ef.n
    ensures forall i :: 0 <= i < ef.n ==> r[i] == BaseScores(ef, weights)[i] * BoostFactor(FixedRules(ef), i)
  {
    Compounded(BaseScores(ef, weights), FixedRules(ef))
  }

  /** `priority_score`: the normalised boosted score, or the boosted score itself with `normalize=False`. */
  function PriorityScores(ef: Frame, weights: Weights, variant: Variant, normalize: bool): (r: seq<real>)
    ensures |r| == ef.n
  {
    if normalize then Normalized(variant, BoostedScores(ef, weights)) else BoostedScores(ef, weights)
  }

  function ScoreColumns(ef: Frame, weights: Weights, variant: Variant, normalize: bool): (cols: seq<seq<Cell>>)
    ensures |cols| == 4 && forall k :: 0 <= k < 4 ==> |cols[k]| == ef.n
  {
    var base, boosted := BaseScores(ef, weights), BoostedScores(ef, weights);
    var priority := PriorityScores(ef, weights, variant, normalize);
    FourColumns(base, boosted, priority, Percentiles(priority), ef.n);
    [NumCol(base), NumCol(boosted), NumCol(priority), NumCol(Percentiles(priority))]
  }

  /** The engineered frame with the four score columns written, before sorting. */
  function ScoredFrame(ef: Frame, weights: Weights, variant: Variant, normalize: bool): (r: Frame)
    requires WellFormed(ef)
    ensures WellFormed(r) && r.n == ef.n
    ensures forall c :: c in r.cols <==> c in ef.cols || c in ScoreNames()
    ensures forall c :: c in ef.cols && c !in ScoreNames() ==> r.cols[c] == ef.cols[c]
    ensures forall k :: 0 <= k < 4 ==> r.cols[ScoreNames()[k]] == ScoreColumns(ef, weights, variant, normalize)[k]
    ensures "priority_score" in r.cols && r.cols["priority_score"] == NumCol(PriorityScores(ef, weights, variant, normalize))
  {
    assert Distinct(ScoreNames());
    assert ScoreNames()[2] == "priority_score";
    WithCols(ef, ScoreNames(), ScoreColumns(ef, weights, variant, normalize))
  }

  /** The row order of `sort_values('priority_score', ascending=False)`. */
  function RankOrder(ef: Frame, weights: Weights, variant: Variant, normalize: bool): (p: seq<nat>)
    ensures |p| == ef.n && forall k :: 0 <= k < |p| ==> p[k] < ef.n
  {
    DescendingOrder(PriorityScores(ef, weights, variant, normalize))
  }

  /** What `calculate_scores` returns for a non-empty engineered frame. */
  function RankedFrame(ef: Frame, weights: Weights, variant: Variant, normalize: bool): (r: Frame)
    requires WellFormed(ef)
    ensures WellFormed(r) && r.n == ef.n
    ensures "priority_score" in r.cols
    ensures forall k :: 0 <= k < ef.n ==>
              r.cols["priority_score"][k] == Num(PriorityScores(ef, weights, variant, normalize)[RankOrder(ef, weights, variant, normalize)[k]])
  {
    SelectRows(ScoredFrame(ef, weights, variant, normalize), RankOrder(ef, weights, variant, normalize))
  }

  /** What `calculate_scores` returns for an empty frame: the three score columns added, empty. */
  function EmptyScored(df: Frame): (r: Frame)
    requires WellFormed(df) && df.n == 0
    ensures WellFormed(r) && r.n == 0
    ensures forall c :: c in r.cols <==> c in df.cols || c in ["priority_score", "score_percentile", "base_score"]
  {
    assert Distinct(["priority_score", "score_percentile", "base_score"]);
    WithCols(df, ["priority_score", "score_percentile", "base_score"], [[], [], []])
  }

  /** Steps 2 to 5 of `calculate_scores` and the final sort, on an engineered frame. */
  method ScoreEngineered(ef: Frame, weights: Weights, variant: Variant, normalize: bool) returns (out: Frame)
    requires WellFormed(ef)
    ensures out == RankedFrame(ef, weights, variant, normalize)
  {
    var base := CalculateBaseScore(ef, weights);
    assert base == BaseScores(ef, weights);
    var boosted := ApplyBoosts(ef, base);
    assert boosted == BoostedScores(ef, weights);
    var priority := boosted;
    if normalize {
      priority := NormalizeScores(variant, boosted);
    }
    assert priority == PriorityScores(ef, weights, variant, normalize);
    var percentile := Percentiles(priority);
    var columns := [NumCol(base), NumCol(boosted), NumCol(priority), NumCol(percentile)];
    assert columns == ScoreColumns(ef, weights, variant, normalize);
    RankedFrameParts(ef, weights, variant, normalize);
    var scored := WithCols(ef, ScoreNames(), columns);
    out := SelectRows(scored, DescendingOrder(priority));
  }

  /** `RankedFrame` is the score columns written in `ScoreNames` order, then the rows sorted by priority. */
  lemma RankedFrameParts(ef: Frame, weights: Weights, variant: Variant, normalize: bool)
    requires WellFormed(ef)
    ensures Distinct(ScoreNames()) && |ScoreNames()| == 4
    ensures var priority, scored := PriorityScores(ef, weights, variant, normalize), ScoredFrame(ef, weights, variant, normalize);
            && scored == WithCols(ef, ScoreNames(), ScoreColumns(ef, weights, variant, normalize))
            && Indexes(priority, DescendingOrder(priority)) && scored.n == |priority|
            && RankedFrame(ef, weights, variant, normalize) == SelectRows(scored, DescendingOrder(priority))
  {
    ScoreNamesDistinct();
  }

  /**
   * `calculate_scores`: an empty frame gets the empty score columns; otherwise the
   * core feature engineer runs first (its result is `engineered`) and the scores
   * are computed and sorted on it.
   */
  method CalculateScores(df: Frame, weights: Weights, variant: Variant, config: FeatureConfig,
                         log1p: real -> real, scaler: ColumnScaler, normalize: bool)
    returns (out: Frame, ghost engineered: Frame)
    requires WellFormed(df)
    ensures df.n == 0 ==> out == EmptyScored(df)
    ensures df.n > 0 ==> WellFormed(engineered) && engineered.n == df.n
                         && (forall c :: c in df.cols ==> c in engineered.cols)
                         && out == RankedFrame(engineered, weights, variant, normalize)
  {
    if df.n == 0 {
      engineered := df;
      out := EmptyScored(df);
      return;
    }
    var ef := Transform(df, config, log1p, scaler);
    engineered := ef;
    out := ScoreEngineered(ef, weights, variant, normalize);
  }

  // ---------------------------------------------------------------- properties of the result

  /**
   * The result is a reordering of the scored rows: `RankOrder` is a permutation of
   * the rows and row `k` of every column of the output is row `RankOrder[k]` of the
   * scored frame.
   */
  lemma RankedIsPermutation(ef: Frame, weights: Weights, variant: Variant, normalize: bool)
    requires WellFormed(ef)
    ensures multiset(RankOrder(ef, weights, variant, normalize)) == multiset(Range(ef.n))
    ensures var sf, r := ScoredFrame(ef, weights, variant, normalize), RankedFrame(ef, weights, variant, normalize);
            r.cols.Keys == sf.cols.Keys
            && forall c, k :: c in sf.cols && 0 <= k < ef.n ==> r.cols[c][k] == sf.cols[c][RankOrder(ef, weights, variant, normalize)[k]]
  {
  }

  /** The rows come out in non-increasing order of priority score. */
  lemma RankedIsSorted(ef: Frame, weights: Weights, variant: Variant, normalize: bool, a: nat, b: nat)
    requires WellFormed(ef) && a < b < ef.n
    ensures var r := RankedFrame(ef, weights, variant, normalize);
            "priority_score" in r.cols
            && r.cols["priority_score"][a].Num? && r.cols["priority_score"][b].Num?
            && r.cols["priority_score"][a].x >= r.cols["priority_score"][b].x
  {
    var pr := PriorityScores(ef, weights, variant, normalize);
    var p := RankOrder(ef, weights, variant, normalize);
    assert SortedDesc(pr, p);
  }

  /** With `normalize=False` the priority score of every record is its boosted score. */
  lemma UnnormalizedPriorityIsBoosted(ef: Frame, weights: Weights, variant: Variant, i: nat)
    requires WellFormed(ef) && i < ef.n
    ensures PriorityScores(ef, weights, variant, false)[i] == BoostedScores(ef, weights)[i]
  {
  }

  /**
   * The priority range of each variant: the packaged copy keeps every score in
   * [0, 100]; the core copy sends positive boosted scores into [1, 100] and keeps
   * non-positive ones at or below 0.
   */
  lemma PriorityRange(ef: Frame, weights: Weights, i: nat)
    requires WellFormed(ef) && i < ef.n
    ensures 0.0 <= PriorityScores(ef, weights, Packaged, true)[i] <= 100.0
    ensures var b := BoostedScores(ef, weights);
            !AllEqual(b) && b[i] > 0.0 ==> 1.0 <= PriorityScores(ef, weights, Core, true)[i] <= 100.0
    ensures var b := BoostedScores(ef, weights);
            !AllEqual(b) && b[i] <= 0.0 ==> PriorityScores(ef, weights, Core, true)[i] <= 0.0
  {
    var b := BoostedScores(ef, weights);
    MinMaxNormalizedCases(b);
    CoreNormalizedCases(b);
    if !AllEqual(b) && b[i] > 0.0 {
      assert HasPositive(b);
    }
  }

  /** In both variants a larger boosted score never gets a smaller priority score. */
  lemma PriorityMonotone(ef: Frame, weights: Weights, variant: Variant, normalize: bool, i: nat, j: nat)
    requires WellFormed(ef) && i < ef.n && j < ef.n
    requires BoostedScores(ef, weights)[i] <= BoostedScores(ef, weights)[j]
    ensures PriorityScores(ef, weights, variant, normalize)[i] <= PriorityScores(ef, weights, variant, normalize)[j]
  {
    var b := BoostedScores(ef, weights);
    if normalize {
      match variant
      case Core => CoreNormalizedMonotone(b, i, j);
      case Packaged => MinMaxNormalizedMonotone(b, i, j);
    }
  }

  /** An unavailable record (both gate columns present) has base and boosted score 0. */
  lemma UnavailableScoresZero(ef: Frame, weights: Weights, i: nat)
    requires WellFormed(ef) && i < ef.n && GateColumns(ef) && Unavailable(ef, i)
    ensures BaseScores(ef, weights)[i] == 0.0 && BoostedScores(ef, weights)[i] == 0.0
  {
  }

  /** A record with a non-negative base score is lifted by at most 1.1 * 1.15 * 1.05 * 1.08 by the fixed boosts. */
  lemma BoostedWithinFixedRange(ef: Frame, weights: Weights, i: nat)
    requires WellFormed(ef) && i < ef.n && BaseScores(ef, weights)[i] >= 0.0
    ensures var b := BaseScores(ef, weights)[i];
            b <= BoostedScores(ef, weights)[i] <= b * 1.43451
  {
    var b := BaseScores(ef, weights)[i];
    FixedBoostFactorRange(ef, i);
    MulNonneg(b, BoostFactor(FixedRules(ef), i) - 1.0);
    MulNonneg(b, 1.43451 - BoostFactor(FixedRules(ef), i));
  }
}
