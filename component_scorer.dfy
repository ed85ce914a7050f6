/**
 * `ComponentScorer` of `scripts/scoring.py`: availability flag, gated weighted
 * score, configured boosts whose conditions go through `DataFrame.eval`, and the
 * [1, 100] normaliser that sends every non-positive score to 0.
 */
module ComponentScorer {
  import opened Wrappers
  import opened Frames
  import opened Features
  import opened RealMath
  import opened Scoring
  import opened Normalize

  /**
   * `DataFrame.eval` of a condition string: a boolean mask, or `None` when the
   * evaluation raises.  The expression language is not part of this model.
   */
  type Evaluator = (Frame, string) -> Option<seq<bool>>

  /**
   * `_apply_tiered_filtering`: sets `is_available` on the caller's frame, false
   * exactly for records with no stock and more than 12 weeks of lead time, and
   * true everywhere when either column is absent.
   */
  method ApplyTieredFiltering(df: FrameRef) returns (r: Frame)
    requires WellFormed(df.frame)
    modifies df
    ensures df.frame == WithCol(old(df.frame), "is_available", AvailableColumn(old(df.frame)))
    ensures r == df.frame
  {
    df.SetColumn("is_available", AvailableColumn(df.frame));
    r := df.frame;
  }

  /** After the filter, the base-score gate holds exactly for the unavailable records. */
  lemma FilteredGate(df: Frame, i: nat)
    requires WellFormed(df) && i < df.n
    ensures var f := WithCol(df, "is_available", AvailableColumn(df));
            Gated(f, i) <==> GateColumns(df) && Unavailable(df, i)
  {
  }

  /**
   * `_calculate_base_score`: the weighted sum over present columns, set to 0 for
   * every record whose `is_available` is false.  The column must exist (the
   * source indexes it unconditionally); the filter always creates it.
   */
  method CalculateBaseScore(df: Frame, weights: Weights) returns (base: seq<real>)
    requires WellFormed(df) && "is_available" in df.cols
    ensures |base| == df.n
    ensures forall i :: 0 <= i < df.n ==> base[i] == if Gated(df, i) then 0.0 else WeightedSum(df, weights, i)
  {
    var unavailable := seq(df.n, i requires 0 <= i < df.n => !Truthy(df.cols["is_available"][i]));
    base := WeightedBaseScore(df, weights, unavailable);
  }

  /** The configured rules with the masks `DataFrame.eval` gives for them. */
  function EvaluatedRules(df: Frame, boosts: seq<BoostEntry>, eval: Evaluator): (rules: seq<Rule>)
    ensures |rules| == |boosts|
    ensures forall k :: 0 <= k < |boosts| ==> rules[k] == Rule(eval(df, boosts[k].condition), boosts[k].multiplier)
  {
    seq(|boosts|, k requires 0 <= k < |boosts| => Rule(eval(df, boosts[k].condition), boosts[k].multiplier))
  }

  /**
   * `_apply_boosts`: starting from the frame's `base_score` column, each
   * configured rule, evaluated on that same frame, multiplies the scores where its
   * mask holds; a rule whose evaluation raises is skipped and the others still apply.
   */
  method ApplyBoosts(df: Frame, base: seq<real>, boosts: seq<BoostEntry>, eval: Evaluator) returns (boosted: seq<real>)
    requires "base_score" in df.cols && df.cols["base_score"] == NumCol(base)
    ensures boosted == Compounded(base, EvaluatedRules(df, boosts, eval))
    ensures forall i :: 0 <= i < |base| && base[i] == 0.0 ==> boosted[i] == 0.0
  {
    boosted := CompoundBoosts(base, EvaluatedRules(df, boosts, eval));
  }

  /** A rule whose evaluation raises never fires; removing it leaves every factor unchanged. */
  lemma {:induction false} FailingRuleSkipped(rules: seq<Rule>, k: nat, i: nat)
    requires k < |rules| && rules[k].mask.None?
    ensures BoostFactor(rules, i) == BoostFactor(rules[..k] + rules[k + 1..], i)
    decreases |rules|
  {
    var init := rules[..|rules| - 1];
    if k == |rules| - 1 {
      assert rules[..k] + rules[k + 1..] == init;
    } else {
      FailingRuleSkipped(init, k, i);
      var rest := rules[..k] + rules[k + 1..];
      var last := rules[|rules| - 1];
      DropBeforeLast(rules, k);
      var f := if Fires(last, i) then last.multiplier else 1.0;
      assert BoostFactor(rules, i) == BoostFactor(init, i) * f;
      assert BoostFactor(rest, i) == BoostFactor(init[..k] + init[k + 1..], i) * f;
    }
  }

  /** Dropping an entry before the last one and then the last entry is dropping both, in either order. */
  lemma DropBeforeLast(rules: seq<Rule>, k: nat)
    requires k < |rules| - 1
    ensures var rest, init := rules[..k] + rules[k + 1..], rules[..|rules| - 1];
            |rest| == |rules| - 1 && rest[..|rest| - 1] == init[..k] + init[k + 1..] && rest[|rest| - 1] == rules[|rules| - 1]
  {
    var rest, init := rules[..k] + rules[k + 1..], rules[..|rules| - 1];
    assert rest[..|rest| - 1] == init[..k] + init[k + 1..];
  }

  /**
   * `_normalize_scores` branch by branch: no positive score gives 0 everywhere;
   * otherwise the positive scores are fitted into [1, 100], every other score is
   * set to 0, and everything is rounded.
   */
  method NormalizeScores(scores: seq<real>) returns (r: seq<real>)
    ensures r == ScriptNormalized(scores)
  {
    var n := |scores|;
    if !HasPositive(scores) {
      return Const(n, 0.0);
    }
    var normalized := scores;
    normalized := seq(n, i requires 0 <= i < n =>
                        if scores[i] > 0.0 then ScalePositive(scores, scores[i], 1.0, 100.0) else normalized[i]);
    normalized := seq(n, i requires 0 <= i < n => if scores[i] > 0.0 then normalized[i] else 0.0);
    r := seq(n, i requires 0 <= i < n => Round2(normalized[i]));
  }

  /** The three score columns `calculate_scores` writes, in order. */
  function ComponentScoreNames(): seq<string> {
    ["base_score", "boosted_score", "priority_score"]
  }

  /** The frame after the availability flag is set. */
  function Flagged(df: Frame): (r: Frame)
    requires WellFormed(df)
    ensures WellFormed(r) && r.n == df.n && "is_available" in r.cols
    ensures forall c :: c in r.cols <==> c in df.cols || c == "is_available"
    ensures forall c :: c in df.cols && c != "is_available" ==> r.cols[c] == df.cols[c]
  {
    WithCol(df, "is_available", AvailableColumn(df))
  }

  function BaseScores(df: Frame, weights: Weights): (r: seq<real>)
    requires WellFormed(df)
    ensures |r| == df.n
    ensures forall i :: 0 <= i < df.n ==> r[i] == if Gated(Flagged(df), i) then 0.0 else WeightedSum(Flagged(df), weights, i)
  {
    var f := Flagged(df);
    seq(df.n, i requires 0 <= i < df.n => if Gated(f, i) then 0.0 else WeightedSum(f, weights, i))
  }

  /** The frame `_apply_boosts` sees: the flagged frame with `base_score` written. */
  function WithBase(df: Frame, weights: Weights): (r: Frame)
    requires WellFormed(df)
    ensures WellFormed(r) && r.n == df.n
    ensures "base_score" in r.cols && r.cols["base_score"] == NumCol(BaseScores(df, weights))
    ensures forall c :: c in r.cols <==> c in df.cols || c == "is_available" || c == "base_score"
    ensures forall c :: c in df.cols && c != "is_available" && c != "base_score" ==> r.cols[c] == df.cols[c]
  {
    WithCol(Flagged(df), "base_score", NumCol(BaseScores(df, weights)))
  }

  function BoostedScores(df: Frame, weights: Weights, boosts: seq<BoostEntry>, eval: Evaluator): (r: seq<real>)
    requires WellFormed(df)
    ensures |r| == df.n
    ensures forall i :: 0 <= i < df.n ==>
              r[i] == BaseScores(df, weights)[i] * BoostFactor(EvaluatedRules(WithBase(df, weights), boosts, eval), i)
  {
    Compounded(BaseScores(df, weights), EvaluatedRules(WithBase(df, weights), boosts, eval))
  }

  function ScoreColumns(df: Frame, weights: Weights, boosts: seq<BoostEntry>, eval: Evaluator): (cols: seq<seq<Cell>>)
    requires WellFormed(df)
    ensures |cols| == 3 && forall k :: 0 <= k < 3 ==> |cols[k]| == df.n
  {
    var boosted := BoostedScores(df, weights, boosts, eval);
    [NumCol(BaseScores(df, weights)), NumCol(boosted), NumCol(ScriptNormalized(boosted))]
  }

  /** What `calculate_scores` returns: the flagged frame with the three score columns, rows in input order. */
  function ScoredFrame(df: Frame, weights: Weights, boosts: seq<BoostEntry>, eval: Evaluator): (r: Frame)
    requires WellFormed(df)
    ensures WellFormed(r) && r.n == df.n
    ensures forall c :: c in r.cols <==> c in df.cols || c == "is_available" || c in ComponentScoreNames()
    ensures forall c :: c in df.cols && c != "is_available" && c !in ComponentScoreNames() ==> r.cols[c] == df.cols[c]
    ensures "base_score" in r.cols && r.cols["base_score"] == NumCol(BaseScores(df, weights))
    ensures "boosted_score" in r.cols && r.cols["boosted_score"] == NumCol(BoostedScores(df, weights, boosts, eval))
    ensures "priority_score" in r.cols
              && r.cols["priority_score"] == NumCol(ScriptNormalized(BoostedScores(df, weights, boosts, eval)))
  {
    WithScores(Flagged(df), ScoreColumns(df, weights, boosts, eval))
  }

  /** `df[score names] = cols`: the three score columns are set, every other column is kept. */
  function WithScores(f: Frame, cols: seq<seq<Cell>>): (r: Frame)
    requires WellFormed(f) && |cols| == 3 && forall k :: 0 <= k < 3 ==> |cols[k]| == f.n
    ensures WellFormed(r) && r.n == f.n
    ensures forall c :: c in r.cols <==> c in f.cols || c in ComponentScoreNames()
    ensures forall c :: c in f.cols && c !in ComponentScoreNames() ==> r.cols[c] == f.cols[c]
    ensures "base_score" in r.cols && r.cols["base_score"] == cols[0]
    ensures "boosted_score" in r.cols && r.cols["boosted_score"] == cols[1]
    ensures "priority_score" in r.cols && r.cols["priority_score"] == cols[2]
  {
    ComponentNamesDistinct();
    WithCols(f, ComponentScoreNames(), cols)
  }

  /** The score column names are pairwise different, and the last is `priority_score`. */
  lemma ComponentNamesDistinct()
    ensures Distinct(ComponentScoreNames()) && ComponentScoreNames()[2] == "priority_score"
    ensures forall c :: c in ComponentScoreNames() <==> c == "base_score" || c == "boosted_score" || c == "priority_score"
  {
  }

  /**
   * `calculate_scores`: filter a copy, write the base score into it, evaluate the
   * boosts on that frame, then the priority score; no sort.  The three writes in
   * turn give the same frame as writing the three columns together.
   */
  method CalculateScores(df: Frame, weights: Weights, boosts: seq<BoostEntry>, eval: Evaluator) returns (out: Frame)
    requires WellFormed(df)
    ensures out == ScoredFrame(df, weights, boosts, eval)
  {
    var copy := new FrameRef(df);
    var f := ApplyTieredFiltering(copy);
    assert f == Flagged(df);
    var base := CalculateBaseScore(f, weights);
    assert base == BaseScores(df, weights);
    var withBase := WithCol(f, "base_score", NumCol(base));
    assert withBase == WithBase(df, weights);
    var boosted := ApplyBoosts(withBase, base, boosts, eval);
    assert boosted == BoostedScores(df, weights, boosts, eval);
    var priority := NormalizeScores(boosted);
    var columns := [NumCol(base), NumCol(boosted), NumCol(priority)];
    assert columns == ScoreColumns(df, weights, boosts, eval);
    ComponentNamesDistinct();
    out := WithCols(f, ComponentScoreNames(), columns);
  }

  /**
   * Every priority score is 0 or in [1, 100]; a record that is unavailable (and
   * whose boosted score is therefore 0) gets exactly 0; and a larger boosted score
   * never gets a smaller priority score.
   */
  lemma PriorityFacts(df: Frame, weights: Weights, boosts: seq<BoostEntry>, eval: Evaluator, i: nat, j: nat)
    requires WellFormed(df) && i < df.n && j < df.n
    ensures var p := ScriptNormalized(BoostedScores(df, weights, boosts, eval));
            p[i] == 0.0 || 1.0 <= p[i] <= 100.0
    ensures GateColumns(df) && Unavailable(df, i) ==>
              BaseScores(df, weights)[i] == 0.0 && ScriptNormalized(BoostedScores(df, weights, boosts, eval))[i] == 0.0
    ensures var b := BoostedScores(df, weights, boosts, eval);
            b[i] <= b[j] ==> ScriptNormalized(b)[i] <= ScriptNormalized(b)[j]
  {
    var b := BoostedScores(df, weights, boosts, eval);
    ScriptNormalizedCases(b);
    FilteredGate(df, i);
    if b[i] <= b[j] {
      ScriptNormalizedMonotone(b, i, j);
    }
  }
}
