/**
 * `src/core/enhanced_scorer.py`: the availability filter with its tiers, the
 * composite features, the gated weighted score, the configured business boosts
 * with their string-dispatched conditions, the final normaliser and the percentile
 * ranks of the enhanced scorer.
 */
module EnhancedScorer {
  import opened Wrappers
  import opened Frames
  import opened RealMath
  import opened Strings
  import opened Features
  import opened Scoring
  import opened Normalize
  import opened Ranking

  // ---------------------------------------------------------------- availability filter

  /** The availability tier of one record (NaN comparisons are false, so a missing value lands in tier 4). */
  function Tier(inventory: Cell, leadtime: Cell): int {
    if Gt(inventory, 0.0) && Eq(leadtime, 0.0) then 1
    else if Gt(inventory, 0.0) && Le(leadtime, 4.0) then 2
    else if Gt(inventory, 0.0) && Le(leadtime, 12.0) then 3
    else 4
  }

  /** For a record in stock the tier grows with the lead time; out of stock it is always 4. */
  lemma TierOrder(inventory: Cell, lead1: real, lead2: real)
    requires 0.0 <= lead1 <= lead2
    ensures 1 <= Tier(inventory, Num(lead1)) <= Tier(inventory, Num(lead2)) <= 4
    ensures !Gt(inventory, 0.0) ==> Tier(inventory, Num(lead1)) == 4
    ensures Gt(inventory, 0.0) && lead2 <= 12.0 ==> Tier(inventory, Num(lead2)) < 4
  {
  }

  /**
   * The tier writes through `df.loc`: start at 0, write 1 on the immediate mask,
   * 2 on short-term but not immediate, 3 on medium-term but not short-term, and
   * finally 4 wherever the tier is still 0.
   */
  method AssignTiers(inventory: seq<Cell>, leadtime: seq<Cell>) returns (tier: seq<int>)
    requires |inventory| == |leadtime|
    ensures |tier| == |inventory|
    ensures forall i :: 0 <= i < |tier| ==> tier[i] == Tier(inventory[i], leadtime[i])
  {
    var n := |inventory|;
    var immediate := seq(n, i requires 0 <= i < n => Gt(inventory[i], 0.0) && Eq(leadtime[i], 0.0));
    var shortTerm := seq(n, i requires 0 <= i < n => Gt(inventory[i], 0.0) && Le(leadtime[i], 4.0));
    var mediumTerm := seq(n, i requires 0 <= i < n => Gt(inventory[i], 0.0) && Le(leadtime[i], 12.0));
    tier := seq(n, i => 0);
    tier := seq(n, i requires 0 <= i < n => if immediate[i] then 1 else tier[i]);
    tier := seq(n, i requires 0 <= i < n => if shortTerm[i] && !immediate[i] then 2 else tier[i]);
    tier := seq(n, i requires 0 <= i < n => if mediumTerm[i] && !shortTerm[i] then 3 else tier[i]);
    tier := seq(n, i requires 0 <= i < n => if tier[i] == 0 then 4 else tier[i]);
  }

  function TierColumn(df: Frame): (r: seq<Cell>)
    ensures |r| == df.n
    ensures forall i :: 0 <= i < df.n ==> r[i] == Num(Tier(CellAt(df, "inventory", i), CellAt(df, "leadtime_weeks", i)) as real)
  {
    seq(df.n, i requires 0 <= i < df.n => Num(Tier(CellAt(df, "inventory", i), CellAt(df, "leadtime_weeks", i)) as real))
  }

  /** The frame the filter produces: `is_available` and `availability_tier` added. */
  function FilteredFrame(df: Frame): (r: Frame)
    requires WellFormed(df)
    ensures WellFormed(r) && r.n == df.n
    ensures r.cols == df.cols["is_available" := AvailableColumn(df)]["availability_tier" := TierColumn(df)]
  {
    WithCol(WithCol(df, "is_available", AvailableColumn(df)), "availability_tier", TierColumn(df))
  }

  /**
   * `_apply_availability_filter` as written: the tier masks read `df['inventory']`
   * and `df['leadtime_weeks']` unconditionally, so a frame lacking either column
   * raises `KeyError` and the all-available fallback is never returned.
   */
  function AvailabilityFilterAsWritten(df: Frame): (r: Result<Frame, string>)
    requires WellFormed(df)
  {
    if GateColumns(df) then Success(FilteredFrame(df)) else Failure("KeyError")
  }

  /** The as-written filter fails on every frame without both gate columns, e.g. one with only `pn`. */
  lemma AvailabilityFilterAsWrittenFails(df: Frame)
    requires WellFormed(df)
    ensures AvailabilityFilterAsWritten(df).Failure? <==> !GateColumns(df)
    ensures AvailabilityFilterAsWritten(Frame(1, ["pn"], map["pn" := [Text("P1")]])).Failure?
  {
    var p := Frame(1, ["pn"], map["pn" := [Text("P1")]]);
    assert WellFormed(p);
    assert "inventory" !in p.cols;
  }

  /**
   * `_apply_availability_filter` as intended: `is_available` is false exactly for
   * records with no stock and more than 12 weeks of lead time, every record is
   * available when a gate column is absent, and every record gets one tier (an
   * absent column reads as missing, which puts the record in tier 4).
   */
  method ApplyAvailabilityFilter(df: Frame) returns (out: Frame)
    requires WellFormed(df)
    ensures out == FilteredFrame(df)
  {
    var inventory := seq(df.n, i requires 0 <= i < df.n => CellAt(df, "inventory", i));
    var leadtime := seq(df.n, i requires 0 <= i < df.n => CellAt(df, "leadtime_weeks", i));
    out := WithCol(df, "is_available", AvailableColumn(df));
    var tier := AssignTiers(inventory, leadtime);
    var tierCells := seq(df.n, i requires 0 <= i < df.n => Num(tier[i] as real));
    assert tierCells == TierColumn(df);
    out := WithCol(out, "availability_tier", tierCells);
    assert "is_available" != "availability_tier";
  }

  /**
   * What the filter's frame holds: `is_available` is 0 exactly for the unavailable
   * records (and 1 everywhere when a gate column is absent), every record has a
   * tier from 1 to 4, and no other column changes.
   */
  lemma FilteredFrameFacts(df: Frame, i: nat)
    requires WellFormed(df) && i < df.n
    ensures "is_available" in FilteredFrame(df).cols && "availability_tier" in FilteredFrame(df).cols
    ensures FilteredFrame(df).cols["is_available"][i] == Num(0.0) <==> GateColumns(df) && Unavailable(df, i)
    ensures !GateColumns(df) ==> FilteredFrame(df).cols["is_available"][i] == Num(1.0)
    ensures FilteredFrame(df).cols["availability_tier"][i] in {Num(1.0), Num(2.0), Num(3.0), Num(4.0)}
  {
    var r := FilteredFrame(df);
    assert "is_available" != "availability_tier";
    assert r.cols["is_available"][i] == Num(Ind(AvailableAt(df, i)));
    var t := Tier(CellAt(df, "inventory", i), CellAt(df, "leadtime_weeks", i));
    assert r.cols["availability_tier"][i] == Num(t as real);
  }

  /** Outside the two columns it writes, the filter leaves the frame unchanged. */
  lemma FilteredFrameKeeps(df: Frame, c: string)
    requires WellFormed(df) && c in df.cols && c != "is_available" && c != "availability_tier"
    ensures c in FilteredFrame(df).cols && FilteredFrame(df).cols[c] == df.cols[c]
  {
  }

  // ---------------------------------------------------------------- composite features

  /** `inv_price * 0.6 + inv_moq * 0.4`, or the constant 0 when either column is absent. */
  function EconomicColumn(df: Frame): (r: seq<Cell>)
    ensures |r| == df.n
    ensures "inv_price" in df.cols && "inv_moq" in df.cols ==> forall i :: 0 <= i < df.n ==>
              r[i] == (var p, m := CellAt(df, "inv_price", i), CellAt(df, "inv_moq", i);
                       if p.Num? && m.Num? then Num(p.x * 0.6 + m.x * 0.4) else Missing)
    ensures !("inv_price" in df.cols && "inv_moq" in df.cols) ==> forall i :: 0 <= i < df.n ==> r[i] == Num(0.0)
  {
    seq(df.n, i requires 0 <= i < df.n =>
      if "inv_price" in df.cols && "inv_moq" in df.cols then
        var p, m := CellAt(df, "inv_price", i), CellAt(df, "inv_moq", i);
        if p.Num? && m.Num? then Num(p.x * 0.6 + m.x * 0.4) else Missing
      else Num(0.0))
  }

  /** A cell holding a number in (0, 1], as an unscaled inverse feature does. */
  predicate InUnit(c: Cell) {
    c.Num? && 0.0 < c.x <= 1.0
  }

  /**
   * Where `inv_price` and `inv_moq` hold numbers in (0, 1], as they do before the
   * robust scaling runs, the economic score is a number in (0, 1]; without both
   * columns it is 0 everywhere.
   */
  lemma EconomicBounds(df: Frame)
    requires WellFormed(df)
    ensures "inv_price" in df.cols && "inv_moq" in df.cols ==>
              forall i :: 0 <= i < df.n && InUnit(df.cols["inv_price"][i]) && InUnit(df.cols["inv_moq"][i]) ==>
                InUnit(EconomicColumn(df)[i])
    ensures !("inv_price" in df.cols && "inv_moq" in df.cols) ==>
              forall i :: 0 <= i < df.n ==> EconomicColumn(df)[i] == Num(0.0)
  {
    var r := EconomicColumn(df);
    if "inv_price" in df.cols && "inv_moq" in df.cols {
      forall i | 0 <= i < df.n && InUnit(df.cols["inv_price"][i]) && InUnit(df.cols["inv_moq"][i])
        ensures InUnit(r[i])
      {
        var p, m := df.cols["inv_price"][i].x, df.cols["inv_moq"][i].x;
        assert r[i] == Num(p * 0.6 + m * 0.4);
      }
    }
  }

  /** `demand_all_time` with missing as 0, or the constant 0 when the column is absent. */
  function DemandColumn(df: Frame): (r: seq<Cell>)
    requires WellFormed(df)
    ensures |r| == df.n && forall i :: 0 <= i < df.n ==> !r[i].Missing?
    ensures "demand_all_time" in df.cols ==> r == FillNa(df.cols["demand_all_time"], Num(0.0))
    ensures "demand_all_time" !in df.cols ==> forall i :: 0 <= i < df.n ==> r[i] == Num(0.0)
  {
    if "demand_all_time" in df.cols then FillNa(df.cols["demand_all_time"], Num(0.0))
    else seq(df.n, i => Num(0.0))
  }

  /**
   * The frame `_create_composite_features` returns: `availability_score` when
   * inventory and moq both exist (the same clipped formula as the core engineer),
   * then always a `demand_score` and an `economic_score`.
   */
  function CompositeFrame(df: Frame): (r: Frame)
    requires WellFormed(df)
    ensures WellFormed(r) && r.n == df.n
    ensures var d1 := WithAvailabilityScore(df);
            r.cols == d1.cols["demand_score" := DemandColumn(d1)]["economic_score" := EconomicColumn(df)]
  {
    var d1 := WithAvailabilityScore(df);
    var d2 := WithCol(d1, "demand_score", DemandColumn(d1));
    EconomicAgrees(d2, df);
    WithCol(d2, "economic_score", EconomicColumn(d2))
  }

  /** Frames that agree on `inv_price` and `inv_moq` have the same economic score. */
  lemma EconomicAgrees(a: Frame, b: Frame)
    requires a.n == b.n
    requires ("inv_price" in a.cols <==> "inv_price" in b.cols) && ("inv_moq" in a.cols <==> "inv_moq" in b.cols)
    requires "inv_price" in a.cols ==> a.cols["inv_price"] == b.cols["inv_price"]
    requires "inv_moq" in a.cols ==> a.cols["inv_moq"] == b.cols["inv_moq"]
    ensures EconomicColumn(a) == EconomicColumn(b)
  {
    forall i | 0 <= i < a.n
      ensures EconomicColumn(a)[i] == EconomicColumn(b)[i]
    {
      assert CellAt(a, "inv_price", i) == CellAt(b, "inv_price", i);
      assert CellAt(a, "inv_moq", i) == CellAt(b, "inv_moq", i);
    }
  }

  /** `_create_composite_features`, one column write at a time. */
  method CreateCompositeFeatures(df: Frame) returns (out: Frame)
    requires WellFormed(df)
    ensures out == CompositeFrame(df)
  {
    var d1 := WithAvailabilityScore(df);
    var d2 := WithCol(d1, "demand_score", DemandColumn(d1));
    out := WithCol(d2, "economic_score", EconomicColumn(d2));
    EconomicAgrees(d2, df);
  }

  /** The composite frame holds `availability_score` exactly when the input did or could compute it, with the clipped score. */
  lemma CompositeAvailability(df: Frame)
    requires WellFormed(df)
    ensures "availability_score" in CompositeFrame(df).cols <==>
              "availability_score" in df.cols || ("inventory" in df.cols && "moq" in df.cols)
    ensures "inventory" in df.cols && "moq" in df.cols ==>
              CompositeFrame(df).cols["availability_score"] == AvailabilityColumn(df, true)
  {
    assert "availability_score" != "demand_score" && "availability_score" != "economic_score";
  }

  /** `demand_score` is always present and never missing; it is the filled demand when that column exists. */
  lemma CompositeDemand(df: Frame)
    requires WellFormed(df)
    ensures "demand_score" in CompositeFrame(df).cols && "economic_score" in CompositeFrame(df).cols
    ensures forall i :: 0 <= i < df.n ==> !CompositeFrame(df).cols["demand_score"][i].Missing?
    ensures "demand_all_time" in df.cols ==>
              CompositeFrame(df).cols["demand_score"] == FillNa(df.cols["demand_all_time"], Num(0.0))
    ensures "demand_all_time" !in df.cols ==> forall i :: 0 <= i < df.n ==> CompositeFrame(df).cols["demand_score"][i] == Num(0.0)
  {
    var d1 := WithAvailabilityScore(df);
    assert "demand_score" != "economic_score";
    assert "demand_all_time" != "availability_score";
    assert "demand_all_time" in d1.cols <==> "demand_all_time" in df.cols;
    assert "demand_all_time" in df.cols ==> d1.cols["demand_all_time"] == df.cols["demand_all_time"];
  }

  /** Every input column survives, and only the three composite columns may change. */
  lemma CompositeKeeps(df: Frame, c: string)
    requires WellFormed(df) && c in df.cols
    ensures c in CompositeFrame(df).cols
    ensures c != "availability_score" && c != "demand_score" && c != "economic_score" ==>
              CompositeFrame(df).cols[c] == df.cols[c]
  {
  }

  // ---------------------------------------------------------------- weighted score

  /**
   * `_calculate_weighted_score`: the weighted sum over present weight columns
   * (missing as 0), with every record whose `is_available` is false set to 0.
   */
  method CalculateWeightedScore(df: Frame, weights: Weights) returns (base: seq<real>)
    requires WellFormed(df)
    ensures |base| == df.n
    ensures forall i :: 0 <= i < df.n ==> base[i] == if Gated(df, i) then 0.0 else WeightedSum(df, weights, i)
  {
    var zeroed := seq(df.n, i requires 0 <= i < df.n => Gated(df, i));
    base := WeightedBaseScore(df, weights, zeroed);
  }

  /** After the filter, a record is gated exactly when both gate columns exist and it is unavailable. */
  lemma FilteredGate(df: Frame, i: nat)
    requires WellFormed(df) && i < df.n
    ensures Gated(FilteredFrame(df), i) <==> GateColumns(df) && Unavailable(df, i)
  {
    assert FilteredFrame(df).cols["is_available"] == AvailableColumn(df) by {
      assert "is_available" != "availability_tier";
    }
  }

  // ---------------------------------------------------------------- business boosts

  /** The condition forms `_safe_eval_condition` recognises. */
  datatype Condition =
    | AmpleStock | ImmediateShip | AuthorizedSource | DatasheetFlag | DemandAndCheap | UnknownCondition

  /** The substring dispatch, in its order: the first pattern the condition text contains wins. */
  function ClassifyCondition(s: string): Condition {
    if Contains(s, "inventory >= 10 * moq") then AmpleStock
    else if Contains(s, "leadtime_weeks == 0") then ImmediateShip
    else if Contains(s, "source_type == 'Authorized'") then AuthorizedSource
    else if Contains(s, "has_datasheet == 1") then DatasheetFlag
    else if Contains(s, "demand_all_time > 100 AND first_price < 10") then DemandAndCheap
    else UnknownCondition
  }

  /** A pattern longer than the text cannot be contained in it. */
  lemma TooLongNotContained(s: string, p: string)
    requires |s| < |p|
    ensures !Contains(s, p)
  {
  }

  lemma ContainsItself(s: string)
    ensures Contains(s, s)
  {
    assert WindowAt(s, s, 0);
  }

  /** The exact condition texts of the default configuration dispatch to their own forms. */
  lemma KnownConditions()
    ensures ClassifyCondition("inventory >= 10 * moq") == AmpleStock
    ensures ClassifyCondition("leadtime_weeks == 0") == ImmediateShip
    ensures ClassifyCondition("has_datasheet == 1") == DatasheetFlag
  {
    ContainsItself("inventory >= 10 * moq");
    ContainsItself("leadtime_weeks == 0");
    ContainsItself("has_datasheet == 1");
    TooLongNotContained("leadtime_weeks == 0", "inventory >= 10 * moq");
    TooLongNotContained("has_datasheet == 1", "inventory >= 10 * moq");
    TooLongNotContained("has_datasheet == 1", "leadtime_weeks == 0");
    TooLongNotContained("has_datasheet == 1", "source_type == 'Authorized'");
  }

  /**
   * The mask of a recognised condition; `None` when the condition is unknown or a
   * column it reads is absent (the `KeyError` is caught).  `df.get('has_datasheet', 0)`
   * yields the scalar `False` without the column, whose `.sum()` raises, so that rule
   * is skipped as well.
   */
  function EvalCondition(df: Frame, c: Condition): (r: Option<seq<bool>>)
    ensures r.Some? ==> |r.value| == df.n
    ensures c.UnknownCondition? ==> r.None?
  {
    match c
    case AmpleStock =>
      if "inventory" in df.cols && "moq" in df.cols then
        Some(seq(df.n, i requires 0 <= i < df.n => var inv, moq := CellAt(df, "inventory", i), CellAt(df, "moq", i);
                            inv.Num? && moq.Num? && inv.x >= 10.0 * moq.x))
      else None
    case ImmediateShip =>
      if "leadtime_weeks" in df.cols then Some(seq(df.n, i requires 0 <= i < df.n => Eq(CellAt(df, "leadtime_weeks", i), 0.0))) else None
    case AuthorizedSource =>
      if "source_type" in df.cols then Some(seq(df.n, i requires 0 <= i < df.n => TextIs(CellAt(df, "source_type", i), "Authorized"))) else None
    case DatasheetFlag =>
      if "has_datasheet" in df.cols then Some(seq(df.n, i requires 0 <= i < df.n => Eq(CellAt(df, "has_datasheet", i), 1.0))) else None
    case DemandAndCheap =>
      if "demand_all_time" in df.cols && "first_price" in df.cols then
        Some(seq(df.n, i requires 0 <= i < df.n => Gt(CellAt(df, "demand_all_time", i), 100.0) && Lt(CellAt(df, "first_price", i), 10.0)))
      else None
    case UnknownCondition => None
  }

  /** `_safe_eval_condition`. */
  function SafeEvalCondition(df: Frame, condition: string): Option<seq<bool>> {
    EvalCondition(df, ClassifyCondition(condition))
  }

  /** The rules of a boost configuration, each with its evaluated mask. */
  function BoostRules(df: Frame, boosts: seq<BoostEntry>): (rules: seq<Rule>)
    ensures |rules| == |boosts|
    ensures forall k :: 0 <= k < |boosts| ==>
              rules[k] == Rule(SafeEvalCondition(df, boosts[k].condition), boosts[k].multiplier)
  {
    seq(|boosts|, k requires 0 <= k < |boosts| => Rule(SafeEvalCondition(df, boosts[k].condition), boosts[k].multiplier))
  }

  /** An unknown condition, or one reading an absent column, never fires. */
  lemma SkippedConditionNeverFires(df: Frame, boosts: seq<BoostEntry>, k: nat, i: nat)
    requires k < |boosts|
    requires ClassifyCondition(boosts[k].condition) == UnknownCondition
             || (ClassifyCondition(boosts[k].condition) == DatasheetFlag && "has_datasheet" !in df.cols)
    ensures !Fires(BoostRules(df, boosts)[k], i)
  {
  }

  /**
   * `_apply_business_boosts`: each configured rule, in configuration order,
   * multiplies the scores where its mask holds; the result is the base score times
   * the product of the firing multipliers, and a base of 0 stays 0.
   */
  method ApplyBusinessBoosts(df: Frame, base: seq<real>, boosts: seq<BoostEntry>) returns (boosted: seq<real>)
    ensures boosted == Compounded(base, BoostRules(df, boosts))
    ensures forall i :: 0 <= i < |base| && base[i] == 0.0 ==> boosted[i] == 0.0
  {
    boosted := CompoundBoosts(base, BoostRules(df, boosts));
  }

  // ---------------------------------------------------------------- normalisation

  /**
   * `_normalize_final_scores`, written as the source writes it: the edge cases
   * first, then the positive scores of a copy replaced by the scaler's output,
   * raised to at least 1, and the whole series rounded.
   */
  method NormalizeFinalScores(scores: seq<real>) returns (r: seq<real>)
    ensures r == EnhancedNormalized(scores)
  {
    var n := |scores|;
    if n == 0 {
      return [];
    }
    if SeqMax(scores) == SeqMin(scores) {
      return Const(n, 50.0);
    }
    if !HasPositive(scores) {
      return Const(n, 0.0);
    }
    var normalized := scores;
    normalized := seq(n, i requires 0 <= i < n =>
                        if scores[i] > 0.0 then ScalePositive(scores, scores[i], 0.0, 100.0) else normalized[i]);
    normalized := seq(n, i requires 0 <= i < n => if scores[i] > 0.0 then Max(normalized[i], 1.0) else normalized[i]);
    r := seq(n, i requires 0 <= i < n => Round2(normalized[i]));
  }

  // ---------------------------------------------------------------- scoring steps 3 to 6

  /** The base score of every record: gated weighted sum. */
  function BaseScores(df: Frame, weights: Weights): (r: seq<real>)
    ensures |r| == df.n
    ensures forall i :: 0 <= i < df.n ==> r[i] == if Gated(df, i) then 0.0 else WeightedSum(df, weights, i)
  {
    seq(df.n, i requires 0 <= i < df.n => if Gated(df, i) then 0.0 else WeightedSum(df, weights, i))
  }

  function BoostedScores(df: Frame, weights: Weights, boosts: seq<BoostEntry>): (r: seq<real>)
    ensures |r| == df.n
  {
    Compounded(BaseScores(df, weights), BoostRules(df, boosts))
  }

  /** The four score columns in `ScoreNames` order. */
  function ScoreColumns(df: Frame, weights: Weights, boosts: seq<BoostEntry>): (cols: seq<seq<Cell>>)
    ensures |cols| == 4 && forall k :: 0 <= k < 4 ==> |cols[k]| == df.n
  {
    var base := BaseScores(df, weights);
    var boosted := BoostedScores(df, weights, boosts);
    var priority := EnhancedNormalized(boosted);
    FourColumns(base, boosted, priority, Percentiles(priority), df.n);
    [NumCol(base), NumCol(boosted), NumCol(priority), NumCol(Percentiles(priority))]
  }

  /** The engineered frame with the score columns written. */
  function ScoredFrame(df: Frame, weights: Weights, boosts: seq<BoostEntry>): (r: Frame)
    requires WellFormed(df)
    ensures WellFormed(r) && r.n == df.n
    ensures forall c :: c in r.cols <==> c in df.cols || c in ScoreNames()
    ensures forall c :: c in df.cols && c !in ScoreNames() ==> r.cols[c] == df.cols[c]
    ensures forall k :: 0 <= k < 4 ==> r.cols[ScoreNames()[k]] == ScoreColumns(df, weights, boosts)[k]
  {
    assert Distinct(ScoreNames());
    WithCols(df, ScoreNames(), ScoreColumns(df, weights, boosts))
  }

  /**
   * Steps 3 to 6 of `calculate_scores` on the engineered frame: base, boosted and
   * priority scores and the percentile of each priority score.
   */
  method ScoreEngineered(df: Frame, weights: Weights, boosts: seq<BoostEntry>) returns (out: Frame)
    requires WellFormed(df)
    ensures out == ScoredFrame(df, weights, boosts)
  {
    var base := CalculateWeightedScore(df, weights);
    assert base == BaseScores(df, weights);
    var boosted := ApplyBusinessBoosts(df, base, boosts);
    assert boosted == BoostedScores(df, weights, boosts);
    var priority := NormalizeFinalScores(boosted);
    var percentile := Percentiles(priority);
    assert [NumCol(base), NumCol(boosted), NumCol(priority), NumCol(percentile)] == ScoreColumns(df, weights, boosts);
    ScoreNamesDistinct();
    out := WithCols(df, ScoreNames(), [NumCol(base), NumCol(boosted), NumCol(priority), NumCol(percentile)]);
  }

  /**
   * What the scored frame holds: the priority score is the enhanced normalisation
   * of the boosted score (in the ordinary branch positive scores land in [1, 100]
   * and the others keep their rounded value, which may be negative), and the
   * percentile of each record lies in (0, 100] and follows the priority order.
   */
  lemma ScoredFrameFacts(df: Frame, weights: Weights, boosts: seq<BoostEntry>, i: nat, j: nat)
    requires WellFormed(df) && i < df.n && j < df.n
    ensures "priority_score" in ScoredFrame(df, weights, boosts).cols
    ensures "score_percentile" in ScoredFrame(df, weights, boosts).cols
    ensures ScoredFrame(df, weights, boosts).cols["priority_score"]
              == NumCol(EnhancedNormalized(BoostedScores(df, weights, boosts)))
    ensures var pr := EnhancedNormalized(BoostedScores(df, weights, boosts));
            ScoredFrame(df, weights, boosts).cols["score_percentile"] == NumCol(Percentiles(pr))
            && 0.0 < Percentiles(pr)[i] <= 100.0
            && (pr[i] < pr[j] ==> Percentiles(pr)[i] < Percentiles(pr)[j])
  {
    var r := ScoredFrame(df, weights, boosts);
    ScoreNamesDistinct();
    var boosted := BoostedScores(df, weights, boosts);
    EnhancedNormalizedCases(boosted);
    var pr := EnhancedNormalized(boosted);
    var cols := ScoreColumns(df, weights, boosts);
    assert cols[2] == NumCol(pr) && cols[3] == NumCol(Percentiles(pr));
    assert r.cols[ScoreNames()[2]] == cols[2] && r.cols[ScoreNames()[3]] == cols[3];
    PercentileBounds(pr, i);
    PercentileOrder(pr, i, j);
  }

  /** Every record the filter marks unavailable has base and boosted score exactly 0, whatever the weights and rules. */
  lemma UnavailableScoresZero(df: Frame, weights: Weights, boosts: seq<BoostEntry>, i: nat)
    requires WellFormed(df) && i < df.n && GateColumns(df) && Unavailable(df, i)
    ensures BaseScores(FilteredFrame(df), weights)[i] == 0.0
    ensures BoostedScores(FilteredFrame(df), weights, boosts)[i] == 0.0
  {
    FilteredGate(df, i);
  }
}
