/**
 * `CSVPartScorer` of `tests/csv_test/csv_test_scoring.py`: fill, fixed feature
 * set, robust scaling, then the packaged scorer's base score, boosts, min-max
 * normalisation, percentiles and descending sort.
 */
module CsvScorer {
  import opened Wrappers
  import opened Frames
  import opened RealMath
  import opened Strings
  import opened Features
  import opened CoreFeatures
  import opened Scoring
  import opened Ranking
  import opened PartScorer

  /** Why `score_parts` raises: a required column is absent, or the scaler fails. */
  datatype CsvError = MissingColumn(name: string) | ScalingFailed

  /** The default weights of `CSVPartScorer`. */
  function DefaultWeights(): Weights {
    [("demand_score", 0.35), ("availability_score", 0.35), ("inv_leadtime_weeks", 0.15),
     ("inv_moq", 0.10), ("is_authorized", 0.05)]
  }

  /** The first column `_engineer_features` indexes that the frame lacks, in the order it reads them. */
  function FirstMissing(df: Frame): (r: Option<string>)
    ensures r.None? <==> HasRequired(df)
  {
    if "inventory" !in df.cols then Some("inventory")
    else if "leadtime_weeks" !in df.cols then Some("leadtime_weeks")
    else if "moq" !in df.cols then Some("moq")
    else if "demand_all_time" !in df.cols then Some("demand_all_time")
    else if "source_type" !in df.cols then Some("source_type")
    else if "datasheet" !in df.cols then Some("datasheet")
    else None
  }

  predicate HasRequired(df: Frame) {
    && "inventory" in df.cols && "leadtime_weeks" in df.cols && "moq" in df.cols
    && "demand_all_time" in df.cols && "source_type" in df.cols && "datasheet" in df.cols
  }

  function FillNames(): seq<string> {
    ["inventory", "leadtime_weeks", "moq", "demand_all_time"]
  }

  /** Missing inventory, lead time and demand become 0, missing moq becomes 1. */
  function Filled(df: Frame): (r: Frame)
    requires WellFormed(df) && HasRequired(df)
    ensures WellFormed(r) && r.n == df.n && HasRequired(r)
  {
    var f1 := WithCol(df, "inventory", FillNa(df.cols["inventory"], Num(0.0)));
    var f2 := WithCol(f1, "leadtime_weeks", FillNa(df.cols["leadtime_weeks"], Num(0.0)));
    var f3 := WithCol(f2, "moq", FillNa(df.cols["moq"], Num(1.0)));
    WithCol(f3, "demand_all_time", FillNa(df.cols["demand_all_time"], Num(0.0)))
  }

  /** The required column names are pairwise different. */
  lemma RequiredNamesDiffer()
    ensures "inventory" != "leadtime_weeks" && "inventory" != "moq" && "inventory" != "demand_all_time"
    ensures "leadtime_weeks" != "moq" && "leadtime_weeks" != "demand_all_time" && "moq" != "demand_all_time"
    ensures "source_type" != "inventory" && "source_type" != "leadtime_weeks"
    ensures "source_type" != "moq" && "source_type" != "demand_all_time"
    ensures "datasheet" != "inventory" && "datasheet" != "leadtime_weeks"
    ensures "datasheet" != "moq" && "datasheet" != "demand_all_time"
  {
  }

  /** The filled frame holds the filled columns; `source_type` and `datasheet` are unchanged. */
  lemma FilledValues(df: Frame)
    requires WellFormed(df) && HasRequired(df)
    ensures Filled(df).cols["inventory"] == FillNa(df.cols["inventory"], Num(0.0))
    ensures Filled(df).cols["leadtime_weeks"] == FillNa(df.cols["leadtime_weeks"], Num(0.0))
    ensures Filled(df).cols["moq"] == FillNa(df.cols["moq"], Num(1.0))
    ensures Filled(df).cols["demand_all_time"] == FillNa(df.cols["demand_all_time"], Num(0.0))
    ensures Filled(df).cols["source_type"] == df.cols["source_type"]
    ensures Filled(df).cols["datasheet"] == df.cols["datasheet"]
  {
    RequiredNamesDiffer();
  }

  /** The features `_engineer_features` writes, in the order it writes them. */
  function FeatureNames(): seq<string> {
    ["log_inventory", "log_moq", "inv_leadtime_weeks", "inv_moq", "is_authorized", "has_datasheet",
     "in_stock", "immediate_availability", "availability_score", "demand_score"]
  }

  /** The feature names are pairwise different, and none is a required input column. */
  lemma FeatureNamesDiffer()
    ensures Distinct(FeatureNames())
    ensures "inventory" !in FeatureNames() && "leadtime_weeks" !in FeatureNames() && "moq" !in FeatureNames()
    ensures "demand_all_time" !in FeatureNames() && "source_type" !in FeatureNames() && "datasheet" !in FeatureNames()
  {
  }

  /** The availability composite from the filled inputs and the two indicators. */
  function CsvAvailability(inventory: seq<Cell>, moq: seq<Cell>, inStock: seq<Cell>, immediate: seq<Cell>): (r: seq<Cell>)
    requires |moq| == |inventory| && |inStock| == |inventory| && |immediate| == |inventory|
    ensures |r| == |inventory|
    ensures forall i :: 0 <= i < |r| ==> r[i] == AvailabilityCell(inStock[i], immediate[i], inventory[i], moq[i], true)
  {
    seq(|inventory|, i requires 0 <= i < |inventory| => AvailabilityCell(inStock[i], immediate[i], inventory[i], moq[i], true))
  }

  /**
   * The frame `_engineer_features` has built just before it scales: the log,
   * inverse, binary, availability and demand features written in the source's
   * order, each computed from the filled columns.
   */
  function Engineered(df: Frame, log1p: real -> real): (r: Frame)
    requires WellFormed(df) && HasRequired(df)
    ensures WellFormed(r) && r.n == df.n
  {
    var f := Filled(df);
    FeatureNamesDiffer();
    WithCols(f, FeatureNames(), FeatureValues(f, log1p))
  }

  /** The feature columns, each computed from the filled columns, in the order of `FeatureNames`. */
  function FeatureValues(f: Frame, log1p: real -> real): (r: seq<seq<Cell>>)
    requires WellFormed(f) && HasRequired(f)
    ensures |r| == 10 && forall k :: 0 <= k < 10 ==> |r[k]| == f.n
  {
    var inv, lead, moq := f.cols["inventory"], f.cols["leadtime_weeks"], f.cols["moq"];
    var inStock, immediate := IndicatorColumn(2, inv), IndicatorColumn(3, lead);
    [DerivedColumn(inv, LogCell(log1p)), DerivedColumn(moq, LogCell(log1p)),
     DerivedColumn(lead, InverseCell), DerivedColumn(moq, InverseCell),
     IndicatorColumn(0, f.cols["source_type"]), IndicatorColumn(1, f.cols["datasheet"]),
     inStock, immediate, CsvAvailability(inv, moq, inStock, immediate),
     FillNa(f.cols["demand_all_time"], Num(0.0))]
  }

  /** The filled columns the features are computed from. */
  function FilledLead(df: Frame): seq<Cell>
    requires HasRequired(df)
  {
    FillNa(df.cols["leadtime_weeks"], Num(0.0))
  }

  function FilledInventory(df: Frame): seq<Cell>
    requires HasRequired(df)
  {
    FillNa(df.cols["inventory"], Num(0.0))
  }

  function FilledMoq(df: Frame): seq<Cell>
    requires HasRequired(df)
  {
    FillNa(df.cols["moq"], Num(1.0))
  }

  /** The feature columns the properties below are about, in terms of the input's filled columns. */
  lemma FeatureColumns(df: Frame, log1p: real -> real)
    requires WellFormed(df) && HasRequired(df)
    ensures var e := Engineered(df, log1p);
            && "inv_leadtime_weeks" in e.cols && "inv_moq" in e.cols
            && "immediate_availability" in e.cols && "availability_score" in e.cols
            && e.cols["inv_leadtime_weeks"] == DerivedColumn(FilledLead(df), InverseCell)
            && e.cols["inv_moq"] == DerivedColumn(FilledMoq(df), InverseCell)
            && e.cols["immediate_availability"] == IndicatorColumn(3, FilledLead(df))
            && e.cols["availability_score"]
                 == CsvAvailability(FilledInventory(df), FilledMoq(df),
                                    IndicatorColumn(2, FilledInventory(df)), IndicatorColumn(3, FilledLead(df)))
  {
    FilledValues(df);
    FeatureNamesDiffer();
  }

  /** The input columns the scorer reads later keep their filled values, and all required columns stay. */
  lemma EngineeredKeeps(df: Frame, log1p: real -> real)
    requires WellFormed(df) && HasRequired(df)
    ensures var e := Engineered(df, log1p);
            && HasRequired(e)
            && e.cols["leadtime_weeks"] == FilledLead(df)
            && e.cols["inventory"] == FilledInventory(df)
            && e.cols["moq"] == FilledMoq(df)
  {
    var f := Filled(df);
    FilledValues(df);
    FeatureNamesDiffer();
    var names := FeatureNames();
    var e := WithCols(f, names, FeatureValues(f, log1p));
    assert e == Engineered(df, log1p);
    assert e.cols["inventory"] == f.cols["inventory"];
    assert e.cols["leadtime_weeks"] == f.cols["leadtime_weeks"];
    assert e.cols["moq"] == f.cols["moq"];
  }

  /**
   * `_engineer_features`: the built features, then every column starting with
   * `log_`, `inv_`, `availability_` or `demand_` (which includes `demand_all_time`)
   * filled with 0 and replaced by the scaler's output.  There is no guard around
   * the scaler here, so its failure is the failure of the whole call.
   */
  function EngineerFeatures(df: Frame, log1p: real -> real, scaler: ColumnScaler): (r: Result<Frame, CsvError>)
    requires WellFormed(df) && HasRequired(df)
    ensures r.Failure? ==> r.error == ScalingFailed
    ensures r.Success? ==> WellFormed(r.value) && r.value.n == df.n
  {
    ScaleStep(Engineered(df, log1p), scaler)
  }

  /** The scaling step: fails exactly when the scaler does, and otherwise writes the scaled columns. */
  function ScaleStep(ef: Frame, scaler: ColumnScaler): (r: Result<Frame, CsvError>)
    requires WellFormed(ef)
    ensures r.Success? <==> scaler(ScaleInput(ef)).Some?
    ensures r.Success? ==> r.value == ScaledFrame(ef, scaler)
    ensures r.Failure? ==> r.error == ScalingFailed
  {
    if scaler(ScaleInput(ef)).None? then Failure(ScalingFailed) else Success(ScaledFrame(ef, scaler))
  }

  /** What `score_parts` returns. */
  function ScoreResult(df: Frame, weights: Weights, log1p: real -> real, scaler: ColumnScaler): (r: Result<Frame, CsvError>)
    requires WellFormed(df)
    ensures df.n == 0 ==> r == Success(df)
    ensures df.n > 0 && !HasRequired(df) ==> r == Failure(MissingColumn(FirstMissing(df).value))
    ensures r.Success? ==> WellFormed(r.value) && r.value.n == df.n
  {
    if df.n == 0 then Success(df)
    else if !HasRequired(df) then Failure(MissingColumn(FirstMissing(df).value))
    else match EngineerFeatures(df, log1p, scaler)
      case Failure(e) => Failure(e)
      case Success(ef) => Success(RankedFrame(ef, weights, Packaged, true))
  }

  /**
   * `score_parts`: an empty frame comes back unchanged; otherwise features, then
   * the base score, the four fixed boosts, min-max normalisation to [0, 100],
   * percentiles and the descending sort of the packaged scorer.
   */
  method ScoreParts(df: Frame, weights: Weights, log1p: real -> real, scaler: ColumnScaler)
    returns (r: Result<Frame, CsvError>)
    requires WellFormed(df)
    ensures r == ScoreResult(df, weights, log1p, scaler)
  {
    if df.n == 0 {
      return Success(df);
    }
    var missing := FirstMissing(df);
    if missing.Some? {
      return Failure(MissingColumn(missing.value));
    }
    var features := EngineerFeatures(df, log1p, scaler);
    if features.Failure? {
      return Failure(features.error);
    }
    var out := ScoreEngineered(features.value, weights, Packaged, true);
    r := Success(out);
  }

  // ---------------------------------------------------------------- properties

  lemma LeadtimeNotScaled()
    ensures !HasScalePrefix("leadtime_weeks") && !HasScalePrefix("inventory")
    ensures !HasScalePrefix("moq") && !HasScalePrefix("source_type")
  {
    NotScalePrefixed("leadtime_weeks", 1, 0, 0, 0);
    NotScalePrefixed("inventory", 0, 3, 0, 0);
    NotScalePrefixed("moq", 0, 0, 0, 0);
    NotScalePrefixed("source_type", 0, 0, 0, 0);
  }

  /**
   * Before scaling, `inv_leadtime_weeks` and `inv_moq` (the columns
   * `FeatureColumns` names) lie in (0, 1] and do not grow with their input; a
   * missing lead time reads as 0, which gives inverse 1 and sets
   * `immediate_availability` to 1.
   */
  lemma InverseFeatureFacts(df: Frame, i: nat, j: nat)
    requires WellFormed(df) && HasRequired(df) && i < df.n && j < df.n
    ensures var inv, invMoq := DerivedColumn(FilledLead(df), InverseCell), DerivedColumn(FilledMoq(df), InverseCell);
            && inv[i].Num? && 0.0 < inv[i].x <= 1.0
            && invMoq[i].Num? && 0.0 < invMoq[i].x <= 1.0
    ensures var lead, inv := df.cols["leadtime_weeks"], DerivedColumn(FilledLead(df), InverseCell);
            lead[i].Num? && lead[j].Num? && lead[i].x <= lead[j].x ==> inv[j].x <= inv[i].x
    ensures var moq, invMoq := df.cols["moq"], DerivedColumn(FilledMoq(df), InverseCell);
            moq[i].Num? && moq[j].Num? && moq[i].x <= moq[j].x ==> invMoq[j].x <= invMoq[i].x
    ensures var lead := df.cols["leadtime_weeks"];
            lead[i].Missing? ==>
              DerivedColumn(FilledLead(df), InverseCell)[i] == Num(1.0)
              && IndicatorColumn(3, FilledLead(df))[i] == Num(1.0)
  {
    var lead := df.cols["leadtime_weeks"];
    if lead[i].Num? && lead[j].Num? && lead[i].x <= lead[j].x {
      ClippedInverseAntitone(lead[i].x, lead[j].x);
    }
    var moq := df.cols["moq"];
    if moq[i].Num? && moq[j].Num? && moq[i].x <= moq[j].x {
      ClippedInverseAntitone(moq[i].x, moq[j].x);
    }
  }

  /**
   * Before scaling, `availability_score` (the column `FeatureColumns` names)
   * lies in [0, 2] on every record whose inventory and moq are not text.
   */
  lemma AvailabilityFacts(df: Frame, i: nat)
    requires WellFormed(df) && HasRequired(df) && i < df.n
    requires !df.cols["inventory"][i].Text? && !df.cols["moq"][i].Text?
    ensures var a := CsvAvailability(FilledInventory(df), FilledMoq(df),
                                     IndicatorColumn(2, FilledInventory(df)), IndicatorColumn(3, FilledLead(df)));
            a[i].Num? && 0.0 <= a[i].x <= 2.0
  {
  }

  /** `leadtime_weeks` is not a scaled column, so the scaled frame keeps its filled values. */
  lemma ScaledLeadtime(df: Frame, log1p: real -> real, scaler: ColumnScaler)
    requires WellFormed(df) && HasRequired(df) && EngineerFeatures(df, log1p, scaler).Success?
    ensures var s := EngineerFeatures(df, log1p, scaler).value;
            "leadtime_weeks" in s.cols && s.cols["leadtime_weeks"] == FilledLead(df)
  {
    LeadtimeNotScaled();
    EngineeredKeeps(df, log1p);
  }

  /**
   * A record whose lead time is missing earns the immediate-ship boost: the filled
   * lead time is 0, it is not a scaled column, and the rule's mask holds there.
   */
  lemma MissingLeadtimeEarnsImmediateShip(df: Frame, log1p: real -> real, scaler: ColumnScaler, i: nat)
    requires WellFormed(df) && HasRequired(df) && i < df.n && df.cols["leadtime_weeks"][i].Missing?
    requires EngineerFeatures(df, log1p, scaler).Success?
    ensures Fires(FixedRules(EngineerFeatures(df, log1p, scaler).value)[1], i)
  {
    var s := EngineerFeatures(df, log1p, scaler).value;
    ScaledLeadtime(df, log1p, scaler);
    assert s == ScaledFrame(Engineered(df, log1p), scaler);
    assert s.n == df.n;
    assert s.cols["leadtime_weeks"][i] == Num(0.0);
    ImmediateShipFires(s, i);
  }

  /**
   * On the engineered frame the gate columns and the four boost columns always
   * exist, so the packaged scorer's conditional gate and skipped rules reduce to
   * the CSV scorer's unconditional ones.
   */
  lemma CsvGateAndRulesAlwaysApply(df: Frame, log1p: real -> real, scaler: ColumnScaler)
    requires WellFormed(df) && HasRequired(df) && EngineerFeatures(df, log1p, scaler).Success?
    ensures GateColumns(EngineerFeatures(df, log1p, scaler).value)
    ensures forall k :: 0 <= k < 4 ==> FixedRules(EngineerFeatures(df, log1p, scaler).value)[k].mask.Some?
  {
    EngineeredKeeps(df, log1p);
    var e := Engineered(df, log1p);
    var s := EngineerFeatures(df, log1p, scaler).value;
    assert s == ScaledFrame(e, scaler);
    assert HasRequired(s);
    RequiredRulesApply(s);
  }

  /** On any frame with the required columns the gate applies and every fixed rule has a mask. */
  lemma RequiredRulesApply(s: Frame)
    requires HasRequired(s)
    ensures GateColumns(s)
    ensures forall k :: 0 <= k < 4 ==> FixedRules(s)[k].mask.Some?
  {
    var rules := FixedRules(s);
    assert rules[0].mask.Some? && rules[1].mask.Some? && rules[2].mask.Some? && rules[3].mask.Some?;
  }

  /** A non-empty frame that lacks a required column fails naming that column; one with all of them never does. */
  lemma MissingColumnFails(df: Frame, weights: Weights, log1p: real -> real, scaler: ColumnScaler)
    requires WellFormed(df) && df.n > 0
    ensures (ScoreResult(df, weights, log1p, scaler).Failure? && ScoreResult(df, weights, log1p, scaler).error.MissingColumn?)
            <==> !HasRequired(df)
    ensures !HasRequired(df) ==> FirstMissing(df).value !in df.cols
  {
    var r := ScoreResult(df, weights, log1p, scaler);
    if HasRequired(df) {
      var e := EngineerFeatures(df, log1p, scaler);
      assert r == if e.Failure? then Failure(e.error) else Success(RankedFrame(e.value, weights, Packaged, true));
    }
  }

  /** A successful result keeps the row count and is sorted by priority score, highest first. */
  lemma ResultSorted(df: Frame, weights: Weights, log1p: real -> real, scaler: ColumnScaler, a: nat, b: nat)
    requires WellFormed(df) && df.n > 0 && ScoreResult(df, weights, log1p, scaler).Success?
    ensures var r := ScoreResult(df, weights, log1p, scaler).value;
            r.n == df.n
            && (a < b < df.n ==>
                  "priority_score" in r.cols
                  && r.cols["priority_score"][a].Num? && r.cols["priority_score"][b].Num?
                  && r.cols["priority_score"][a].x >= r.cols["priority_score"][b].x)
  {
    var e := EngineerFeatures(df, log1p, scaler);
    assert e.Success?;
    var ef := e.value;
    assert ScoreResult(df, weights, log1p, scaler).value == RankedFrame(ef, weights, Packaged, true);
    if a < b < df.n {
      RankedIsSorted(ef, weights, Packaged, true, a, b);
    }
  }
}
