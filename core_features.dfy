/**
 * `core/feature_engineer.py`: the feature engineer the core scorer runs before
 * scoring.  `log1p` and the robust scaler are given functions.
 */
module CoreFeatures {
  import opened Wrappers
  import opened Frames
  import opened RealMath
  import opened Strings
  import opened Features

  /** The keys of the feature configuration the engineer reads; `None` when a key is absent. */
  datatype FeatureConfig = FeatureConfig(logTransforms: Option<seq<string>>, inverseTransforms: Option<seq<string>>)

  function LogFields(config: FeatureConfig): seq<string> {
    config.logTransforms.GetOr(["inventory", "first_price", "moq"])
  }

  function InverseFields(config: FeatureConfig): seq<string> {
    config.inverseTransforms.GetOr(["leadtime_weeks", "first_price", "moq"])
  }

  /** `np.log1p(x.clip(lower=0))` for a given `log1p`. */
  function LogCell(log1p: real -> real): real -> Cell {
    x => Num(log1p(Max(x, 0.0)))
  }

  /** `1 / (1 + x.clip(lower=0))`. */
  function InverseCell(x: real): Cell {
    Num(ClippedInverse(x))
  }

  /** `_create_log_features`: `log_f` for each configured field `f` that is a column. */
  method CreateLogFeatures(df: Frame, config: FeatureConfig, log1p: real -> real) returns (out: Frame)
    requires WellFormed(df)
    ensures out == DeriveAll(df, LogFields(config), "log_", OwnColumn, LogCell(log1p))
  {
    out := DeriveColumns(df, LogFields(config), "log_", OwnColumn, LogCell(log1p));
  }

  /** `_create_inverse_features`: `inv_f` for each configured field `f` that is a column. */
  method CreateInverseFeatures(df: Frame, config: FeatureConfig) returns (out: Frame)
    requires WellFormed(df)
    ensures out == DeriveAll(df, InverseFields(config), "inv_", OwnColumn, InverseCell)
  {
    out := DeriveColumns(df, InverseFields(config), "inv_", OwnColumn, InverseCell);
  }

  /**
   * Every inverse feature lies in (0, 1], and it is exactly 1 where the source value
   * is missing or not positive.
   */
  lemma InverseFeatureRange(df: Frame, config: FeatureConfig, k: nat, i: nat)
    requires WellFormed(df) && PrefixFree(InverseFields(config), "inv_")
    requires k < |InverseFields(config)| && InverseFields(config)[k] in df.cols && i < df.n
    ensures var r := DeriveAll(df, InverseFields(config), "inv_", OwnColumn, InverseCell);
            var c := "inv_" + InverseFields(config)[k];
            var x := df.cols[InverseFields(config)[k]][i];
            && c in r.cols && r.cols[c][i].Num?
            && 0.0 < r.cols[c][i].x <= 1.0
            && ((x.Missing? || Le(x, 0.0)) ==> r.cols[c][i].x == 1.0)
  {
    var fields := InverseFields(config);
    DeriveAllValues(df, fields, "inv_", OwnColumn, InverseCell, k, fields[k]);
  }

  /** Inverse features do not increase as the source value grows. */
  lemma InverseFeatureAntitone(df: Frame, config: FeatureConfig, k: nat, i: nat, j: nat)
    requires WellFormed(df) && PrefixFree(InverseFields(config), "inv_")
    requires k < |InverseFields(config)| && InverseFields(config)[k] in df.cols && i < df.n && j < df.n
    requires FillZero(df.cols[InverseFields(config)[k]][i]) <= FillZero(df.cols[InverseFields(config)[k]][j])
    ensures var r := DeriveAll(df, InverseFields(config), "inv_", OwnColumn, InverseCell);
            var c := "inv_" + InverseFields(config)[k];
            c in r.cols && r.cols[c][j].Num? && r.cols[c][i].Num? && r.cols[c][j].x <= r.cols[c][i].x
  {
    var fields := InverseFields(config);
    DeriveAllValues(df, fields, "inv_", OwnColumn, InverseCell, k, fields[k]);
    var col := df.cols[fields[k]];
    ClippedInverseAntitone(FillZero(col[i]), FillZero(col[j]));
  }

  /** `log_f` exists exactly for the configured fields that are columns (and for columns that were already there). */
  lemma LogFeaturesCreated(df: Frame, config: FeatureConfig, log1p: real -> real, c: string)
    requires WellFormed(df) && PrefixFree(LogFields(config), "log_")
    ensures c in DeriveAll(df, LogFields(config), "log_", OwnColumn, LogCell(log1p)).cols <==>
              c in df.cols || exists k :: 0 <= k < |LogFields(config)| && LogFields(config)[k] in df.cols && c == "log_" + LogFields(config)[k]
  {
    DeriveOwnKeys(df, LogFields(config), "log_", LogCell(log1p), c);
  }

  /**
   * `_create_composite_features`: `availability_score` when inventory and moq both
   * exist, `demand_score` = demand with missing as 0 when demand exists.
   */
  method CreateCompositeFeatures(df: Frame) returns (out: Frame)
    requires WellFormed(df)
    ensures WellFormed(out) && out.n == df.n
    ensures forall c :: c in out.cols <==> (c in df.cols
              || (c == "availability_score" && "inventory" in df.cols && "moq" in df.cols)
              || (c == "demand_score" && "demand_all_time" in df.cols))
    ensures "inventory" in df.cols && "moq" in df.cols ==>
              "availability_score" in out.cols && out.cols["availability_score"] == AvailabilityColumn(df, true)
    ensures "demand_all_time" in df.cols ==>
              "demand_score" in out.cols && out.cols["demand_score"] == FillNa(df.cols["demand_all_time"], Num(0.0))
    ensures forall c :: c in df.cols && c != "availability_score" && c != "demand_score" ==>
              c in out.cols && out.cols[c] == df.cols[c]
  {
    assert "availability_score" != "demand_score" && "demand_all_time" != "availability_score";
    var mid := WithAvailabilityScore(df);
    ghost var cols := if "inventory" in df.cols && "moq" in df.cols
                      then df.cols["availability_score" := AvailabilityColumn(df, true)] else df.cols;
    assert mid.cols == cols;
    out := WithDemandScore(mid);
    if "demand_all_time" in df.cols {
      assert out.cols == cols["demand_score" := FillNa(df.cols["demand_all_time"], Num(0.0))];
    } else {
      assert out.cols == cols;
    }
    forall c | c in df.cols && c != "availability_score" && c != "demand_score"
      ensures out.cols[c] == df.cols[c]
    {
      assert cols[c] == df.cols[c];
    }
  }

  lemma PrefixedNamesInFrame(df: Frame)
    requires WellFormed(df)
    ensures forall k :: 0 <= k < |PrefixedNames(df.names)| ==> PrefixedNames(df.names)[k] in df.cols
    ensures Distinct(PrefixedNames(df.names))
    ensures forall c :: c in df.cols && !HasScalePrefix(c) ==> c !in PrefixedNames(df.names)
  {
    var names := PrefixedNames(df.names);
    forall k | 0 <= k < |names| ensures names[k] in df.cols {
      assert names[k] in names;
    }
    assert Distinct(df.names);
  }

  /** The filled columns handed to the scaler: every prefixed column with missing as 0. */
  function ScaleInput(df: Frame): (m: seq<seq<Cell>>)
    requires WellFormed(df)
    ensures |m| == |PrefixedNames(df.names)|
    ensures forall k :: 0 <= k < |m| ==> |m[k]| == df.n
    ensures forall k, i :: 0 <= k < |m| && 0 <= i < df.n ==> !m[k][i].Missing?
  {
    PrefixedNamesInFrame(df);
    var names := PrefixedNames(df.names);
    seq(|names|, k requires 0 <= k < |names| => FillNa(df.cols[names[k]], Num(0.0)))
  }

  /** What `_scale_features` writes into prefixed column `k`. */
  function ScaledColumn(df: Frame, scaler: ColumnScaler, k: nat): (r: seq<Cell>)
    requires WellFormed(df) && k < |PrefixedNames(df.names)|
    ensures |r| == df.n && forall i :: 0 <= i < df.n ==> !r[i].Missing?
  {
    match scaler(ScaleInput(df))
    case Some(m) => NumCol(m[k])
    case None => ScaleInput(df)[k]
  }

  /** The values `_scale_features` writes, one column per prefixed name. */
  function ScaledColumns(df: Frame, scaler: ColumnScaler): (r: seq<seq<Cell>>)
    requires WellFormed(df)
    ensures |r| == |PrefixedNames(df.names)|
    ensures forall k :: 0 <= k < |r| ==> r[k] == ScaledColumn(df, scaler, k) && |r[k]| == df.n
  {
    seq(|PrefixedNames(df.names)|, k requires 0 <= k < |PrefixedNames(df.names)| => ScaledColumn(df, scaler, k))
  }

  /** The frame after scaling: the prefixed columns replaced by `ScaledColumns`. */
  function ScaledFrame(df: Frame, scaler: ColumnScaler): (r: Frame)
    requires WellFormed(df)
    ensures WellFormed(r) && r.n == df.n && r.names == df.names
    ensures forall c :: c in r.cols <==> c in df.cols
    ensures forall c :: c in df.cols && !HasScalePrefix(c) ==> r.cols[c] == df.cols[c]
  {
    PrefixedNamesInFrame(df);
    WithCols(df, PrefixedNames(df.names), ScaledColumns(df, scaler))
  }

  /** Every prefixed column of the scaled frame holds the scaler's (or the filled) values, none missing. */
  lemma ScaledFrameValues(df: Frame, scaler: ColumnScaler)
    requires WellFormed(df)
    ensures forall k :: 0 <= k < |PrefixedNames(df.names)| ==>
              PrefixedNames(df.names)[k] in ScaledFrame(df, scaler).cols
              && ScaledFrame(df, scaler).cols[PrefixedNames(df.names)[k]] == ScaledColumn(df, scaler, k)
    ensures forall k, i :: 0 <= k < |PrefixedNames(df.names)| && 0 <= i < df.n ==>
              !ScaledFrame(df, scaler).cols[PrefixedNames(df.names)[k]][i].Missing?
  {
    var names := PrefixedNames(df.names);
    PrefixedNamesInFrame(df);
    var r := ScaledFrame(df, scaler);
    assert r == WithCols(df, names, ScaledColumns(df, scaler));
  }

  /**
   * `_scale_features`: the columns starting with `log_`, `inv_`, `availability_` or
   * `demand_` get missing values replaced by 0 and then the scaler's output; if the
   * scaler raises, the filled values stay.  No other column changes.
   */
  method ScaleFeatures(df: Frame, scaler: ColumnScaler) returns (out: Frame)
    requires WellFormed(df)
    ensures WellFormed(out) && out.n == df.n && out.names == df.names
    ensures forall c :: c in out.cols <==> c in df.cols
    ensures forall c :: c in df.cols && !HasScalePrefix(c) ==> out.cols[c] == df.cols[c]
    ensures forall k :: 0 <= k < |PrefixedNames(df.names)| ==>
              PrefixedNames(df.names)[k] in out.cols && out.cols[PrefixedNames(df.names)[k]] == ScaledColumn(df, scaler, k)
    ensures forall k, i :: 0 <= k < |PrefixedNames(df.names)| && 0 <= i < df.n ==>
              !out.cols[PrefixedNames(df.names)[k]][i].Missing?
  {
    if |PrefixedNames(df.names)| > 0 {
      out := ScaledFrame(df, scaler);
    } else {
      out := df;
      assert forall c :: c in df.cols && HasScalePrefix(c) ==> c in PrefixedNames(df.names);
    }
    ScaledFrameValues(df, scaler);
  }

  /**
   * `transform`: log, inverse, binary and composite features, then scaling, on a
   * copy.  The row count is kept, no column is dropped, the indicators reflect
   * their source columns, columns outside the feature names keep their values and
   * no scaled column holds a missing value.
   */
  method Transform(df: Frame, config: FeatureConfig, log1p: real -> real, scaler: ColumnScaler) returns (out: Frame)
    requires WellFormed(df)
    ensures WellFormed(out) && out.n == df.n
    ensures forall c :: c in df.cols ==> c in out.cols
    ensures forall k :: 0 <= k < 4 && IndicatorSource(k) in df.cols ==>
              IndicatorName(k) in out.cols && out.cols[IndicatorName(k)] == IndicatorColumn(k, df.cols[IndicatorSource(k)])
    ensures forall c :: c in df.cols && !HasScalePrefix(c) && !IsIndicator(c) ==> out.cols[c] == df.cols[c]
    ensures "inventory" in df.cols && "moq" in df.cols ==> "availability_score" in out.cols
    ensures forall c, i :: c in out.cols && HasScalePrefix(c) && 0 <= i < out.n ==> !out.cols[c][i].Missing?
  {
    var d1 := CreateLogFeatures(df, config, log1p);
    var d2 := CreateInverseFeatures(d1, config);
    LogInverseKeepOthers(df, config, log1p);
    var d3 := AddBinaryFeatures(d2);
    var d4 := CreateCompositeFeatures(d3);
    out := ScaleFeatures(d4, scaler);
    CompositeNamesPrefixed();
    forall k | 0 <= k < 4 && IndicatorSource(k) in df.cols
      ensures IndicatorName(k) in out.cols && out.cols[IndicatorName(k)] == IndicatorColumn(k, df.cols[IndicatorSource(k)])
    {
      IndicatorNotPrefixed(k);
      assert d2.cols[IndicatorSource(k)] == df.cols[IndicatorSource(k)];
      assert IndicatorStep(d2, d3, k);
      assert d3.cols[IndicatorName(k)] == IndicatorColumn(k, df.cols[IndicatorSource(k)]);
      assert d4.cols[IndicatorName(k)] == d3.cols[IndicatorName(k)];
    }
    forall c | c in df.cols && !HasScalePrefix(c) && !IsIndicator(c) ensures out.cols[c] == df.cols[c] {
      assert !StartsWith(c, "log_") && !StartsWith(c, "inv_");
      assert d3.cols[c] == df.cols[c];
      assert c != "availability_score" && c != "demand_score";
      assert d4.cols[c] == d3.cols[c];
    }
    if "inventory" in df.cols && "moq" in df.cols {
      assert "inventory" in d3.cols && "moq" in d3.cols;
      assert "availability_score" in d4.cols;
    }
    ScaledPrefixedNotMissing(d4, out);
  }

  /** When every prefixed name's column is free of missing values, so is every prefixed column. */
  lemma ScaledPrefixedNotMissing(df: Frame, out: Frame)
    requires WellFormed(df) && WellFormed(out) && out.n == df.n
    requires forall c :: c in out.cols <==> c in df.cols
    requires forall k, i :: 0 <= k < |PrefixedNames(df.names)| && 0 <= i < df.n ==>
               PrefixedNames(df.names)[k] in out.cols && !out.cols[PrefixedNames(df.names)[k]][i].Missing?
    ensures forall c, i :: c in out.cols && HasScalePrefix(c) && 0 <= i < out.n ==> !out.cols[c][i].Missing?
  {
    forall c, i | c in out.cols && HasScalePrefix(c) && 0 <= i < out.n ensures !out.cols[c][i].Missing? {
      assert c in df.cols && c in df.names;
      var k :| 0 <= k < |PrefixedNames(df.names)| && PrefixedNames(df.names)[k] == c;
    }
  }

  /** The log and inverse stages add only `log_` and `inv_` columns and change no other. */
  lemma LogInverseKeepOthers(df: Frame, config: FeatureConfig, log1p: real -> real)
    requires WellFormed(df)
    ensures var d1 := DeriveAll(df, LogFields(config), "log_", OwnColumn, LogCell(log1p));
            var d2 := DeriveAll(d1, InverseFields(config), "inv_", OwnColumn, InverseCell);
            && (forall c :: c in df.cols ==> c in d2.cols)
            && forall c :: !StartsWith(c, "log_") && !StartsWith(c, "inv_") ==>
                 (c in d2.cols <==> c in df.cols) && (c in df.cols ==> d2.cols[c] == df.cols[c])
  {
    var d1 := DeriveAll(df, LogFields(config), "log_", OwnColumn, LogCell(log1p));
    forall c | !StartsWith(c, "log_") && !StartsWith(c, "inv_")
      ensures var d2 := DeriveAll(d1, InverseFields(config), "inv_", OwnColumn, InverseCell);
              (c in d2.cols <==> c in df.cols) && (c in df.cols ==> d2.cols[c] == df.cols[c])
    {
      DeriveAllKeepsUnprefixed(df, LogFields(config), "log_", OwnColumn, LogCell(log1p), c);
      DeriveAllKeepsUnprefixed(d1, InverseFields(config), "inv_", OwnColumn, InverseCell, c);
    }
  }

  lemma CompositeNamesPrefixed()
    ensures HasScalePrefix("availability_score") && HasScalePrefix("demand_score")
  {
    assert "availability_score"[..|"availability_"|] == "availability_";
    assert "demand_score"[..|"demand_"|] == "demand_";
  }

  lemma SourceNamesPlain()
    ensures !HasScalePrefix("inventory") && !IsIndicator("inventory")
    ensures !HasScalePrefix("moq") && !IsIndicator("moq")
  {
    NotScalePrefixed("inventory", 0, 3, 0, 0);
    NotScalePrefixed("moq", 0, 0, 0, 0);
  }

  lemma IndicatorNotPrefixed(k: nat)
    requires k < 4
    ensures !HasScalePrefix(IndicatorName(k)) && !HasScalePrefix(IndicatorSource(k))
    ensures IndicatorName(k) != "availability_score" && IndicatorName(k) != "demand_score"
  {
    if k == 0 {
      NotScalePrefixed("is_authorized", 0, 1, 0, 0);
      NotScalePrefixed("source_type", 0, 0, 0, 0);
    } else if k == 1 {
      NotScalePrefixed("has_datasheet", 0, 0, 0, 0);
      NotScalePrefixed("datasheet", 0, 0, 0, 1);
    } else if k == 2 {
      NotScalePrefixed("in_stock", 0, 2, 0, 0);
      NotScalePrefixed("inventory", 0, 3, 0, 0);
    } else {
      NotScalePrefixed("immediate_availability", 0, 1, 0, 0);
      NotScalePrefixed("leadtime_weeks", 1, 0, 0, 0);
    }
  }
}
