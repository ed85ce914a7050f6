/**
 * `scripts/feature_engineering.py`: the feature engineer of the batch scripts.
 * Stages run in the order log, inverse, binary, composite, scaling, missing-value
 * fill.  `log1p` and the robust scaler are given functions; the scaler reports a
 * failure (an exception, which this variant does not catch) as `None`.
 */
module ScriptFeatures {
  import opened Wrappers
  import opened Frames
  import opened RealMath
  import opened Strings
  import opened Features
  import CoreFeatures

  /** The configuration keys the engineer reads; an absent key means the empty list. */
  datatype ScriptConfig = ScriptConfig(logFeatures: Option<seq<string>>, inverseFeatures: Option<seq<string>>)

  function LogList(config: ScriptConfig): seq<string> {
    config.logFeatures.GetOr([])
  }

  function InverseList(config: ScriptConfig): seq<string> {
    config.inverseFeatures.GetOr([])
  }

  /** `np.log1p(x)` for a given `log1p`, with no clipping. */
  function LogPlain(log1p: real -> real): real -> Cell {
    x => Num(log1p(x))
  }

  /** The robust scaler on cells: when it succeeds it keeps the shape; what it does with missing values is left open. */
  predicate CellShapeKept(m: seq<seq<Cell>>, r: Option<seq<seq<Cell>>>) {
    r.Some? ==> |r.value| == |m| && forall k :: 0 <= k < |m| ==> |r.value[k]| == |m[k]|
  }

  type CellScaler = g: seq<seq<Cell>> -> Option<seq<seq<Cell>>> | forall m :: CellShapeKept(m, g(m))
    witness (m: seq<seq<Cell>>) => None

  lemma PriceNames()
    ensures "log_" + "price" == "log_price" && "inv_" + "price" == "inv_price"
  {
  }

  /** `log_price` is made only when `price` itself is a column, even if `first_price` exists. */
  lemma LogPriceNeedsPriceColumn(df: Frame, config: ScriptConfig, log1p: real -> real)
    requires WellFormed(df) && PrefixFree(LogList(config), "log_")
    requires "price" !in df.cols && "log_price" !in df.cols
    ensures "log_price" !in DeriveAll(df, LogList(config), "log_", PriceAliasIfPresent, LogPlain(log1p)).cols
  {
    var fields := LogList(config);
    DeriveAllKeys(df, fields, "log_", PriceAliasIfPresent, LogPlain(log1p));
    if IsDerived(df, fields, "log_", PriceAliasIfPresent, "log_price") {
      var k :| 0 <= k < |fields| && SourceColumn(PriceAliasIfPresent, df, fields[k]).Some? && "log_price" == "log_" + fields[k];
      PriceNames();
      PrefixCancel("log_", fields[k], "price");
      assert false;
    }
  }

  /** When `price` and `first_price` are columns, `log_price` is `log1p` of `first_price`, missing as 0. */
  lemma LogPriceFromFirstPrice(df: Frame, config: ScriptConfig, log1p: real -> real, k: nat)
    requires WellFormed(df) && PrefixFree(LogList(config), "log_")
    requires k < |LogList(config)| && LogList(config)[k] == "price"
    requires "price" in df.cols && "first_price" in df.cols
    ensures var r := DeriveAll(df, LogList(config), "log_", PriceAliasIfPresent, LogPlain(log1p));
            "log_price" in r.cols
            && forall i :: 0 <= i < df.n ==> r.cols["log_price"][i] == Num(log1p(FillZero(df.cols["first_price"][i])))
  {
    PriceNames();
    DeriveAllValues(df, LogList(config), "log_", PriceAliasIfPresent, LogPlain(log1p), k, "first_price");
  }

  /** `inv_price` reads `first_price` whenever that column exists, whether or not `price` does. */
  lemma InversePriceFromFirstPrice(df: Frame, config: ScriptConfig, k: nat)
    requires WellFormed(df) && PrefixFree(InverseList(config), "inv_")
    requires k < |InverseList(config)| && InverseList(config)[k] == "price" && "first_price" in df.cols
    ensures var r := DeriveAll(df, InverseList(config), "inv_", PriceAliasAlways, PlainInverse);
            "inv_price" in r.cols
            && forall i :: 0 <= i < df.n ==> r.cols["inv_price"][i] == PlainInverse(FillZero(df.cols["first_price"][i]))
  {
    PriceNames();
    DeriveAllValues(df, InverseList(config), "inv_", PriceAliasAlways, PlainInverse, k, "first_price");
  }

  /**
   * For non-negative (or missing) source values the plain inverse lies in (0, 1] and
   * strictly shrinks as the source grows.
   */
  lemma ScriptInverseRange(df: Frame, config: ScriptConfig, k: nat, src: string, i: nat, j: nat)
    requires WellFormed(df) && PrefixFree(InverseList(config), "inv_")
    requires k < |InverseList(config)| && SourceColumn(PriceAliasAlways, df, InverseList(config)[k]) == Some(src)
    requires i < df.n && j < df.n
    requires 0.0 <= FillZero(df.cols[src][i]) <= FillZero(df.cols[src][j])
    ensures var r := DeriveAll(df, InverseList(config), "inv_", PriceAliasAlways, PlainInverse);
            var c := "inv_" + InverseList(config)[k];
            && c in r.cols && r.cols[c][i].Num? && r.cols[c][j].Num?
            && 0.0 < r.cols[c][j].x <= r.cols[c][i].x <= 1.0
            && (FillZero(df.cols[src][i]) < FillZero(df.cols[src][j]) ==> r.cols[c][j].x < r.cols[c][i].x)
  {
    DeriveAllValues(df, InverseList(config), "inv_", PriceAliasAlways, PlainInverse, k, src);
    PlainInverseRange(FillZero(df.cols[src][i]), FillZero(df.cols[src][j]));
  }

  /** The fixed list of columns `_apply_scaling` scales when present. */
  function ScaleList(): seq<string> {
    ["log_inventory", "log_price", "log_moq", "inv_leadtime_weeks", "inv_price", "inv_moq",
     "availability_score", "demand_score"]
  }

  /** `[f for f in names if f in df.columns]`. */
  function PresentNames(f: Frame, names: seq<string>): (r: seq<string>)
    ensures forall c :: c in r <==> c in names && c in f.cols
    ensures Distinct(names) ==> Distinct(r)
  {
    if names == [] then []
    else
      var rest := PresentNames(f, names[1..]);
      assert Distinct(names) ==> names[0] !in names[1..];
      if names[0] in f.cols then [names[0]] + rest else rest
  }

  lemma ScaleListDistinct()
    ensures Distinct(ScaleList())
  {
  }

  /**
   * `_apply_scaling` on a frame: the present columns of the fixed list are replaced
   * by the scaler's output, in list order; with none present the frame is returned
   * as it is, and a raising scaler propagates as a failure.
   */
  function ScaledResult(df: Frame, scaler: CellScaler): (r: Result<Frame, string>)
    requires WellFormed(df)
    ensures r.Success? ==> WellFormed(r.value) && r.value.n == df.n
  {
    var names := PresentNames(df, ScaleList());
    ScaleListDistinct();
    assert forall k :: 0 <= k < |names| ==> names[k] in names;
    if |names| == 0 then Success(df)
    else
      var m := Columns(df, names);
      var scaled := scaler(m);
      if scaled.None? then Failure("robust scaling failed")
      else
        assert CellShapeKept(m, scaled);
        Success(WithCols(df, names, scaled.value))
  }

  /** Scaling keeps every column name, and changes no column outside the fixed list. */
  lemma ScaledResultKeeps(df: Frame, scaler: CellScaler)
    requires WellFormed(df) && ScaledResult(df, scaler).Success?
    ensures var s := ScaledResult(df, scaler).value;
            && s.names == df.names
            && (forall c :: c in s.cols <==> c in df.cols)
            && (forall c :: c in df.cols && c !in ScaleList() ==> s.cols[c] == df.cols[c])
  {
    var names := PresentNames(df, ScaleList());
    assert forall k :: 0 <= k < |names| ==> names[k] in names;
  }

  /** Facts about the names of the stages: which prefixes, indicators and composites they can clash with. */
  lemma IndicatorNotPrefixedName(c: string)
    requires IsIndicator(c)
    ensures !HasScalePrefix(c) && c !in ScaleList() && c != "availability_score" && c != "demand_score"
  {
    var k := if c == "is_authorized" then 0 else if c == "has_datasheet" then 1 else if c == "in_stock" then 2 else 3;
    assert IndicatorName(k) == c;
    CoreFeatures.IndicatorNotPrefixed(k);
  }

  lemma ScaleListPrefixed()
    ensures forall x :: x in ScaleList() ==> HasScalePrefix(x)
  {
    PrefixedName("log_", "inventory"); PrefixedName("log_", "price"); PrefixedName("log_", "moq");
    PrefixedName("inv_", "leadtime_weeks"); PrefixedName("inv_", "price"); PrefixedName("inv_", "moq");
    CoreFeatures.CompositeNamesPrefixed();
  }

  lemma FirstPricePlain()
    ensures !StartsWith("first_price", "log_") && !StartsWith("first_price", "inv_")
  {
    assert "first_price"[0] == 'f';
  }

  lemma LogNamePlain(c: string)
    requires StartsWith(c, "log_")
    ensures HasScalePrefix(c) && !StartsWith(c, "inv_") && !IsIndicator(c)
    ensures c != "availability_score" && c != "demand_score"
  {
    assert c[0] == 'l';
  }

  lemma InvNamePlain(c: string)
    requires StartsWith(c, "inv_")
    ensures HasScalePrefix(c) && !StartsWith(c, "log_") && !IsIndicator(c)
    ensures c != "availability_score" && c != "demand_score"
  {
    assert c[0] == 'i' && c[1] == 'n' && c[2] == 'v';
  }

  /** `availability_score` exists only when in_stock, immediate_availability, inventory and moq all exist. */
  predicate AvailabilityInputs(df: Frame) {
    "in_stock" in df.cols && "immediate_availability" in df.cols && "inventory" in df.cols && "moq" in df.cols
  }

  /** The unclipped-ratio availability of row `i`, clipped to [0, 2]. */
  function ScriptAvailabilityColumn(df: Frame): (r: seq<Cell>)
    ensures |r| == df.n
    ensures forall i :: 0 <= i < df.n ==>
              r[i] == AvailabilityCell(CellAt(df, "in_stock", i), CellAt(df, "immediate_availability", i),
                                       CellAt(df, "inventory", i), CellAt(df, "moq", i), false)
  {
    seq(df.n, i requires 0 <= i < df.n =>
      AvailabilityCell(CellAt(df, "in_stock", i), CellAt(df, "immediate_availability", i),
                       CellAt(df, "inventory", i), CellAt(df, "moq", i), false))
  }

  /** The `availability_score` block of `_create_composite_features`. */
  function WithScriptAvailability(df: Frame): (r: Frame)
    requires WellFormed(df)
    ensures WellFormed(r) && r.n == df.n
    ensures AvailabilityInputs(df) ==> r.cols == df.cols["availability_score" := ScriptAvailabilityColumn(df)]
    ensures !AvailabilityInputs(df) ==> r == df
  {
    if AvailabilityInputs(df) then WithCol(df, "availability_score", ScriptAvailabilityColumn(df)) else df
  }

  /** Every availability score lies in [0, 2] or is missing (when an input was missing). */
  lemma ScriptAvailabilityBounds(df: Frame, i: nat)
    requires WellFormed(df) && AvailabilityInputs(df) && i < df.n
    ensures var col := WithScriptAvailability(df).cols["availability_score"];
            col[i].Missing? || (col[i].Num? && 0.0 <= col[i].x <= 2.0)
    ensures var col := WithScriptAvailability(df).cols["availability_score"];
            col[i].Num? <==> df.cols["in_stock"][i].Num? && df.cols["immediate_availability"][i].Num?
                             && df.cols["inventory"][i].Num? && df.cols["moq"][i].Num?
  {
  }

  /** `_create_composite_features`: the availability block, then the demand block. */
  function ScriptCompositeFrame(df: Frame): (r: Frame)
    requires WellFormed(df)
    ensures WellFormed(r) && r.n == df.n
  {
    WithDemandScore(WithScriptAvailability(df))
  }

  /** `_create_composite_features`: availability (all four inputs needed), then demand. */
  method CreateCompositeFeatures(df: Frame) returns (out: Frame)
    requires WellFormed(df)
    ensures out == ScriptCompositeFrame(df)
    ensures WellFormed(out) && out.n == df.n
    ensures forall c :: c in df.cols ==> c in out.cols
    ensures "availability_score" in out.cols <==> "availability_score" in df.cols || AvailabilityInputs(df)
    ensures AvailabilityInputs(df) ==> out.cols["availability_score"] == ScriptAvailabilityColumn(df)
    ensures forall c :: c in df.cols && c != "availability_score" && c != "demand_score" ==> out.cols[c] == df.cols[c]
  {
    assert "availability_score" != "demand_score" && "demand_all_time" != "availability_score";
    var mid := WithScriptAvailability(df);
    ghost var cols := if AvailabilityInputs(df) then df.cols["availability_score" := ScriptAvailabilityColumn(df)] else df.cols;
    assert mid.cols == cols;
    out := WithDemandScore(mid);
    if "demand_all_time" in df.cols {
      assert out.cols == cols["demand_score" := FillNa(df.cols["demand_all_time"], Num(0.0))];
    } else {
      assert out.cols == cols;
    }
    forall c | c in df.cols && c != "availability_score" && c != "demand_score"
      ensures out.cols[c] == df.cols[c]
    {
      assert cols[c] == df.cols[c];
    }
  }

  /** The frame with each listed column that exists filled with 0. */
  function FillListed(df: Frame, cols: seq<string>): (r: Frame)
    requires WellFormed(df)
    ensures WellFormed(r) && r.n == df.n && r.names == df.names
  {
    Frame(df.n, df.names, map c | c in df.cols :: if c in cols then FillNa(df.cols[c], Num(0.0)) else df.cols[c])
  }

  /** `df[col] = df[col].fillna(0)` for each listed column that exists, in list order. */
  method FillColumns(df: Frame, cols: seq<string>) returns (out: Frame)
    requires WellFormed(df)
    ensures out == FillListed(df, cols)
    ensures WellFormed(out) && out.n == df.n && out.names == df.names
    ensures forall c :: c in out.cols <==> c in df.cols
    ensures forall c :: c in df.cols && c in cols ==> out.cols[c] == FillNa(df.cols[c], Num(0.0))
    ensures forall c :: c in df.cols && c !in cols ==> out.cols[c] == df.cols[c]
  {
    out := df;
    var k := 0;
    while k < |cols|
      invariant 0 <= k <= |cols|
      invariant WellFormed(out) && out.n == df.n && out.names == df.names
      invariant forall c :: c in out.cols <==> c in df.cols
      invariant forall c :: c in df.cols && c in cols[..k] ==> out.cols[c] == FillNa(df.cols[c], Num(0.0))
      invariant forall c :: c in df.cols && c !in cols[..k] ==> out.cols[c] == df.cols[c]
    {
      var c := cols[k];
      if c in out.cols {
        FillNaIdempotent(df.cols[c], Num(0.0));
        out := WithCol(out, c, FillNa(out.cols[c], Num(0.0)));
      }
      assert cols[..k + 1] == cols[..k] + [c];
      k := k + 1;
    }
    assert cols[..k] == cols;
    assert out.cols == FillListed(df, cols).cols;
  }

  /** The four 0/1 columns `_handle_missing_values` fills first. */
  function BinaryCols(): (r: seq<string>)
    ensures forall c :: c in r <==> IsIndicator(c)
  {
    ["is_authorized", "has_datasheet", "in_stock", "immediate_availability"]
  }

  /** Filling a column that has no missing cell changes nothing. */
  lemma FillNaNoMissing(col: seq<Cell>, v: Cell)
    requires forall i :: 0 <= i < |col| ==> !col[i].Missing?
    ensures FillNa(col, v) == col
  {
  }

  /** The frame with every 0/1 column and every prefixed column filled with 0. */
  function FilledFrame(df: Frame): (r: Frame)
    requires WellFormed(df)
    ensures WellFormed(r) && r.n == df.n && r.names == df.names
  {
    Frame(df.n, df.names,
          map c | c in df.cols :: if IsIndicator(c) || HasScalePrefix(c) then FillNa(df.cols[c], Num(0.0)) else df.cols[c])
  }

  /**
   * `_handle_missing_values`: the 0/1 columns, then every column starting with a
   * scaling prefix, get missing values replaced by 0.  Afterwards none of them
   * holds a missing value, and every other column is as it was.
   */
  method HandleMissingValues(df: Frame) returns (out: Frame)
    requires WellFormed(df)
    ensures out == FilledFrame(df)
    ensures WellFormed(out) && out.n == df.n && out.names == df.names
    ensures forall c :: c in out.cols <==> c in df.cols
    ensures forall c, i :: c in out.cols && (IsIndicator(c) || HasScalePrefix(c)) && 0 <= i < out.n ==>
              !out.cols[c][i].Missing?
    ensures forall c :: c in df.cols && !IsIndicator(c) && !HasScalePrefix(c) ==> out.cols[c] == df.cols[c]
  {
    var mid := FillColumns(df, BinaryCols());
    out := FillColumns(mid, PrefixedNames(mid.names));
    FillTwiceIsFilled(df);
    FilledFrameNoMissing(df);
  }

  /** The two fills of `_handle_missing_values`, the 0/1 list and then the prefixed names, give `FilledFrame`. */
  lemma FillTwiceIsFilled(df: Frame)
    requires WellFormed(df)
    ensures var mid := FillListed(df, BinaryCols());
            FillListed(mid, PrefixedNames(mid.names)) == FilledFrame(df)
  {
    var mid := FillListed(df, BinaryCols());
    var numeric := PrefixedNames(mid.names);
    var out := FillListed(mid, numeric);
    assert forall c :: c in mid.cols ==> c in mid.names;
    forall c | c in df.cols ensures out.cols[c] == FilledFrame(df).cols[c] {
      if IsIndicator(c) {
        IndicatorNotPrefixedName(c);
        assert c !in numeric;
      } else if HasScalePrefix(c) {
        assert c in numeric;
      }
    }
    assert out.cols == FilledFrame(df).cols;
  }

  /** In `FilledFrame(df)` no 0/1 column and no prefixed column holds a missing value. */
  lemma FilledFrameNoMissing(df: Frame)
    requires WellFormed(df)
    ensures var f := FilledFrame(df);
            && (forall c :: c in f.cols <==> c in df.cols)
            && (forall c, i :: c in f.cols && (IsIndicator(c) || HasScalePrefix(c)) && 0 <= i < f.n ==> !f.cols[c][i].Missing?)
            && (forall c :: c in df.cols && !IsIndicator(c) && !HasScalePrefix(c) ==> f.cols[c] == df.cols[c])
  {
    var f := FilledFrame(df);
    forall c, i | c in f.cols && (IsIndicator(c) || HasScalePrefix(c)) && 0 <= i < f.n
      ensures !f.cols[c][i].Missing?
    {
      assert f.cols[c] == FillNa(df.cols[c], Num(0.0));
    }
  }

  /** `_apply_log_transforms`: `log_f` for each listed field that is a column; `price` reads `first_price`. */
  function LogStage(config: ScriptConfig, log1p: real -> real, df: Frame): (r: Frame)
    requires WellFormed(df)
    ensures WellFormed(r) && r.n == df.n
  {
    DeriveAll(df, LogList(config), "log_", PriceAliasIfPresent, LogPlain(log1p))
  }

  /** `_apply_inverse_transforms`: `inv_f` for each listed field that is a column or is `price`. */
  function InverseStage(config: ScriptConfig, df: Frame): (r: Frame)
    requires WellFormed(df)
    ensures WellFormed(r) && r.n == df.n
  {
    DeriveAll(df, InverseList(config), "inv_", PriceAliasAlways, PlainInverse)
  }

  /** The first four stages of `transform`: log, inverse, binary, composite. */
  function StagedFrame(config: ScriptConfig, log1p: real -> real, df: Frame): (r: Frame)
    requires WellFormed(df)
    ensures WellFormed(r) && r.n == df.n
  {
    ScriptCompositeFrame(BinaryFrame(InverseStage(config, LogStage(config, log1p, df))))
  }

  /** `transform`: the four stages, then scaling (which may raise), then the missing-value fill. */
  function TransformResult(config: ScriptConfig, log1p: real -> real, scaler: CellScaler, df: Frame): (r: Result<Frame, string>)
    requires WellFormed(df)
    ensures r.Success? ==> WellFormed(r.value) && r.value.n == df.n
  {
    match ScaledResult(StagedFrame(config, log1p, df), scaler)
    case Failure(e) => Failure(e)
    case Success(s) => Success(FilledFrame(s))
  }

  /** The scripts' feature engineer; `scalers` records the columns each fitted scaler was fitted on. */
  class FeatureEngineer {
    const config: ScriptConfig
    const log1p: real -> real
    const scaler: CellScaler
    var scalers: map<string, seq<string>>

    constructor (config: ScriptConfig, log1p: real -> real, scaler: CellScaler)
      ensures this.config == config && this.log1p == log1p && this.scaler == scaler
      ensures scalers == map[]
    {
      this.config := config;
      this.log1p := log1p;
      this.scaler := scaler;
      scalers := map[];
    }

    /**
     * `_apply_scaling`: the present columns of the fixed list are replaced by the
     * scaler's output and the fitted scaler is stored under "robust".  When none is
     * present nothing happens; when the scaler raises, the error propagates.
     */
    method ApplyScaling(df: Frame) returns (r: Result<Frame, string>)
      requires WellFormed(df)
      modifies this
      ensures r == ScaledResult(df, scaler)
      ensures var names := PresentNames(df, ScaleList());
              r.Failure? <==> |names| > 0 && scaler(Columns(df, names)).None?
      ensures r.Success? ==> WellFormed(r.value) && r.value.n == df.n && r.value.names == df.names
      ensures r.Success? ==> forall c :: c in r.value.cols <==> c in df.cols
      ensures r.Success? ==> forall c :: c in df.cols && c !in ScaleList() ==> r.value.cols[c] == df.cols[c]
      ensures var names := PresentNames(df, ScaleList());
              r.Success? && |names| > 0 ==>
                forall k :: 0 <= k < |names| ==>
                  names[k] in df.cols && r.value.cols[names[k]] == scaler(Columns(df, names)).value[k]
      ensures var names := PresentNames(df, ScaleList());
              scalers == if r.Success? && |names| > 0 then old(scalers)["robust" := names] else old(scalers)
    {
      var names := PresentNames(df, ScaleList());
      ScaleListDistinct();
      assert forall k :: 0 <= k < |names| ==> names[k] in names;
      if |names| == 0 {
        r := Success(df);
      } else {
        var m := Columns(df, names);
        var scaled := scaler(m);
        if scaled.None? {
          r := Failure("robust scaling failed");
        } else {
          assert CellShapeKept(m, scaled);
          r := Success(WithCols(df, names, scaled.value));
          scalers := scalers["robust" := names];
        }
      }
    }

    /**
     * `transform`: log, inverse, binary, composite, scaling, missing-value fill, in
     * that order, on a copy; the result is `TransformResult`, whose columns the
     * `Transform*` lemmas below describe.  Every input column survives, the row
     * count is kept, and afterwards no 0/1 column and no prefixed column holds a
     * missing value.  The scaler fitted on the staged frame is recorded on success.
     */
    method Transform(df: Frame) returns (r: Result<Frame, string>)
      requires WellFormed(df)
      modifies this
      ensures r == TransformResult(config, log1p, scaler, df)
      ensures var names := PresentNames(StagedFrame(config, log1p, df), ScaleList());
              scalers == if r.Success? && |names| > 0 then old(scalers)["robust" := names] else old(scalers)
      ensures r.Success? ==> WellFormed(r.value) && r.value.n == df.n
      ensures r.Success? ==> forall c :: c in df.cols ==> c in r.value.cols
      ensures r.Success? ==> forall c, i :: c in r.value.cols && (IsIndicator(c) || HasScalePrefix(c)) && 0 <= i < df.n ==>
                               !r.value.cols[c][i].Missing?
      ensures r.Failure? ==> scalers == old(scalers)
    {
      var d1 := DeriveColumns(df, LogList(config), "log_", PriceAliasIfPresent, LogPlain(log1p));
      var d2 := DeriveColumns(d1, InverseList(config), "inv_", PriceAliasAlways, PlainInverse);
      var d3 := AddBinaryFeatures(d2);
      var d4 := CreateCompositeFeatures(d3);
      var scaled := ApplyScaling(d4);
      if scaled.Failure? {
        return Failure(scaled.error);
      }
      var out := HandleMissingValues(scaled.value);
      r := Success(out);
    }
  }

  // ---------------------------------------------------------------- what `transform` returns

  /** `transform` fails exactly when the scaler raises on the scale-list columns present after the composite stage. */
  lemma TransformFailure(config: ScriptConfig, log1p: real -> real, scaler: CellScaler, df: Frame)
    requires WellFormed(df)
    ensures var d := StagedFrame(config, log1p, df);
            var names := PresentNames(d, ScaleList());
            && (forall k :: 0 <= k < |names| ==> names[k] in d.cols)
            && (TransformResult(config, log1p, scaler, df).Failure? <==> |names| > 0 && scaler(Columns(d, names)).None?)
  {
    var d := StagedFrame(config, log1p, df);
    var names := PresentNames(d, ScaleList());
    assert forall k :: 0 <= k < |names| ==> names[k] in names;
  }

  /** The steps from the inverse stage's output to the result, for a column outside the scaling list that no later stage writes. */
  lemma TransformKeepsFromInverse(config: ScriptConfig, log1p: real -> real, scaler: CellScaler, df: Frame, c: string)
    requires WellFormed(df) && TransformResult(config, log1p, scaler, df).Success?
    requires !IsIndicator(c) && c != "availability_score" && c != "demand_score"
    ensures var d2 := InverseStage(config, LogStage(config, log1p, df));
            var r := TransformResult(config, log1p, scaler, df).value;
            && (c in r.cols <==> c in d2.cols)
            && (c in d2.cols && c !in ScaleList() ==>
                  r.cols[c] == if HasScalePrefix(c) then FillNa(d2.cols[c], Num(0.0)) else d2.cols[c])
  {
    var d2 := InverseStage(config, LogStage(config, log1p, df));
    BinaryFrameFacts(d2);
    TransformKeepsFromBinary(config, log1p, scaler, df, c);
  }

  /** The steps from the binary stage's output to the result, for a column outside the scaling list that the composite stage does not write. */
  lemma TransformKeepsFromBinary(config: ScriptConfig, log1p: real -> real, scaler: CellScaler, df: Frame, c: string)
    requires WellFormed(df) && TransformResult(config, log1p, scaler, df).Success?
    requires c != "availability_score" && c != "demand_score"
    ensures var d3 := BinaryFrame(InverseStage(config, LogStage(config, log1p, df)));
            var r := TransformResult(config, log1p, scaler, df).value;
            && (c in r.cols <==> c in d3.cols)
            && (c in d3.cols && c !in ScaleList() ==>
                  r.cols[c] == if IsIndicator(c) || HasScalePrefix(c) then FillNa(d3.cols[c], Num(0.0)) else d3.cols[c])
  {
    var d3 := BinaryFrame(InverseStage(config, LogStage(config, log1p, df)));
    var d4 := ScriptCompositeFrame(d3);
    assert (c in d4.cols <==> c in d3.cols) && (c in d3.cols ==> d4.cols[c] == d3.cols[c]);
    ScaledResultKeeps(d4, scaler);
  }

  /**
   * Every indicator whose source column is in the input holds `IndicatorColumn` of
   * that source in the result: no other stage touches an indicator or its source.
   */
  lemma TransformIndicators(config: ScriptConfig, log1p: real -> real, scaler: CellScaler, df: Frame, k: nat)
    requires WellFormed(df) && TransformResult(config, log1p, scaler, df).Success?
    requires k < 4 && IndicatorSource(k) in df.cols
    ensures var r := TransformResult(config, log1p, scaler, df).value;
            IndicatorName(k) in r.cols && r.cols[IndicatorName(k)] == IndicatorColumn(k, df.cols[IndicatorSource(k)])
  {
    var src, name := IndicatorSource(k), IndicatorName(k);
    var col := IndicatorColumn(k, df.cols[src]);
    var d1 := LogStage(config, log1p, df);
    var d2 := InverseStage(config, d1);
    var d3 := BinaryFrame(d2);
    assert src in d2.cols && d2.cols[src] == df.cols[src] by {
      CoreFeatures.IndicatorNotPrefixed(k);
      DeriveAllKeepsUnprefixed(df, LogList(config), "log_", PriceAliasIfPresent, LogPlain(log1p), src);
      DeriveAllKeepsUnprefixed(d1, InverseList(config), "inv_", PriceAliasAlways, PlainInverse, src);
    }
    assert name in d3.cols && d3.cols[name] == col by {
      BinaryFrameFacts(d2);
      assert IndicatorStep(d2, d3, k);
    }
    assert IsIndicator(name) && name !in ScaleList() && name != "availability_score" && name != "demand_score" by {
      if k == 0 { IndicatorNotPrefixedName("is_authorized"); }
      else if k == 1 { IndicatorNotPrefixedName("has_datasheet"); }
      else if k == 2 { IndicatorNotPrefixedName("in_stock"); }
      else { IndicatorNotPrefixedName("immediate_availability"); }
    }
    TransformKeepsFromBinary(config, log1p, scaler, df, name);
    FillNaNoMissing(col, Num(0.0));
  }

  /**
   * `log_f` exists in the result exactly when it was an input column or `f` is a
   * listed field whose source is present; `inv_f` likewise, with the inverse
   * stage's source rule applied after the log stage.
   */
  lemma TransformDerivedKeys(config: ScriptConfig, log1p: real -> real, scaler: CellScaler, df: Frame, c: string)
    requires WellFormed(df) && TransformResult(config, log1p, scaler, df).Success?
    requires PrefixFree(LogList(config), "log_") && PrefixFree(InverseList(config), "inv_")
    requires StartsWith(c, "log_") || StartsWith(c, "inv_")
    ensures var r := TransformResult(config, log1p, scaler, df).value;
            && (StartsWith(c, "log_") ==>
                  (c in r.cols <==> c in df.cols || IsDerived(df, LogList(config), "log_", PriceAliasIfPresent, c)))
            && (StartsWith(c, "inv_") ==>
                  (c in r.cols <==> c in df.cols
                                    || IsDerived(LogStage(config, log1p, df), InverseList(config), "inv_", PriceAliasAlways, c)))
  {
    var d1 := LogStage(config, log1p, df);
    DeriveAllKeys(df, LogList(config), "log_", PriceAliasIfPresent, LogPlain(log1p));
    DeriveAllKeys(d1, InverseList(config), "inv_", PriceAliasAlways, PlainInverse);
    if StartsWith(c, "log_") {
      LogNamePlain(c);
      DeriveAllKeepsUnprefixed(d1, InverseList(config), "inv_", PriceAliasAlways, PlainInverse, c);
    } else {
      InvNamePlain(c);
      DeriveAllKeepsUnprefixed(df, LogList(config), "log_", PriceAliasIfPresent, LogPlain(log1p), c);
    }
    TransformKeepsFromInverse(config, log1p, scaler, df, c);
  }

  /**
   * A `log_f` column outside the scaling list holds `log1p` of its source, read
   * as 0 where missing (`first_price` for `price`).
   */
  lemma TransformLogColumn(config: ScriptConfig, log1p: real -> real, scaler: CellScaler, df: Frame, k: nat, src: string)
    requires WellFormed(df) && TransformResult(config, log1p, scaler, df).Success?
    requires PrefixFree(LogList(config), "log_")
    requires k < |LogList(config)| && SourceColumn(PriceAliasIfPresent, df, LogList(config)[k]) == Some(src)
    ensures var r := TransformResult(config, log1p, scaler, df).value;
            var c := "log_" + LogList(config)[k];
            && c in r.cols
            && (c !in ScaleList() ==> r.cols[c] == DerivedColumn(df.cols[src], LogPlain(log1p)))
  {
    var c := "log_" + LogList(config)[k];
    var col := DerivedColumn(df.cols[src], LogPlain(log1p));
    var d1 := LogStage(config, log1p, df);
    var d2 := InverseStage(config, d1);
    assert c in d2.cols && d2.cols[c] == col by {
      PrefixedName("log_", LogList(config)[k]);
      LogNamePlain(c);
      DeriveAllValues(df, LogList(config), "log_", PriceAliasIfPresent, LogPlain(log1p), k, src);
      DeriveAllKeepsUnprefixed(d1, InverseList(config), "inv_", PriceAliasAlways, PlainInverse, c);
    }
    assert !IsIndicator(c) && c != "availability_score" && c != "demand_score" && HasScalePrefix(c) by {
      PrefixedName("log_", LogList(config)[k]);
      LogNamePlain(c);
    }
    TransformKeepsFromInverse(config, log1p, scaler, df, c);
    FillNaNoMissing(col, Num(0.0));
  }

  /**
   * An `inv_f` column outside the scaling list holds `1 / (1 + x)` of its source,
   * with missing values read as 0 and the infinity at -1 filled with 0.  The field
   * must not itself be a `log_` name, so that its source is an input column.
   */
  lemma TransformInverseColumn(config: ScriptConfig, log1p: real -> real, scaler: CellScaler, df: Frame, k: nat, src: string)
    requires WellFormed(df) && TransformResult(config, log1p, scaler, df).Success?
    requires PrefixFree(InverseList(config), "inv_")
    requires k < |InverseList(config)| && !StartsWith(InverseList(config)[k], "log_")
    requires SourceColumn(PriceAliasAlways, df, InverseList(config)[k]) == Some(src)
    ensures var r := TransformResult(config, log1p, scaler, df).value;
            var c := "inv_" + InverseList(config)[k];
            && c in r.cols
            && (c !in ScaleList() ==> r.cols[c] == FillNa(DerivedColumn(df.cols[src], PlainInverse), Num(0.0)))
  {
    var f := InverseList(config)[k];
    var c := "inv_" + f;
    InverseColumnAtStage(config, log1p, df, k, src);
    assert !IsIndicator(c) && c != "availability_score" && c != "demand_score" && HasScalePrefix(c) by {
      PrefixedName("inv_", f);
      InvNamePlain(c);
    }
    TransformKeepsFromInverse(config, log1p, scaler, df, c);
  }

  /** After the inverse stage, `inv_f` holds the inverse of its input source column. */
  lemma InverseColumnAtStage(config: ScriptConfig, log1p: real -> real, df: Frame, k: nat, src: string)
    requires WellFormed(df) && PrefixFree(InverseList(config), "inv_")
    requires k < |InverseList(config)| && !StartsWith(InverseList(config)[k], "log_")
    requires SourceColumn(PriceAliasAlways, df, InverseList(config)[k]) == Some(src)
    ensures var d2 := InverseStage(config, LogStage(config, log1p, df));
            var c := "inv_" + InverseList(config)[k];
            c in d2.cols && d2.cols[c] == DerivedColumn(df.cols[src], PlainInverse)
  {
    var f := InverseList(config)[k];
    var d1 := LogStage(config, log1p, df);
    assert SourceColumn(PriceAliasAlways, d1, f) == Some(src) && d1.cols[src] == df.cols[src] by {
      FirstPricePlain();
      DeriveAllKeepsUnprefixed(df, LogList(config), "log_", PriceAliasIfPresent, LogPlain(log1p), f);
      DeriveAllKeepsUnprefixed(df, LogList(config), "log_", PriceAliasIfPresent, LogPlain(log1p), "first_price");
    }
    DeriveAllValues(d1, InverseList(config), "inv_", PriceAliasAlways, PlainInverse, k, src);
  }

  /** An input column with no scaling prefix that is not an indicator comes out unchanged. */
  lemma TransformKeepsPlainColumns(config: ScriptConfig, log1p: real -> real, scaler: CellScaler, df: Frame, c: string)
    requires WellFormed(df) && TransformResult(config, log1p, scaler, df).Success?
    requires c in df.cols && !IsIndicator(c) && !HasScalePrefix(c)
    ensures var r := TransformResult(config, log1p, scaler, df).value;
            c in r.cols && r.cols[c] == df.cols[c]
  {
    var d1 := LogStage(config, log1p, df);
    DeriveAllKeepsUnprefixed(df, LogList(config), "log_", PriceAliasIfPresent, LogPlain(log1p), c);
    DeriveAllKeepsUnprefixed(d1, InverseList(config), "inv_", PriceAliasAlways, PlainInverse, c);
    assert c != "availability_score" && c != "demand_score" && c !in ScaleList() by {
      CoreFeatures.CompositeNamesPrefixed();
      ScaleListPrefixed();
    }
    TransformKeepsFromInverse(config, log1p, scaler, df, c);
  }

  /** The log and inverse stages keep inventory, lead time and moq. */
  lemma GateColumnsKept(config: ScriptConfig, log1p: real -> real, df: Frame)
    requires WellFormed(df) && "inventory" in df.cols && "leadtime_weeks" in df.cols && "moq" in df.cols
    ensures var d2 := InverseStage(config, LogStage(config, log1p, df));
            "inventory" in d2.cols && "leadtime_weeks" in d2.cols && "moq" in d2.cols
  {
    var d1 := LogStage(config, log1p, df);
    CoreFeatures.SourceNamesPlain();
    CoreFeatures.IndicatorNotPrefixed(3);
    DeriveAllKeepsUnprefixed(df, LogList(config), "log_", PriceAliasIfPresent, LogPlain(log1p), "inventory");
    DeriveAllKeepsUnprefixed(d1, InverseList(config), "inv_", PriceAliasAlways, PlainInverse, "inventory");
    DeriveAllKeepsUnprefixed(df, LogList(config), "log_", PriceAliasIfPresent, LogPlain(log1p), "leadtime_weeks");
    DeriveAllKeepsUnprefixed(d1, InverseList(config), "inv_", PriceAliasAlways, PlainInverse, "leadtime_weeks");
    DeriveAllKeepsUnprefixed(df, LogList(config), "log_", PriceAliasIfPresent, LogPlain(log1p), "moq");
    DeriveAllKeepsUnprefixed(d1, InverseList(config), "inv_", PriceAliasAlways, PlainInverse, "moq");
  }

  /** The binary stage supplies `in_stock` and `immediate_availability` once inventory and lead time exist. */
  lemma BinaryAvailabilityInputs(d2: Frame)
    requires WellFormed(d2) && "inventory" in d2.cols && "leadtime_weeks" in d2.cols && "moq" in d2.cols
    ensures AvailabilityInputs(BinaryFrame(d2))
  {
    var f1 := AddIndicator(d2, 0);
    var f2 := AddIndicator(f1, 1);
    var f3 := AddIndicator(f2, 2);
    assert IndicatorName(2) == "in_stock" && IndicatorSource(2) == "inventory";
    assert "in_stock" in f3.cols;
    assert IndicatorName(3) == "immediate_availability" && IndicatorSource(3) == "leadtime_weeks";
    assert "immediate_availability" in AddIndicator(f3, 3).cols;
  }

  /** With inventory, lead time and moq in the input, the result has an `availability_score` column. */
  lemma TransformAvailabilityCreated(config: ScriptConfig, log1p: real -> real, scaler: CellScaler, df: Frame)
    requires WellFormed(df) && TransformResult(config, log1p, scaler, df).Success?
    requires "inventory" in df.cols && "leadtime_weeks" in df.cols && "moq" in df.cols
    ensures "availability_score" in TransformResult(config, log1p, scaler, df).value.cols
  {
    var d2 := InverseStage(config, LogStage(config, log1p, df));
    GateColumnsKept(config, log1p, df);
    BinaryAvailabilityInputs(d2);
    var d4 := ScriptCompositeFrame(BinaryFrame(d2));
    assert "availability_score" in d4.cols;
    ScaledResultKeeps(d4, scaler);
  }

}
