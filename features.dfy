/**
 * Feature formulas and column-adding steps shared by the feature engineers:
 * the inverse transform, the 0/1 indicators, the clipped availability composite,
 * the loop that derives `log_`/`inv_` columns from configured fields, and the
 * column-wise write of scaled values.
 */
module Features {
  import opened Wrappers
  import opened Frames
  import opened RealMath
  import opened Strings

  // ---------------------------------------------------------------- per-value formulas

  /** `1 / (1 + x.clip(lower=0))`. */
  function ClippedInverse(x: real): (r: real)
    ensures 0.0 < r <= 1.0
    ensures x <= 0.0 ==> r == 1.0
  {
    var d := 1.0 + Max(x, 0.0);
    assert 1.0 / d <= 1.0 / 1.0 by { Reciprocal(1.0, d); }
    1.0 / d
  }

  /** `1 / (1 + x)` without clipping; at x = -1 pandas gives infinity, modelled as a missing cell. */
  function PlainInverse(x: real): Cell {
    if x == -1.0 then Missing else Num(1.0 / (1.0 + x))
  }

  lemma Reciprocal(a: real, b: real)
    requires 0.0 < a <= b
    ensures 0.0 < 1.0 / b <= 1.0 / a
    ensures a < b ==> 1.0 / b < 1.0 / a
  {
    assert 1.0 / a - 1.0 / b == (b - a) / (a * b);
    MulNonneg(a, b);
  }

  /** The clipped inverse never grows as its input grows. */
  lemma ClippedInverseAntitone(x: real, y: real)
    requires x <= y
    ensures ClippedInverse(y) <= ClippedInverse(x)
    ensures 0.0 <= x < y ==> ClippedInverse(y) < ClippedInverse(x)
  {
    Reciprocal(1.0 + Max(x, 0.0), 1.0 + Max(y, 0.0));
  }

  /** For non-negative inputs the plain inverse lies in (0, 1] and strictly shrinks as x grows. */
  lemma PlainInverseRange(x: real, y: real)
    requires 0.0 <= x <= y
    ensures PlainInverse(x).Num? && PlainInverse(y).Num?
    ensures 0.0 < PlainInverse(y).x <= PlainInverse(x).x <= 1.0
    ensures x < y ==> PlainInverse(y).x < PlainInverse(x).x
  {
    Reciprocal(1.0 + x, 1.0 + y);
    Reciprocal(1.0, 1.0 + x);
  }

  /**
   * `(0.5 * in_stock + 0.3 * immediate + 0.2 * ratio).clip(0, 2)` with
   * ratio = inventory / moq.clip(lower=1), capped at 10 when `cap` holds.
   * A missing input makes the whole sum NaN, which `clip` keeps.
   */
  function AvailabilityCell(inStock: Cell, immediate: Cell, inventory: Cell, moq: Cell, cap: bool): (r: Cell)
    ensures r.Missing? || r.Num?
    ensures r.Num? <==> inStock.Num? && immediate.Num? && inventory.Num? && moq.Num?
    ensures r.Num? ==> 0.0 <= r.x <= 2.0
  {
    if inStock.Num? && immediate.Num? && inventory.Num? && moq.Num? then
      var ratio := inventory.x / Max(moq.x, 1.0);
      var capped := if cap then Min(ratio, 10.0) else ratio;
      Num(Clip(inStock.x * 0.5 + immediate.x * 0.3 + capped * 0.2, 0.0, 2.0))
    else Missing
  }

  /** A record in stock, shipping immediately, with the ratio capped at 10 lands on the clip's upper bound 2. */
  lemma AvailabilityNeedsClip()
    ensures AvailabilityCell(Num(1.0), Num(1.0), Num(100.0), Num(10.0), true) == Num(2.0)
  {
  }

  /** The availability composite of row `i`; `df.get` supplies 0 for absent indicator columns. */
  function AvailabilityAt(df: Frame, i: nat, cap: bool): Cell {
    AvailabilityCell(GetOr(df, "in_stock", i, Num(0.0)), GetOr(df, "immediate_availability", i, Num(0.0)),
                     CellAt(df, "inventory", i), CellAt(df, "moq", i), cap)
  }

  function AvailabilityColumn(df: Frame, cap: bool): (r: seq<Cell>)
    ensures |r| == df.n && forall i :: 0 <= i < df.n ==> r[i] == AvailabilityAt(df, i, cap)
  {
    seq(df.n, i requires 0 <= i < df.n => AvailabilityAt(df, i, cap))
  }

  /** `df['availability_score'] = ...` when inventory and moq both exist (core and enhanced engineers). */
  function WithAvailabilityScore(df: Frame): (r: Frame)
    requires WellFormed(df)
    ensures WellFormed(r) && r.n == df.n
    ensures "inventory" in df.cols && "moq" in df.cols ==>
              r.cols == df.cols["availability_score" := AvailabilityColumn(df, true)]
    ensures !("inventory" in df.cols && "moq" in df.cols) ==> r == df
  {
    if "inventory" in df.cols && "moq" in df.cols then WithCol(df, "availability_score", AvailabilityColumn(df, true))
    else df
  }

  /** `df['demand_score'] = df['demand_all_time'].fillna(0)` when the demand column exists. */
  function WithDemandScore(df: Frame): (r: Frame)
    requires WellFormed(df)
    ensures WellFormed(r) && r.n == df.n
    ensures "demand_all_time" in df.cols ==>
              r.cols == df.cols["demand_score" := FillNa(df.cols["demand_all_time"], Num(0.0))]
    ensures "demand_all_time" !in df.cols ==> r == df
  {
    if "demand_all_time" in df.cols then WithCol(df, "demand_score", FillNa(df.cols["demand_all_time"], Num(0.0)))
    else df
  }

  // ---------------------------------------------------------------- 0/1 indicators

  /** The four indicators, each with the column it is computed from. */
  function IndicatorName(k: nat): string {
    if k == 0 then "is_authorized" else if k == 1 then "has_datasheet"
    else if k == 2 then "in_stock" else "immediate_availability"
  }

  function IndicatorSource(k: nat): string {
    if k == 0 then "source_type" else if k == 1 then "datasheet"
    else if k == 2 then "inventory" else "leadtime_weeks"
  }

  /** Whether indicator `k` holds for a source cell. */
  predicate IndicatorHolds(k: nat, c: Cell) {
    if k == 0 then TextIs(c, "Authorized")
    else if k == 1 then !c.Missing?
    else if k == 2 then Gt(c, 0.0)
    else Eq(c, 0.0)
  }

  /** Indicator `k` as a 0/1 column, `(condition).astype(int)`. */
  function IndicatorColumn(k: nat, src: seq<Cell>): (r: seq<Cell>)
    ensures |r| == |src|
    ensures forall i :: 0 <= i < |src| ==> r[i] == Num(Ind(IndicatorHolds(k, src[i])))
  {
    seq(|src|, i requires 0 <= i < |src| => Num(Ind(IndicatorHolds(k, src[i]))))
  }

  lemma IndicatorNamesDisjoint(k: nat, j: nat)
    requires k < 4 && j < 4
    ensures IndicatorName(k) != IndicatorSource(j)
    ensures k != j ==> IndicatorName(k) != IndicatorName(j)
  {
  }

  predicate IsIndicator(c: string) {
    c == "is_authorized" || c == "has_datasheet" || c == "in_stock" || c == "immediate_availability"
  }

  /** Writes indicator `k` when its source column exists. */
  function AddIndicator(f: Frame, k: nat): (r: Frame)
    requires WellFormed(f) && k < 4
    ensures WellFormed(r) && r.n == f.n
    ensures IndicatorSource(k) in f.cols ==>
              r.cols == f.cols[IndicatorName(k) := IndicatorColumn(k, f.cols[IndicatorSource(k)])]
    ensures IndicatorSource(k) !in f.cols ==> r == f
    ensures forall c :: c in f.cols ==> c in r.cols
    ensures forall c :: c != IndicatorName(k) ==> (c in r.cols <==> c in f.cols)
    ensures forall c :: c != IndicatorName(k) && c in f.cols ==> r.cols[c] == f.cols[c]
    ensures IndicatorName(k) in r.cols <==> IndicatorName(k) in f.cols || IndicatorSource(k) in f.cols
  {
    if IndicatorSource(k) in f.cols then
      WithCol(f, IndicatorName(k), IndicatorColumn(k, f.cols[IndicatorSource(k)]))
    else f
  }

  /** The four indicator writes of `_create_binary_features`, in source order. */
  function BinaryFrame(f: Frame): (r: Frame)
    requires WellFormed(f)
    ensures WellFormed(r) && r.n == f.n
  {
    AddIndicator(AddIndicator(AddIndicator(AddIndicator(f, 0), 1), 2), 3)
  }

  /**
   * Each indicator of `BinaryFrame(f)` is written exactly when its source column
   * exists, from that source; every other column is kept.
   */
  lemma BinaryFrameFacts(f: Frame)
    requires WellFormed(f)
    ensures var out := BinaryFrame(f);
            && (forall k :: 0 <= k < 4 ==> IndicatorStep(f, out, k))
            && (forall c :: c in f.cols ==> c in out.cols)
            && (forall c :: !IsIndicator(c) ==> (c in out.cols <==> c in f.cols))
            && (forall c :: c in f.cols && !IsIndicator(c) ==> out.cols[c] == f.cols[c])
  {
    forall j, k | 0 <= j < 4 && 0 <= k < 4
      ensures IndicatorName(j) != IndicatorSource(k)
      ensures j != k ==> IndicatorName(j) != IndicatorName(k)
    {
      IndicatorNamesDisjoint(j, k);
    }
    assert forall c :: !IsIndicator(c) ==> forall k :: 0 <= k < 4 ==> c != IndicatorName(k);
    var f1 := AddIndicator(f, 0);
    var f2 := AddIndicator(f1, 1);
    var f3 := AddIndicator(f2, 2);
    var out := AddIndicator(f3, 3);
    forall k | 0 <= k < 4 ensures IndicatorStep(f, out, k) {
      if k == 0 {
        AddIndicatorSets(f, 0);
        AddIndicatorKeeps(f1, 1, 0); AddIndicatorKeeps(f2, 2, 0); AddIndicatorKeeps(f3, 3, 0);
      } else if k == 1 {
        AddIndicatorKeeps(f, 0, 1); AddIndicatorSets(f1, 1);
        AddIndicatorKeeps(f2, 2, 1); AddIndicatorKeeps(f3, 3, 1);
      } else if k == 2 {
        AddIndicatorKeeps(f, 0, 2); AddIndicatorKeeps(f1, 1, 2);
        AddIndicatorSets(f2, 2); AddIndicatorKeeps(f3, 3, 2);
      } else {
        AddIndicatorKeeps(f, 0, 3); AddIndicatorKeeps(f1, 1, 3); AddIndicatorKeeps(f2, 2, 3);
        AddIndicatorSets(f3, 3);
      }
    }
  }

  /**
   * `_create_binary_features`: each indicator is written exactly when its source
   * column exists; every other column is kept.
   */
  method AddBinaryFeatures(df: Frame) returns (out: Frame)
    requires WellFormed(df)
    ensures out == BinaryFrame(df)
    ensures WellFormed(out) && out.n == df.n
    ensures forall k :: 0 <= k < 4 ==> IndicatorStep(df, out, k)
    ensures forall c :: c in df.cols ==> c in out.cols
    ensures forall c :: !IsIndicator(c) ==> (c in out.cols <==> c in df.cols)
    ensures forall c :: c in df.cols && !IsIndicator(c) ==> out.cols[c] == df.cols[c]
  {
    var f1 := AddIndicator(df, 0);
    var f2 := AddIndicator(f1, 1);
    var f3 := AddIndicator(f2, 2);
    out := AddIndicator(f3, 3);
    BinaryFrameFacts(df);
  }

  /** Indicator `k` of `out` is as `_create_binary_features` leaves it, starting from `df`. */
  predicate IndicatorStep(df: Frame, out: Frame, k: nat)
    requires k < 4
  {
    && (IndicatorName(k) in out.cols <==> IndicatorName(k) in df.cols || IndicatorSource(k) in df.cols)
    && (IndicatorSource(k) in df.cols ==>
          IndicatorName(k) in out.cols && out.cols[IndicatorName(k)] == IndicatorColumn(k, df.cols[IndicatorSource(k)]))
    && (IndicatorSource(k) !in df.cols && IndicatorName(k) in df.cols ==>
          IndicatorName(k) in out.cols && out.cols[IndicatorName(k)] == df.cols[IndicatorName(k)])
    && (IndicatorSource(k) in out.cols <==> IndicatorSource(k) in df.cols)
    && (IndicatorSource(k) in df.cols ==> out.cols[IndicatorSource(k)] == df.cols[IndicatorSource(k)])
  }

  /** Writing indicator `j` leaves indicator `k` and its source as they were. */
  lemma AddIndicatorKeeps(f: Frame, j: nat, k: nat)
    requires WellFormed(f) && j < 4 && k < 4 && j != k
    ensures IndicatorStepSame(f, AddIndicator(f, j), k)
  {
    IndicatorNamesDisjoint(j, k);
  }

  /** Writing indicator `k` sets it from its source, which stays as it was. */
  lemma AddIndicatorSets(f: Frame, k: nat)
    requires WellFormed(f) && k < 4
    ensures IndicatorStep(f, AddIndicator(f, k), k)
  {
    IndicatorNamesDisjoint(k, k);
  }

  /** Indicator `k` and its source are the same in `f` and `r`. */
  predicate IndicatorStepSame(f: Frame, r: Frame, k: nat)
    requires k < 4
  {
    && (IndicatorName(k) in r.cols <==> IndicatorName(k) in f.cols)
    && (IndicatorName(k) in f.cols ==> r.cols[IndicatorName(k)] == f.cols[IndicatorName(k)])
    && (IndicatorSource(k) in r.cols <==> IndicatorSource(k) in f.cols)
    && (IndicatorSource(k) in f.cols ==> r.cols[IndicatorSource(k)] == f.cols[IndicatorSource(k)])
  }

  // ---------------------------------------------------------------- derived log_/inv_ columns

  /** Where a configured field reads its values from. */
  datatype SourceRule =
    | OwnColumn          // the field must be a column and is read itself
    | PriceAliasIfPresent  // the field must be a column; `price` reads `first_price`
    | PriceAliasAlways     // the field must be a column or be `price`; `price` reads `first_price`

  function SourceColumn(rule: SourceRule, f: Frame, feature: string): Option<string> {
    var col := if !rule.OwnColumn? && feature == "price" then "first_price" else feature;
    var gate := feature in f.cols || (rule.PriceAliasAlways? && feature == "price");
    if gate && col in f.cols then Some(col) else None
  }

  /** One iteration of the loop over configured fields. */
  function DeriveOne(f: Frame, feature: string, prefix: string, rule: SourceRule, g: real -> Cell): (r: Frame)
    requires WellFormed(f)
    ensures WellFormed(r) && r.n == f.n
    ensures forall c :: c in f.cols ==> c in r.cols
  {
    match SourceColumn(rule, f, feature)
    case None => f
    case Some(src) => WithCol(f, prefix + feature, DerivedColumn(f.cols[src], g))
  }

  function DeriveAll(f: Frame, fields: seq<string>, prefix: string, rule: SourceRule, g: real -> Cell): (r: Frame)
    requires WellFormed(f)
    ensures WellFormed(r) && r.n == f.n
    ensures forall c :: c in f.cols ==> c in r.cols
    decreases |fields|
  {
    if fields == [] then f else DeriveAll(DeriveOne(f, fields[0], prefix, rule, g), fields[1..], prefix, rule, g)
  }

  /** The loop `for feature in fields: if <source present>: df[prefix + feature] = g(df[src].fillna(0))`. */
  method DeriveColumns(df: Frame, fields: seq<string>, prefix: string, rule: SourceRule, g: real -> Cell)
    returns (out: Frame)
    requires WellFormed(df)
    ensures out == DeriveAll(df, fields, prefix, rule, g)
  {
    out := df;
    var k := 0;
    while k < |fields|
      invariant k <= |fields| && out == DerivedUpTo(df, fields, k, prefix, rule, g)
    {
      out := DeriveField(out, fields[k], prefix, rule, g);
      k := k + 1;
    }
    DerivedUpToAll(df, fields, prefix, rule, g);
  }

  /** The body of the loop: `if <source present>: df[prefix + feature] = g(df[src].fillna(0))`. */
  method DeriveField(df: Frame, feature: string, prefix: string, rule: SourceRule, g: real -> Cell) returns (out: Frame)
    requires WellFormed(df)
    ensures out == DeriveOne(df, feature, prefix, rule, g)
  {
    out := df;
    var src := SourceColumn(rule, df, feature);
    if src.Some? {
      out := WithCol(df, prefix + feature, DerivedColumn(df.cols[src.value], g));
    }
    DeriveOneCases(df, feature, prefix, rule, g);
  }

  /** The frame after the first `k` iterations of the loop. */
  function DerivedUpTo(f: Frame, fields: seq<string>, k: nat, prefix: string, rule: SourceRule, g: real -> Cell): (r: Frame)
    requires WellFormed(f) && k <= |fields|
    ensures WellFormed(r) && r.n == f.n
  {
    if k == 0 then f else DeriveOne(DerivedUpTo(f, fields, k - 1, prefix, rule, g), fields[k - 1], prefix, rule, g)
  }

  /** One iteration writes the derived column when the source is present and otherwise changes nothing. */
  lemma DeriveOneCases(f: Frame, feature: string, prefix: string, rule: SourceRule, g: real -> Cell)
    requires WellFormed(f)
    ensures SourceColumn(rule, f, feature).None? ==> DeriveOne(f, feature, prefix, rule, g) == f
    ensures SourceColumn(rule, f, feature).Some? ==>
              var src := SourceColumn(rule, f, feature).value;
              src in f.cols && DeriveOne(f, feature, prefix, rule, g) == WithCol(f, prefix + feature, DerivedColumn(f.cols[src], g))
  {
  }

  /** Running the loop to the end derives all the fields. */
  lemma DerivedUpToAll(f: Frame, fields: seq<string>, prefix: string, rule: SourceRule, g: real -> Cell)
    requires WellFormed(f)
    ensures DerivedUpTo(f, fields, |fields|, prefix, rule, g) == DeriveAll(f, fields, prefix, rule, g)
  {
    DerivedUpToRest(f, fields, |fields|, prefix, rule, g);
    assert fields[|fields|..] == [];
  }

  /** After `k` iterations, deriving the remaining fields gives the result of deriving them all. */
  lemma {:induction false} DerivedUpToRest(f: Frame, fields: seq<string>, k: nat, prefix: string, rule: SourceRule, g: real -> Cell)
    requires WellFormed(f) && k <= |fields|
    ensures DeriveAll(DerivedUpTo(f, fields, k, prefix, rule, g), fields[k..], prefix, rule, g)
            == DeriveAll(f, fields, prefix, rule, g)
  {
    if k == 0 {
      assert fields[0..] == fields;
    } else {
      DerivedUpToRest(f, fields, k - 1, prefix, rule, g);
      DeriveAllStep(DerivedUpTo(f, fields, k - 1, prefix, rule, g), fields, k - 1, prefix, rule, g);
    }
  }

  /** Deriving from field `k` on is deriving field `k`, then the fields after it. */
  lemma DeriveAllStep(f: Frame, fields: seq<string>, k: nat, prefix: string, rule: SourceRule, g: real -> Cell)
    requires WellFormed(f) && k < |fields|
    ensures DeriveAll(f, fields[k..], prefix, rule, g)
            == DeriveAll(DeriveOne(f, fields[k], prefix, rule, g), fields[k + 1..], prefix, rule, g)
  {
    assert fields[k..][1..] == fields[k + 1..];
  }

  /** Column `c` is `prefix + field` for a configured field whose source is present. */
  predicate IsDerived(f: Frame, fields: seq<string>, prefix: string, rule: SourceRule, c: string) {
    exists k :: 0 <= k < |fields| && SourceColumn(rule, f, fields[k]).Some? && c == prefix + fields[k]
  }

  /** The values a field's derived column takes. */
  function DerivedColumn(values: seq<Cell>, g: real -> Cell): (r: seq<Cell>)
    ensures |r| == |values|
    ensures forall i :: 0 <= i < |values| ==> r[i] == g(FillZero(values[i]))
  {
    seq(|values|, i requires 0 <= i < |values| => g(FillZero(values[i])))
  }

  /** No configured field nor `first_price` is itself a derived column name. */
  predicate PrefixFree(fields: seq<string>, prefix: string) {
    && !StartsWith("first_price", prefix)
    && forall k :: 0 <= k < |fields| ==> !StartsWith(fields[k], prefix)
  }

  lemma PrefixedName(prefix: string, s: string)
    ensures StartsWith(prefix + s, prefix)
  {
    assert (prefix + s)[..|prefix|] == prefix;
  }

  lemma DeriveOneKeepsSources(f: Frame, feature: string, prefix: string, rule: SourceRule, g: real -> Cell, x: string)
    requires WellFormed(f) && !StartsWith(x, prefix) && !StartsWith("first_price", prefix)
    ensures SourceColumn(rule, DeriveOne(f, feature, prefix, rule, g), x) == SourceColumn(rule, f, x)
    ensures SourceColumn(rule, f, x).Some? ==>
              DeriveOne(f, feature, prefix, rule, g).cols[SourceColumn(rule, f, x).value] == f.cols[SourceColumn(rule, f, x).value]
  {
    PrefixedName(prefix, feature);
  }

  lemma SourcesKept(f: Frame, feature: string, prefix: string, rule: SourceRule, g: real -> Cell, fields: seq<string>)
    requires WellFormed(f) && PrefixFree(fields, prefix)
    ensures forall k :: 0 <= k < |fields| ==>
              SourceColumn(rule, DeriveOne(f, feature, prefix, rule, g), fields[k]) == SourceColumn(rule, f, fields[k])
    ensures forall k :: 0 <= k < |fields| && SourceColumn(rule, f, fields[k]).Some? ==>
              DeriveOne(f, feature, prefix, rule, g).cols[SourceColumn(rule, f, fields[k]).value] ==
              f.cols[SourceColumn(rule, f, fields[k]).value]
  {
    forall k | 0 <= k < |fields|
      ensures SourceColumn(rule, DeriveOne(f, feature, prefix, rule, g), fields[k]) == SourceColumn(rule, f, fields[k])
      ensures SourceColumn(rule, f, fields[k]).Some? ==>
                DeriveOne(f, feature, prefix, rule, g).cols[SourceColumn(rule, f, fields[k]).value] ==
                f.cols[SourceColumn(rule, f, fields[k]).value]
    {
      DeriveOneKeepsSources(f, feature, prefix, rule, g, fields[k]);
    }
  }

  lemma IsDerivedSplit(f: Frame, f1: Frame, fields: seq<string>, prefix: string, rule: SourceRule, c: string)
    requires fields != []
    requires forall k :: 0 <= k < |fields| - 1 ==>
               SourceColumn(rule, f1, fields[1..][k]) == SourceColumn(rule, f, fields[1..][k])
    ensures IsDerived(f, fields, prefix, rule, c) <==>
              (SourceColumn(rule, f, fields[0]).Some? && c == prefix + fields[0]) || IsDerived(f1, fields[1..], prefix, rule, c)
  {
    var rest := fields[1..];
    if IsDerived(f, fields, prefix, rule, c) {
      var k :| 0 <= k < |fields| && SourceColumn(rule, f, fields[k]).Some? && c == prefix + fields[k];
      if k > 0 {
        assert fields[k] == rest[k - 1];
      }
    }
    if IsDerived(f1, rest, prefix, rule, c) {
      var k :| 0 <= k < |rest| && SourceColumn(rule, f1, rest[k]).Some? && c == prefix + rest[k];
      assert rest[k] == fields[k + 1];
    }
  }

  /** The derive loop adds exactly the `prefix + field` columns whose source is present. */
  lemma {:induction false} DeriveAllKeys(f: Frame, fields: seq<string>, prefix: string, rule: SourceRule, g: real -> Cell)
    requires WellFormed(f) && PrefixFree(fields, prefix)
    ensures forall c :: c in DeriveAll(f, fields, prefix, rule, g).cols <==>
              c in f.cols || IsDerived(f, fields, prefix, rule, c)
    decreases |fields|
  {
    if fields != [] {
      var f1 := DeriveOne(f, fields[0], prefix, rule, g);
      var rest := fields[1..];
      assert PrefixFree(rest, prefix);
      DeriveAllKeys(f1, rest, prefix, rule, g);
      SourcesKept(f, fields[0], prefix, rule, g, rest);
      forall c ensures IsDerived(f, fields, prefix, rule, c) <==>
                 (SourceColumn(rule, f, fields[0]).Some? && c == prefix + fields[0]) || IsDerived(f1, rest, prefix, rule, c)
      {
        IsDerivedSplit(f, f1, fields, prefix, rule, c);
      }
    }
  }

  /** With each field read from its own column, the derived columns are those of the fields that are columns. */
  lemma DeriveOwnKeys(f: Frame, fields: seq<string>, prefix: string, g: real -> Cell, c: string)
    requires WellFormed(f) && PrefixFree(fields, prefix)
    ensures c in DeriveAll(f, fields, prefix, OwnColumn, g).cols <==>
              c in f.cols || exists k :: 0 <= k < |fields| && fields[k] in f.cols && c == prefix + fields[k]
  {
    DeriveAllKeys(f, fields, prefix, OwnColumn, g);
    if IsDerived(f, fields, prefix, OwnColumn, c) {
      var k :| 0 <= k < |fields| && SourceColumn(OwnColumn, f, fields[k]).Some? && c == prefix + fields[k];
      OwnSource(f, fields[k]);
    }
    if exists k :: 0 <= k < |fields| && fields[k] in f.cols && c == prefix + fields[k] {
      var k :| 0 <= k < |fields| && fields[k] in f.cols && c == prefix + fields[k];
      OwnSource(f, fields[k]);
    }
  }

  /** A field read from its own column has a source exactly when that column exists. */
  lemma OwnSource(f: Frame, x: string)
    ensures SourceColumn(OwnColumn, f, x) == if x in f.cols then Some(x) else None
  {
  }

  /** Every column that is not a derived name keeps its values. */
  lemma {:induction false} DeriveAllKeeps(f: Frame, fields: seq<string>, prefix: string, rule: SourceRule, g: real -> Cell)
    requires WellFormed(f) && PrefixFree(fields, prefix)
    ensures forall c :: c in f.cols && !IsDerived(f, fields, prefix, rule, c) ==>
              DeriveAll(f, fields, prefix, rule, g).cols[c] == f.cols[c]
    decreases |fields|
  {
    if fields != [] {
      var f1 := DeriveOne(f, fields[0], prefix, rule, g);
      var rest := fields[1..];
      assert PrefixFree(rest, prefix);
      DeriveAllKeeps(f1, rest, prefix, rule, g);
      SourcesKept(f, fields[0], prefix, rule, g, rest);
      assert DeriveAll(f, fields, prefix, rule, g) == DeriveAll(f1, rest, prefix, rule, g);
      forall c | c in f.cols && !IsDerived(f, fields, prefix, rule, c)
        ensures DeriveAll(f, fields, prefix, rule, g).cols[c] == f.cols[c]
      {
        IsDerivedSplit(f, f1, fields, prefix, rule, c);
        assert !IsDerived(f1, rest, prefix, rule, c);
        assert c in f1.cols && f1.cols[c] == f.cols[c];
      }
    }
  }

  /** Columns that do not start with the prefix are never touched by the derive loop. */
  lemma {:induction false} DeriveAllKeepsUnprefixed(f: Frame, fields: seq<string>, prefix: string, rule: SourceRule,
                                                    g: real -> Cell, c: string)
    requires WellFormed(f) && !StartsWith(c, prefix)
    ensures c in DeriveAll(f, fields, prefix, rule, g).cols <==> c in f.cols
    ensures c in f.cols ==> DeriveAll(f, fields, prefix, rule, g).cols[c] == f.cols[c]
    decreases |fields|
  {
    if fields != [] {
      var f1 := DeriveOne(f, fields[0], prefix, rule, g);
      PrefixedName(prefix, fields[0]);
      assert c != prefix + fields[0];
      assert (c in f1.cols <==> c in f.cols) && (c in f.cols ==> f1.cols[c] == f.cols[c]);
      DeriveAllKeepsUnprefixed(f1, fields[1..], prefix, rule, g, c);
      assert DeriveAll(f, fields, prefix, rule, g) == DeriveAll(f1, fields[1..], prefix, rule, g);
    }
  }

  lemma PrefixCancel(prefix: string, a: string, b: string)
    requires prefix + a == prefix + b
    ensures a == b
  {
    assert a == (prefix + a)[|prefix|..];
    assert b == (prefix + b)[|prefix|..];
  }

  /** The derived column of a field whose source is present holds `g` of the source's values, missing as 0. */
  lemma {:induction false} DeriveAllValues(f: Frame, fields: seq<string>, prefix: string, rule: SourceRule, g: real -> Cell,
                                           k: nat, src: string)
    requires WellFormed(f) && PrefixFree(fields, prefix)
    requires k < |fields| && SourceColumn(rule, f, fields[k]) == Some(src)
    ensures prefix + fields[k] in DeriveAll(f, fields, prefix, rule, g).cols
    ensures DeriveAll(f, fields, prefix, rule, g).cols[prefix + fields[k]] == DerivedColumn(f.cols[src], g)
    decreases |fields|
  {
    var f1 := DeriveOne(f, fields[0], prefix, rule, g);
    var rest := fields[1..];
    assert PrefixFree(rest, prefix);
    assert DeriveAll(f, fields, prefix, rule, g) == DeriveAll(f1, rest, prefix, rule, g);
    if k > 0 {
      var x := fields[k];
      assert x == rest[k - 1];
      DeriveOneKeepsSources(f, fields[0], prefix, rule, g, x);
      DeriveAllValues(f1, rest, prefix, rule, g, k - 1, src);
      assert prefix + rest[k - 1] == prefix + x;
    } else {
      DeriveOneKeepsSources(f, fields[0], prefix, rule, g, fields[0]);
      DeriveAllValuesHead(f, fields, prefix, rule, g, src);
    }
  }

  lemma {:induction false} DeriveAllValuesHead(f: Frame, fields: seq<string>, prefix: string, rule: SourceRule, g: real -> Cell,
                                               src: string)
    requires WellFormed(f) && PrefixFree(fields, prefix)
    requires 0 < |fields| && SourceColumn(rule, f, fields[0]) == Some(src)
    ensures prefix + fields[0] in DeriveAll(f, fields, prefix, rule, g).cols
    ensures DeriveAll(f, fields, prefix, rule, g).cols[prefix + fields[0]] == DerivedColumn(f.cols[src], g)
    decreases |fields|, 0
  {
    var f1 := DeriveOne(f, fields[0], prefix, rule, g);
    var rest := fields[1..];
    assert PrefixFree(rest, prefix);
    assert DeriveAll(f, fields, prefix, rule, g) == DeriveAll(f1, rest, prefix, rule, g);
    var c := prefix + fields[0];
    assert c in f1.cols && f1.cols[c] == DerivedColumn(f.cols[src], g);
    if IsDerived(f1, rest, prefix, rule, c) {
      var j :| 0 <= j < |rest| && SourceColumn(rule, f1, rest[j]).Some? && c == prefix + rest[j];
      PrefixCancel(prefix, fields[0], rest[j]);
      DeriveOneKeepsSources(f, fields[0], prefix, rule, g, fields[0]);
      DeriveAllValues(f1, rest, prefix, rule, g, j, src);
    } else {
      DeriveAllKeeps(f1, rest, prefix, rule, g);
    }
  }

  // ---------------------------------------------------------------- writing several columns

  predicate Distinct(names: seq<string>) {
    forall a, b :: 0 <= a < b < |names| ==> names[a] != names[b]
  }

  /** `df[names] = values`: column `names[k]` gets `values[k]`, the rest is kept. */
  function WithCols(f: Frame, names: seq<string>, values: seq<seq<Cell>>): (r: Frame)
    requires WellFormed(f) && |names| == |values| && Distinct(names)
    requires forall k :: 0 <= k < |values| ==> |values[k]| == f.n
    ensures WellFormed(r) && r.n == f.n
    ensures forall c :: c in r.cols <==> c in f.cols || c in names
    ensures forall k :: 0 <= k < |names| ==> r.cols[names[k]] == values[k]
    ensures forall c :: c in f.cols && c !in names ==> r.cols[c] == f.cols[c]
    ensures (forall k :: 0 <= k < |names| ==> names[k] in f.cols) ==> r.names == f.names
    decreases |names|
  {
    if names == [] then f
    else
      var g := WithCol(f, names[0], values[0]);
      var r := WithCols(g, names[1..], values[1..]);
      WithColsStep(f, g, r, names, values);
      r
  }

  /** Setting the first column, then the others, sets them all. */
  lemma WithColsStep(f: Frame, g: Frame, r: Frame, names: seq<string>, values: seq<seq<Cell>>)
    requires |names| == |values| > 0 && Distinct(names)
    requires g.cols == f.cols[names[0] := values[0]] && (names[0] in f.cols ==> g.names == f.names)
    requires var rest, vs := names[1..], values[1..];
             && (forall c :: c in r.cols <==> c in g.cols || c in rest)
             && (forall k :: 0 <= k < |rest| ==> r.cols[rest[k]] == vs[k])
             && (forall c :: c in g.cols && c !in rest ==> r.cols[c] == g.cols[c])
             && ((forall k :: 0 <= k < |rest| ==> rest[k] in g.cols) ==> r.names == g.names)
    ensures forall c :: c in r.cols <==> c in f.cols || c in names
    ensures forall k :: 0 <= k < |names| ==> r.cols[names[k]] == values[k]
    ensures forall c :: c in f.cols && c !in names ==> r.cols[c] == f.cols[c]
    ensures (forall k :: 0 <= k < |names| ==> names[k] in f.cols) ==> r.names == f.names
  {
    var rest := names[1..];
    assert forall k :: 0 < k < |names| ==> names[k] == rest[k - 1];
    assert names == [names[0]] + rest;
    assert names[0] !in rest;
  }

  /** The scaler of sklearn, as a given function on the columns it is fitted on; `None` when it raises. */
  predicate ShapeKept(m: seq<seq<Cell>>, r: Option<seq<seq<real>>>) {
    r.Some? ==> |r.value| == |m| && forall k :: 0 <= k < |m| ==> |r.value[k]| == |m[k]|
  }

  type ColumnScaler = g: seq<seq<Cell>> -> Option<seq<seq<real>>> | forall m :: ShapeKept(m, g(m))
    witness (m: seq<seq<Cell>>) => None

  function NumCols(m: seq<seq<real>>): (r: seq<seq<Cell>>)
    ensures |r| == |m| && forall k :: 0 <= k < |m| ==> r[k] == NumCol(m[k])
  {
    seq(|m|, k requires 0 <= k < |m| => NumCol(m[k]))
  }

  /** The columns called `names`, as a list. */
  function Columns(f: Frame, names: seq<string>): (r: seq<seq<Cell>>)
    requires WellFormed(f) && forall k :: 0 <= k < |names| ==> names[k] in f.cols
    ensures |r| == |names| && forall k :: 0 <= k < |names| ==> r[k] == f.cols[names[k]] && |r[k]| == f.n
  {
    seq(|names|, k requires 0 <= k < |names| => f.cols[names[k]])
  }

  /** The names of `f`'s columns that start with one of the scaling prefixes, in column order. */
  function PrefixedNames(names: seq<string>): (r: seq<string>)
    ensures forall c :: c in r <==> c in names && HasScalePrefix(c)
    ensures Distinct(names) ==> Distinct(r)
  {
    if names == [] then []
    else
      var rest := PrefixedNames(names[1..]);
      assert Distinct(names) ==> names[0] !in names[1..];
      if HasScalePrefix(names[0]) then [names[0]] + rest else rest
  }

  predicate HasScalePrefix(c: string) {
    StartsWith(c, "log_") || StartsWith(c, "inv_") || StartsWith(c, "availability_") || StartsWith(c, "demand_")
  }

  /** A name that differs from each scaling prefix at the given positions has none of them. */
  lemma NotScalePrefixed(s: string, jl: nat, ji: nat, ja: nat, jd: nat)
    requires jl < 4 && (jl >= |s| || s[jl] != "log_"[jl])
    requires ji < 4 && (ji >= |s| || s[ji] != "inv_"[ji])
    requires ja < 13 && (ja >= |s| || s[ja] != "availability_"[ja])
    requires jd < 7 && (jd >= |s| || s[jd] != "demand_"[jd])
    ensures !HasScalePrefix(s)
  {
    NotStartsWithAt(s, "log_", jl);
    NotStartsWithAt(s, "inv_", ji);
    NotStartsWithAt(s, "availability_", ja);
    NotStartsWithAt(s, "demand_", jd);
  }
}
