/**
 * The data steps of the production pipeline: its own merge (left join on
 * `pn`, zero-filled demand columns, keep-first de-duplication on `pn_clean`),
 * the validation gate of the sample run, and the execution summary computed
 * from the `priority_score` column.
 */
module ProductionEtl {
  import opened Wrappers
  import opened Frames
  import opened RealMath
  import opened Ranking
  import opened Merge
  import opened Validators

  // ---------------------------------------------------------------- _merge_datasets

  /** Why a pipeline step raises. */
  datatype EtlError =
    | MergeFailed(error: MergeError)
    | ValidationFailed(issues: seq<Issue>)
    | MissingScores

  /** True when no cell of the column is missing. */
  predicate NoMissing(col: seq<Cell>) {
    forall i :: 0 <= i < |col| ==> !col[i].Missing?
  }

  /**
   * `_merge_datasets`: after the join both demand columns are replaced by
   * their `fillna(0)`, and rows are de-duplicated on `pn_clean` keeping the
   * first; a part frame that already had a demand column leaves only the
   * suffixed names behind, and reading the plain name raises.
   */
  method MergeDatasets(panda: Frame, demand: Frame) returns (r: Result<Frame, EtlError>)
    requires WellFormed(panda) && WellFormed(demand)
    ensures r.Failure? <==>
              || MergeResult(panda, demand).Failure?
              || "demand_all_time" in panda.cols || "demand_index" in panda.cols
    ensures MergeResult(panda, demand).Failure? ==> r == Failure(MergeFailed(MergeResult(panda, demand).error))
    ensures r.Failure? ==> r.error.MergeFailed?
    ensures r.Success? ==>
              && WellFormed(r.value) && r.value.names == MergedNames(panda)
              && "demand_all_time" in r.value.cols && NoMissing(r.value.cols["demand_all_time"])
              && "demand_index" in r.value.cols && NoMissing(r.value.cols["demand_index"])
              && r.value.n <= |Rows(panda, demand)|
              && ("pn_clean" in r.value.cols ==>
                    forall a, b :: 0 <= a < b < r.value.n ==> r.value.cols["pn_clean"][a] != r.value.cols["pn_clean"][b])
    ensures r.Success? ==>
              && MergeResult(panda, demand).Success?
              && "demand_all_time" in MergeResult(panda, demand).value.cols
              && "demand_index" in MergeResult(panda, demand).value.cols
              && r.value == Deduplicated(FilledMerge(MergeResult(panda, demand).value))
  {
    var merged := MergeResult(panda, demand);
    if merged.Failure? {
      return Failure(MergeFailed(merged.error));
    }
    var m := merged.value;
    MergedRows(panda, demand);
    DemandNamesPresent(panda, demand);
    if "demand_all_time" !in m.cols {
      return Failure(MergeFailed(MissingColumn("demand_all_time")));
    }
    m := ZeroFilled(m, "demand_all_time");
    if "demand_index" !in m.cols {
      return Failure(MergeFailed(MissingColumn("demand_index")));
    }
    m := ZeroFilled(m, "demand_index");
    if "pn_clean" in m.cols {
      DeduplicatedFacts(m);
      DeduplicatedKeepsFilled(m);
      m := Deduplicated(m);
    }
    r := Success(m);
  }

  /** The joined frame with both demand columns zero-filled. */
  function FilledMerge(m: Frame): (r: Frame)
    requires WellFormed(m) && "demand_all_time" in m.cols && "demand_index" in m.cols
    ensures WellFormed(r)
  {
    ZeroFilled(ZeroFilled(m, "demand_all_time"), "demand_index")
  }

  /**
   * Before de-duplication, row `t` of the merge is join row `t`: each part
   * column carries the value of its left row, and each demand column the value
   * of the matched demand row, or 0 when the part has no match or the value is
   * missing.
   */
  lemma FilledMergeValues(panda: Frame, demand: Frame, t: nat)
    requires WellFormed(panda) && WellFormed(demand) && MergeResult(panda, demand).Success?
    requires "demand_all_time" !in panda.cols && "demand_index" !in panda.cols
    requires t < |Rows(panda, demand)|
    ensures var m, rows := MergeResult(panda, demand).value, Rows(panda, demand);
            && "demand_all_time" in m.cols && "demand_index" in m.cols
            && FilledMerge(m).n == |rows|
            && (forall c :: c in DemandNames() ==>
                  c in FilledMerge(m).cols
                  && FilledMerge(m).cols[c][t] == (var v := RightColumn(demand, rows, c)[t]; if v.Missing? then Num(0.0) else v))
            && (rows[t].right.None? ==>
                  FilledMerge(m).cols["demand_all_time"][t] == Num(0.0) && FilledMerge(m).cols["demand_index"][t] == Num(0.0))
            && (forall c :: c in panda.cols ==> c in FilledMerge(m).cols && FilledMerge(m).cols[c][t] == LeftColumn(panda, rows, c)[t])
  {
    var m, rows := MergeResult(panda, demand).value, Rows(panda, demand);
    MergedRows(panda, demand);
    MergedDemandColumn(panda, demand, "demand_all_time");
    MergedDemandColumn(panda, demand, "demand_index");
    var f := FilledMerge(m);
    var f1 := ZeroFilled(m, "demand_all_time");
    assert f == ZeroFilled(f1, "demand_index");
    assert f.cols["demand_all_time"] == FillNa(m.cols["demand_all_time"], Num(0.0));
    assert f.cols["demand_index"] == FillNa(m.cols["demand_index"], Num(0.0));
    forall c | c in panda.cols ensures c in f.cols && f.cols[c] == LeftColumn(panda, rows, c) {
      MergedLeftColumn(panda, demand, c);
      assert f.cols[c] == m.cols[c];
    }
  }

  /** `df[c] = df[c].fillna(0)`: the column has no missing cell afterwards; the others are unchanged. */
  function ZeroFilled(f: Frame, c: string): (r: Frame)
    requires WellFormed(f) && c in f.cols
    ensures WellFormed(r) && r.n == f.n && r.names == f.names && r.cols.Keys == f.cols.Keys
    ensures NoMissing(r.cols[c])
    ensures forall d :: d in f.cols && d != c ==> r.cols[d] == f.cols[d]
  {
    WithCol(f, c, FillNa(f.cols[c], Num(0.0)))
  }

  /** De-duplication selects rows, so filled demand columns stay filled. */
  lemma DeduplicatedKeepsFilled(f: Frame)
    requires WellFormed(f) && "demand_all_time" in f.cols && "demand_index" in f.cols
    requires NoMissing(f.cols["demand_all_time"]) && NoMissing(f.cols["demand_index"])
    ensures NoMissing(Deduplicated(f).cols["demand_all_time"]) && NoMissing(Deduplicated(f).cols["demand_index"])
  {
  }

  /** After a successful join the plain demand names exist exactly when the part frame had neither. */
  lemma DemandNamesPresent(panda: Frame, demand: Frame)
    requires WellFormed(panda) && WellFormed(demand) && MergeResult(panda, demand).Success?
    ensures var m := MergeResult(panda, demand).value;
            && ("demand_all_time" in m.cols <==> "demand_all_time" !in panda.cols)
            && ("demand_index" in m.cols <==> "demand_index" !in panda.cols)
  {
    var m := MergeResult(panda, demand).value;
    var names := MergedNames(panda);
    forall c | c in DemandNames()
      ensures c in m.cols <==> c !in panda.cols
    {
      if c !in panda.cols {
        MergedDemandColumn(panda, demand, c);
      } else {
        forall k | 0 <= k < |names|
          ensures names[k] != c
        {
          if k < |panda.names| {
            SuffixedDiffers(panda.names[k], c);
          } else {
            SuffixedDiffers(c, c);
          }
        }
      }
    }
  }

  /** A name carrying a suffix differs from the demand name it was derived from. */
  lemma SuffixedDiffers(x: string, c: string)
    requires c in DemandNames()
    ensures LeftName(x) != c
    ensures (c + "_y") != c && (c + "_x") != c
  {
    if x == "demand_all_time" || x == "demand_index" {
      assert |LeftName(x)| == |x| + 2;
    }
  }

  // ---------------------------------------------------------------- the sample gate

  /** The gate of the sample run: a failed validation raises only in production. */
  function SampleGate(v: ValidationResult, environment: string): (r: Result<ValidationResult, EtlError>)
    ensures r.Failure? <==> !v.isValid && environment == "production"
    ensures r.Failure? ==> r.error == ValidationFailed(v.issues)
  {
    if !v.isValid && environment == "production" then Failure(ValidationFailed(v.issues)) else Success(v)
  }

  /**
   * The part of `_run_sample_pipeline` before scoring: merge, validate, gate.
   * A validation error is raised only in production, and in production only
   * a non-empty merged frame with `pn` and `inventory` columns gets through.
   */
  method SampleChecks(panda: Frame, demand: Frame, config: ValidatorConfig, environment: string)
    returns (r: Result<Frame, EtlError>)
    requires WellFormed(panda) && WellFormed(demand)
    ensures r.Failure? && r.error.ValidationFailed? ==> environment == "production"
    ensures r.Success? ==>
              environment != "production" || (r.value.n > 0 && "pn" in r.value.cols && "inventory" in r.value.cols)
    ensures r.Failure? && !r.error.ValidationFailed? ==> r.error.MergeFailed?
  {
    var merged := MergeDatasets(panda, demand);
    if merged.Failure? {
      return Failure(merged.error);
    }
    var m := merged.value;
    var v := Validation(m, config);
    ValidationFacts(m, config);
    var gate := SampleGate(v, environment);
    if gate.Failure? {
      return Failure(gate.error);
    }
    r := Success(m);
  }

  // ---------------------------------------------------------------- _create_pipeline_summary

  /** The number of numeric cells whose value satisfies `p`; missing scores compare false. */
  function CountIf(col: seq<Cell>, p: real -> bool): (c: nat)
    ensures c <= |col|
    decreases |col|
  {
    if col == [] then 0
    else
      var i := |col| - 1;
      CountIf(col[..i], p) + (if col[i].Num? && p(col[i].x) then 1 else 0)
  }

  predicate IsScored(x: real) { x > 0.0 }
  predicate IsHigh(x: real) { x >= 90.0 }
  predicate IsMedium(x: real) { x >= 50.0 && x < 90.0 }
  predicate IsLow(x: real) { x > 0.0 && x < 50.0 }
  predicate IsZero(x: real) { x == 0.0 }
  predicate IsBelowHigh(x: real) { x > 0.0 && x < 90.0 }

  /** The numeric scores in row order; `mean`, `median` and `max` skip missing values. */
  function Numbers(col: seq<Cell>): (r: seq<real>)
    ensures |r| <= |col|
    decreases |col|
  {
    if col == [] then []
    else
      var i := |col| - 1;
      Numbers(col[..i]) + (if col[i].Num? then [col[i].x] else [])
  }

  function Sum(s: seq<real>): real
    decreases |s|
  {
    if s == [] then 0.0 else Sum(s[..|s| - 1]) + s[|s| - 1]
  }

  /** `mean()`: undefined (NaN) when there is no number. */
  function Mean(s: seq<real>): (r: Option<real>)
    ensures r.Some? <==> |s| > 0
    ensures r.Some? ==> SeqMin(s) <= r.value <= SeqMax(s)
  {
    if s == [] then None
    else
      MeanWithin(s, SeqMin(s), SeqMax(s));
      Some(Sum(s) / |s| as real)
  }

  /** `median()`: the middle value in sorted order, the mean of the two middle values for an even count. */
  function Median(s: seq<real>): (r: Option<real>)
    ensures r.Some? <==> |s| > 0
    ensures r.Some? ==> SeqMin(s) <= r.value <= SeqMax(s)
  {
    if s == [] then None
    else
      var p := DescendingOrder(s);
      var h := |s| / 2;
      if |s| % 2 == 1 then Some(s[p[h]]) else Some((s[p[h - 1]] + s[p[h]]) / 2.0)
  }

  /** `max()`: undefined (NaN) when there is no number. */
  function Top(s: seq<real>): (r: Option<real>)
    ensures r.Some? <==> |s| > 0
    ensures r.Some? ==> (forall i :: 0 <= i < |s| ==> s[i] <= r.value) && r.value in s
  {
    if s == [] then None else Some(SeqMax(s))
  }

  /** A sum of `n` values between `lo` and `hi` lies between `n * lo` and `n * hi`. */
  lemma {:induction false} SumBounds(s: seq<real>, lo: real, hi: real)
    requires forall i :: 0 <= i < |s| ==> lo <= s[i] <= hi
    ensures |s| as real * lo <= Sum(s) <= |s| as real * hi
    decreases |s|
  {
    if s != [] {
      var k := |s| - 1;
      SumBounds(s[..k], lo, hi);
      assert (k + 1) as real * lo == k as real * lo + lo;
      assert (k + 1) as real * hi == k as real * hi + hi;
    }
  }

  /** Dividing bounds `n * lo <= t <= n * hi` by `n`. */
  lemma MeanBounds(t: real, n: real, lo: real, hi: real)
    requires n > 0.0 && n * lo <= t <= n * hi
    ensures lo <= t / n <= hi
  {
    DivMonotone(n * lo, t, n);
    DivMonotone(t, n * hi, n);
    assert (n * lo) / n == lo && (n * hi) / n == hi;
  }

  /** The average of a non-empty sequence lies within any bounds of its elements. */
  lemma MeanWithin(s: seq<real>, lo: real, hi: real)
    requires |s| > 0 && forall i :: 0 <= i < |s| ==> lo <= s[i] <= hi
    ensures lo <= Sum(s) / |s| as real <= hi
  {
    SumBounds(s, lo, hi);
    MeanBounds(Sum(s), |s| as real, lo, hi);
  }

  datatype Distribution = Distribution(high: nat, medium: nat, low: nat, zero: nat)

  datatype ExecutionSummary = ExecutionSummary(
    total: nat, scored: nat, avg: Option<real>, median: Option<real>, top: Option<real>, distribution: Distribution)

  /**
   * The `execution_summary` part of `_create_pipeline_summary`: empty (`None`)
   * without a frame or on an empty frame; reading a missing `priority_score`
   * column raises.
   */
  function PipelineSummary(scored: Option<Frame>): (r: Result<Option<ExecutionSummary>, EtlError>)
    requires scored.Some? ==> WellFormed(scored.value)
    ensures r.Failure? <==> scored.Some? && scored.value.n > 0 && "priority_score" !in scored.value.cols
    ensures r.Success? && r.value.Some? ==> scored.Some? && r.value.value.total == scored.value.n > 0
  {
    if scored.None? || scored.value.n == 0 then Success(None)
    else if "priority_score" !in scored.value.cols then Failure(MissingScores)
    else
      var col := scored.value.cols["priority_score"];
      var nums := Numbers(col);
      Success(Some(ExecutionSummary(
        scored.value.n, CountIf(col, IsScored), Mean(nums), Median(nums), Top(nums),
        Distribution(CountIf(col, IsHigh), CountIf(col, IsMedium), CountIf(col, IsLow), CountIf(col, IsZero)))))
  }

  /** Two disjoint conditions count separately: the count of their union is the sum of their counts. */
  lemma {:induction false} CountIfSplit(col: seq<Cell>, p: real -> bool, q: real -> bool, u: real -> bool)
    requires forall x :: u(x) <==> p(x) || q(x)
    requires forall x :: !(p(x) && q(x))
    ensures CountIf(col, u) == CountIf(col, p) + CountIf(col, q)
    decreases |col|
  {
    if col != [] {
      CountIfSplit(col[..|col| - 1], p, q, u);
    }
  }

  /**
   * The summary's counts: the buckets high, medium and low together are the
   * scored components, and with the zero bucket they account for no more
   * rows than the frame has.
   */
  lemma SummaryBuckets(scored: Frame)
    requires WellFormed(scored) && PipelineSummary(Some(scored)).Success?
    requires PipelineSummary(Some(scored)).value.Some?
    ensures var s := PipelineSummary(Some(scored)).value.value;
            && s.total == scored.n
            && s.scored == s.distribution.high + s.distribution.medium + s.distribution.low
            && s.scored + s.distribution.zero <= s.total
  {
    var col := scored.cols["priority_score"];
    CountIfSplit(col, IsMedium, IsLow, IsBelowHigh);
    CountIfSplit(col, IsHigh, IsBelowHigh, IsScored);
    var nonneg := (x: real) => x >= 0.0;
    CountIfSplit(col, IsScored, IsZero, nonneg);
  }

  /** The summary is empty exactly without a frame or on an empty frame. */
  lemma SummaryEmptyIff(scored: Option<Frame>)
    requires scored.Some? ==> WellFormed(scored.value)
    ensures PipelineSummary(scored) == Success(None) <==> scored.None? || scored.value.n == 0
  {
  }

  /** The average, median and top score of a summary lie between the smallest and largest numeric score. */
  lemma SummaryStatistics(scored: Frame)
    requires WellFormed(scored) && scored.n > 0 && "priority_score" in scored.cols
    ensures var s := PipelineSummary(Some(scored)).value.value;
            var nums := Numbers(scored.cols["priority_score"]);
            && (s.avg.Some? <==> |nums| > 0) && (s.median.Some? <==> |nums| > 0) && (s.top.Some? <==> |nums| > 0)
            && (|nums| > 0 ==>
                  && SeqMin(nums) <= s.avg.value <= SeqMax(nums)
                  && SeqMin(nums) <= s.median.value <= SeqMax(nums)
                  && s.top.value == SeqMax(nums))
  {
  }
}
