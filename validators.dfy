/**
 * The batch validator of the production pipeline (`DataValidator` in
 * src/utils/validators.py): structural, coverage, range and business-rule
 * checks, each producing severity-tagged issues, and a 0-100 quality score
 * built from fixed penalties per issue and the average field coverage.
 */
module Validators {
  import opened Wrappers
  import opened Frames
  import opened RealMath
  import opened Scoring

  datatype Severity = Critical | Warning | Info

  datatype IssueKind =
    | EmptyFrame
    | MissingColumns(columns: seq<string>)
    | InsufficientCoverage(field: string, expected: real, actual: real)
    | OutOfRange(field: string, lo: real, hi: real, examples: seq<real>)
    | UnavailableComponents
    | MissingPriceData

  /** One issue; `affected` is absent on the issues that carry no `affected_rows` entry. */
  datatype Issue = Issue(kind: IssueKind, severity: Severity, affected: Option<nat>)

  /** `issue.get('affected_rows', 0)`. */
  function AffectedRows(issue: Issue): nat {
    if issue.affected.Some? then issue.affected.value else 0
  }

  /**
   * The coverage entry of one column.  The percentage is absent when the frame
   * has no rows: the source divides by the row count, which gives NaN there.
   * The dtype name the source also records is not modelled.
   */
  datatype FieldCoverage = FieldCoverage(nullCount: nat, coveragePct: Option<real>, uniqueValues: nat)

  /** `quality_thresholds` as a numeric dictionary, and its `required_coverage` entries in order. */
  datatype ValidatorConfig = ValidatorConfig(thresholds: map<string, real>, requiredCoverage: seq<(string, real)>)

  datatype ValidationResult = ValidationResult(
    isValid: bool, totalRows: nat, validRows: nat, issues: seq<Issue>,
    fieldCoverage: map<string, FieldCoverage>, qualityScore: real)

  // ---------------------------------------------------------------- structure

  /** The names of `required` that are not columns of `df`, in order. */
  function MissingFrom(required: seq<string>, df: Frame): (r: seq<string>)
    ensures forall c :: c in r <==> c in required && c !in df.cols
    decreases |required|
  {
    if required == [] then []
    else
      var rest := MissingFrom(required[..|required| - 1], df);
      var c := required[|required| - 1];
      assert forall x :: x in required <==> x in required[..|required| - 1] || x == c;
      if c in df.cols then rest else rest + [c]
  }

  function RequiredColumns(): seq<string> {
    ["pn", "inventory"]
  }

  function StructureIssues(df: Frame): seq<Issue> {
    var missing := MissingFrom(RequiredColumns(), df);
    (if df.n == 0 then [Issue(EmptyFrame, Critical, Some(0))] else [])
    + (if missing != [] then [Issue(MissingColumns(missing), Critical, Some(df.n))] else [])
  }

  /** `_validate_structure`. */
  method ValidateStructure(df: Frame) returns (issues: seq<Issue>)
    ensures issues == StructureIssues(df)
  {
    issues := [];
    if df.n == 0 {
      issues := issues + [Issue(EmptyFrame, Critical, Some(0))];
    }
    var missing := MissingFrom(RequiredColumns(), df);
    if missing != [] {
      issues := issues + [Issue(MissingColumns(missing), Critical, Some(df.n))];
    }
  }

  /**
   * An empty batch gives a critical issue affecting no rows; a batch lacking
   * `pn` or `inventory` gives one critical issue affecting every row; nothing
   * else is reported here, and everything reported is critical.
   */
  lemma StructureIssuesFacts(df: Frame)
    ensures var s := StructureIssues(df);
            && (Issue(EmptyFrame, Critical, Some(0)) in s <==> df.n == 0)
            && (("pn" !in df.cols || "inventory" !in df.cols) <==>
                  Issue(MissingColumns(MissingFrom(RequiredColumns(), df)), Critical, Some(df.n)) in s)
            && |s| == (if df.n == 0 then 1 else 0) + (if "pn" !in df.cols || "inventory" !in df.cols then 1 else 0)
            && forall k :: 0 <= k < |s| ==> s[k].severity == Critical
  {
    var missing := MissingFrom(RequiredColumns(), df);
    assert "pn" in RequiredColumns() && "inventory" in RequiredColumns();
    assert missing != [] <==> "pn" !in df.cols || "inventory" !in df.cols by {
      if missing != [] {
        assert missing[0] in missing;
      }
    }
  }

  // ---------------------------------------------------------------- coverage

  /** `col.isnull().sum()`. */
  function NullCount(col: seq<Cell>): (k: nat)
    ensures k <= |col|
    decreases |col|
  {
    if col == [] then 0 else NullCount(col[..|col| - 1]) + (if col[|col| - 1].Missing? then 1 else 0)
  }

  /** `col.nunique()`: the number of distinct non-missing values. */
  function UniqueCount(col: seq<Cell>): nat {
    |set i | 0 <= i < |col| && !col[i].Missing? :: col[i]|
  }

  function CoverageOf(df: Frame, c: string): FieldCoverage
    requires c in df.cols
  {
    var col := df.cols[c];
    var nulls := NullCount(col);
    var pct := if df.n == 0 then None else Some((df.n as real - nulls as real) / df.n as real * 100.0);
    FieldCoverage(nulls, pct, UniqueCount(col))
  }

  /** The coverage entries of every column. */
  function FieldCoverages(df: Frame): map<string, FieldCoverage> {
    map c | c in df.cols :: CoverageOf(df, c)
  }

  /** `_calculate_field_coverage`: one entry per column, filled in column order. */
  method CalculateFieldCoverage(df: Frame) returns (coverage: map<string, FieldCoverage>)
    requires WellFormed(df)
    ensures coverage == FieldCoverages(df)
  {
    coverage := map[];
    var k := 0;
    while k < |df.names|
      invariant 0 <= k <= |df.names|
      invariant forall c :: c in coverage <==> c in df.names[..k]
      invariant forall c :: c in coverage ==> c in df.cols && coverage[c] == CoverageOf(df, c)
    {
      assert df.names[..k + 1] == df.names[..k] + [df.names[k]];
      coverage := coverage[df.names[k] := CoverageOf(df, df.names[k])];
      k := k + 1;
    }
    assert df.names[..k] == df.names;
  }

  /** On a non-empty frame a column's coverage is a percentage, 100 exactly when it has no missing value. */
  lemma CoverageBounds(df: Frame, c: string)
    requires WellFormed(df) && c in df.cols && df.n > 0
    ensures var p := CoverageOf(df, c).coveragePct;
            p.Some? && 0.0 <= p.value <= 100.0 && (p.value == 100.0 <==> NullCount(df.cols[c]) == 0)
  {
    var nulls := NullCount(df.cols[c]) as real;
    var n := df.n as real;
    Percentage(n - nulls, n);
  }

  /** A part of a positive whole is a percentage of it, 100 exactly for the whole. */
  lemma Percentage(part: real, whole: real)
    requires whole > 0.0 && 0.0 <= part <= whole
    ensures 0.0 <= part / whole * 100.0 <= 100.0
    ensures part / whole * 100.0 == 100.0 <==> part == whole
  {
    var q := part / whole;
    assert q * whole == part;
    assert q > 1.0 ==> (q - 1.0) * whole > 0.0;
    assert q < 0.0 ==> (0.0 - q) * whole > 0.0;
    assert q * 100.0 == 100.0 ==> q == 1.0;
  }

  /** The warning one required-coverage entry gives: only for a present field whose coverage is below the requirement. */
  function CoverageIssue(coverage: map<string, FieldCoverage>, entry: (string, real)): seq<Issue> {
    var (field, required) := entry;
    if field in coverage && coverage[field].coveragePct.Some? && coverage[field].coveragePct.value < required then
      [Issue(InsufficientCoverage(field, required, coverage[field].coveragePct.value), Warning, None)]
    else []
  }

  function CoverageIssues(coverage: map<string, FieldCoverage>, req: seq<(string, real)>): seq<Issue>
    decreases |req|
  {
    if req == [] then [] else CoverageIssues(coverage, req[..|req| - 1]) + CoverageIssue(coverage, req[|req| - 1])
  }

  /** `_validate_field_coverage`: one pass over the requirements, in order. */
  method ValidateFieldCoverage(coverage: map<string, FieldCoverage>, req: seq<(string, real)>) returns (issues: seq<Issue>)
    ensures issues == CoverageIssues(coverage, req)
  {
    issues := [];
    var k := 0;
    while k < |req|
      invariant 0 <= k <= |req|
      invariant issues == CoverageIssues(coverage, req[..k])
    {
      assert req[..k + 1][..k] == req[..k];
      issues := issues + CoverageIssue(coverage, req[k]);
      k := k + 1;
    }
    assert req[..k] == req;
  }

  /**
   * A coverage warning names a required field exactly when that field is
   * present with a known coverage strictly below its requirement, and every
   * coverage issue is a warning.
   */
  lemma {:induction false} CoverageWarningIff(coverage: map<string, FieldCoverage>, req: seq<(string, real)>,
                                              field: string, required: real, actual: real)
    ensures Issue(InsufficientCoverage(field, required, actual), Warning, None) in CoverageIssues(coverage, req)
            <==> (field, required) in req && field in coverage && coverage[field].coveragePct == Some(actual)
                 && actual < required
    ensures forall k :: 0 <= k < |CoverageIssues(coverage, req)| ==> CoverageIssues(coverage, req)[k].severity == Warning
    decreases |req|
  {
    if req != [] {
      var init := req[..|req| - 1];
      CoverageWarningIff(coverage, init, field, required, actual);
      assert forall e :: e in req <==> e in init || e == req[|req| - 1];
    }
  }

  // ---------------------------------------------------------------- ranges

  datatype RangeCheck = RangeCheck(field: string, lo: real, hi: real)

  /** `quality_thresholds.get(key, default)`. */
  function ThresholdOr(config: ValidatorConfig, key: string, default: real): real {
    if key in config.thresholds then config.thresholds[key] else default
  }

  /** The four range checks, in the order of the `numeric_fields` dictionary. */
  function RangeChecks(config: ValidatorConfig): seq<RangeCheck> {
    [ RangeCheck("inventory", ThresholdOr(config, "min_inventory", 0.0), ThresholdOr(config, "max_inventory", 1000000.0)),
      RangeCheck("first_price", ThresholdOr(config, "min_price", 0.01), ThresholdOr(config, "max_price", 100000.0)),
      RangeCheck("moq", ThresholdOr(config, "min_moq", 1.0), ThresholdOr(config, "max_moq", 100000.0)),
      RangeCheck("leadtime_weeks", ThresholdOr(config, "min_leadtime_weeks", 0.0), ThresholdOr(config, "max_leadtime_weeks", 52.0)) ]
  }

  /** A non-null value strictly below `lo` or strictly above `hi`; both bounds themselves are in range. */
  predicate Outside(c: Cell, lo: real, hi: real) {
    Lt(c, lo) || Gt(c, hi)
  }

  /** The out-of-range values of a column, in row order. */
  function OutOfRangeValues(col: seq<Cell>, lo: real, hi: real): (v: seq<real>)
    ensures |v| <= |col|
    decreases |col|
  {
    if col == [] then []
    else
      var last := col[|col| - 1];
      OutOfRangeValues(col[..|col| - 1], lo, hi) + (if Outside(last, lo, hi) then [last.x] else [])
  }

  function RangeIssue(df: Frame, check: RangeCheck): seq<Issue> {
    if check.field in df.cols then
      var v := OutOfRangeValues(df.cols[check.field], check.lo, check.hi);
      if |v| > 0 then [Issue(OutOfRange(check.field, check.lo, check.hi, v[..if |v| < 5 then |v| else 5]), Warning, Some(|v|))]
      else []
    else []
  }

  function RangeIssues(df: Frame, checks: seq<RangeCheck>): seq<Issue>
    decreases |checks|
  {
    if checks == [] then [] else RangeIssues(df, checks[..|checks| - 1]) + RangeIssue(df, checks[|checks| - 1])
  }

  /** `_validate_data_quality`: the range checks in order. */
  method ValidateDataQuality(df: Frame, config: ValidatorConfig) returns (issues: seq<Issue>)
    ensures issues == RangeIssues(df, RangeChecks(config))
  {
    var checks := RangeChecks(config);
    issues := [];
    var k := 0;
    while k < |checks|
      invariant 0 <= k <= |checks|
      invariant issues == RangeIssues(df, checks[..k])
    {
      assert checks[..k + 1][..k] == checks[..k];
      issues := issues + RangeIssue(df, checks[k]);
      k := k + 1;
    }
    assert checks[..k] == checks;
  }

  /**
   * The out-of-range list holds exactly the non-null values outside
   * [lo, hi]: every listed value is outside, and every row outside is listed.
   */
  lemma {:induction false} OutOfRangeValuesFacts(col: seq<Cell>, lo: real, hi: real)
    ensures forall k :: 0 <= k < |OutOfRangeValues(col, lo, hi)| ==>
              OutOfRangeValues(col, lo, hi)[k] < lo || OutOfRangeValues(col, lo, hi)[k] > hi
    ensures forall i :: 0 <= i < |col| && Outside(col[i], lo, hi) ==> col[i].x in OutOfRangeValues(col, lo, hi)
    ensures OutOfRangeValues(col, lo, hi) == [] <==> forall i :: 0 <= i < |col| ==> !Outside(col[i], lo, hi)
    decreases |col|
  {
    if col != [] {
      var init, last := col[..|col| - 1], col[|col| - 1];
      OutOfRangeValuesFacts(init, lo, hi);
      var vi, v := OutOfRangeValues(init, lo, hi), OutOfRangeValues(col, lo, hi);
      var tail := if Outside(last, lo, hi) then [last.x] else [];
      assert v == vi + tail;
      forall k | 0 <= k < |v|
        ensures v[k] < lo || v[k] > hi
      {
        if k < |vi| {
          assert v[k] == vi[k];
        } else {
          assert v[k] == tail[k - |vi|] == last.x;
        }
      }
      forall i | 0 <= i < |col| && Outside(col[i], lo, hi)
        ensures col[i].x in v
      {
        if i < |init| {
          assert col[i] == init[i] && col[i].x in vi;
        } else {
          assert v[|v| - 1] == last.x;
        }
      }
      if forall i :: 0 <= i < |col| ==> !Outside(col[i], lo, hi) {
        assert forall i :: 0 <= i < |init| ==> !Outside(init[i], lo, hi) by {
          forall i | 0 <= i < |init|
            ensures !Outside(init[i], lo, hi)
          {
            assert init[i] == col[i];
          }
        }
      }
    }
  }

  /** A range warning is a warning whose row count is that of the out-of-range values, with at most five examples taken from the front. */
  lemma RangeIssueFacts(df: Frame, check: RangeCheck)
    requires check.field in df.cols
    ensures var v, r := OutOfRangeValues(df.cols[check.field], check.lo, check.hi), RangeIssue(df, check);
            && (r == [] <==> v == [])
            && (r != [] ==> r[0].severity == Warning && r[0].affected == Some(|v|)
                            && r[0].kind.OutOfRange? && |r[0].kind.examples| == (if |v| < 5 then |v| else 5)
                            && r[0].kind.examples == v[..|r[0].kind.examples|])
  {
  }

  // ---------------------------------------------------------------- business rules

  /** The number of rows `i < n` where `p` holds. */
  function Count(n: nat, p: nat -> bool): (k: nat)
    ensures k <= n
  {
    if n == 0 then 0 else Count(n - 1, p) + (if p(n - 1) then 1 else 0)
  }

  /** An in-stock record without a price. */
  predicate MissingPrice(df: Frame, i: nat) {
    Gt(CellAt(df, "inventory", i), 0.0) && CellAt(df, "first_price", i).Missing?
  }

  function BusinessIssues(df: Frame): seq<Issue> {
    var unavailable := Count(df.n, (i: nat) => Unavailable(df, i));
    var missingPrice := Count(df.n, (i: nat) => MissingPrice(df, i));
    (if GateColumns(df) && unavailable > 0 then [Issue(UnavailableComponents, Info, Some(unavailable))] else [])
    + (if "inventory" in df.cols && "first_price" in df.cols && missingPrice > 0
       then [Issue(MissingPriceData, Warning, Some(missingPrice))] else [])
  }

  /** `_validate_business_rules`. */
  method ValidateBusinessRules(df: Frame) returns (issues: seq<Issue>)
    ensures issues == BusinessIssues(df)
  {
    issues := [];
    if "inventory" in df.cols && "leadtime_weeks" in df.cols {
      var unavailable := Count(df.n, (i: nat) => Unavailable(df, i));
      if unavailable > 0 {
        issues := issues + [Issue(UnavailableComponents, Info, Some(unavailable))];
      }
    }
    if "inventory" in df.cols && "first_price" in df.cols {
      var missingPrice := Count(df.n, (i: nat) => MissingPrice(df, i));
      if missingPrice > 0 {
        issues := issues + [Issue(MissingPriceData, Warning, Some(missingPrice))];
      }
    }
  }

  /** `Count` is zero exactly when no row satisfies the predicate. */
  lemma {:induction false} CountZero(n: nat, p: nat -> bool)
    ensures Count(n, p) == 0 <==> forall i :: 0 <= i < n ==> !p(i)
  {
    if n > 0 {
      CountZero(n - 1, p);
    }
  }

  /**
   * The info issue is raised exactly when both gate columns exist and some
   * record has no stock and more than twelve weeks of lead time; the price
   * warning exactly when some in-stock record lacks a price.  Neither is critical.
   */
  lemma BusinessIssuesFacts(df: Frame)
    ensures var b := BusinessIssues(df);
            && ((exists k :: 0 <= k < |b| && b[k].kind == UnavailableComponents)
                <==> GateColumns(df) && exists i :: 0 <= i < df.n && Unavailable(df, i))
            && ((exists k :: 0 <= k < |b| && b[k].kind == MissingPriceData)
                <==> ("inventory" in df.cols && "first_price" in df.cols
                      && exists i :: 0 <= i < df.n && MissingPrice(df, i)))
            && forall k :: 0 <= k < |b| ==> b[k].severity != Critical
  {
    var up, mp := (i: nat) => Unavailable(df, i), (i: nat) => MissingPrice(df, i);
    CountZero(df.n, up);
    CountZero(df.n, mp);
    var u := if GateColumns(df) && Count(df.n, up) > 0 then [Issue(UnavailableComponents, Info, Some(Count(df.n, up)))] else [];
    var m := if "inventory" in df.cols && "first_price" in df.cols && Count(df.n, mp) > 0
             then [Issue(MissingPriceData, Warning, Some(Count(df.n, mp)))] else [];
    var b := BusinessIssues(df);
    assert b == u + m;
    assert forall k :: 0 <= k < |b| && b[k].kind == UnavailableComponents ==> u != [];
    assert forall k :: 0 <= k < |b| && b[k].kind == MissingPriceData ==> m != [];
    if u != [] {
      assert b[0].kind == UnavailableComponents;
    }
    if m != [] {
      assert b[|u|].kind == MissingPriceData;
    }
    forall i: nat | i < df.n
      ensures up(i) == Unavailable(df, i) && mp(i) == MissingPrice(df, i)
    {
    }
    assert (forall i :: 0 <= i < df.n ==> !up(i)) <==> (forall i :: 0 <= i < df.n ==> !Unavailable(df, i));
    assert (forall i :: 0 <= i < df.n ==> !mp(i)) <==> (forall i :: 0 <= i < df.n ==> !MissingPrice(df, i));
  }

  // ---------------------------------------------------------------- quality score

  function SeverityPenalty(s: Severity): real {
    match s
    case Critical => 25.0
    case Warning => 10.0
    case Info => 2.0
  }

  /** The points the loop over the issues deducts. */
  function IssuePenalty(issues: seq<Issue>): real
    decreases |issues|
  {
    if issues == [] then 0.0 else IssuePenalty(issues[..|issues| - 1]) + SeverityPenalty(issues[|issues| - 1].severity)
  }

  /** The number of issues of severity `s`. */
  function CountSeverity(issues: seq<Issue>, s: Severity): nat
    decreases |issues|
  {
    if issues == [] then 0 else CountSeverity(issues[..|issues| - 1], s) + (if issues[|issues| - 1].severity == s then 1 else 0)
  }

  /** The deduction is 25 per critical issue, 10 per warning and 2 per info issue. */
  lemma {:induction false} IssuePenaltyCounts(issues: seq<Issue>)
    ensures IssuePenalty(issues)
            == 25.0 * CountSeverity(issues, Critical) as real + 10.0 * CountSeverity(issues, Warning) as real
               + 2.0 * CountSeverity(issues, Info) as real
    decreases |issues|
  {
    if issues != [] {
      IssuePenaltyCounts(issues[..|issues| - 1]);
    }
  }

  /** The sum of the coverage percentages over `names`; absent (NaN) as soon as one of them is. */
  function CoverageSum(names: seq<string>, coverage: map<string, FieldCoverage>): Option<real>
    requires forall k :: 0 <= k < |names| ==> names[k] in coverage
    decreases |names|
  {
    if names == [] then Some(0.0)
    else
      var rest := CoverageSum(names[..|names| - 1], coverage);
      var last := coverage[names[|names| - 1]].coveragePct;
      if rest.Some? && last.Some? then Some(rest.value + last.value) else None
  }

  /**
   * The coverage penalty as written: the average coverage divides by the
   * number of columns, so a frame with no columns raises ZeroDivisionError
   * (absent here).  A NaN average gives no penalty, since `max(0, NaN)` is 0.
   */
  function CoveragePenaltyAsWritten(names: seq<string>, coverage: map<string, FieldCoverage>): Option<real>
    requires forall k :: 0 <= k < |names| ==> names[k] in coverage
  {
    if |names| == 0 then None
    else
      var total := CoverageSum(names, coverage);
      if total.None? then Some(0.0) else Some(Max(0.0, (95.0 - total.value / |names| as real) * 0.5))
  }

  /** The coverage penalty with the division guarded: no columns, no penalty. */
  function CoveragePenalty(names: seq<string>, coverage: map<string, FieldCoverage>): (p: real)
    requires forall k :: 0 <= k < |names| ==> names[k] in coverage
    ensures p >= 0.0
    ensures |names| > 0 ==> CoveragePenaltyAsWritten(names, coverage) == Some(p)
  {
    if |names| == 0 then 0.0 else CoveragePenaltyAsWritten(names, coverage).value
  }

  /** The guarded quality score: 100 minus the issue and coverage penalties, clamped to [0, 100]. */
  function QualityScore(names: seq<string>, issues: seq<Issue>, coverage: map<string, FieldCoverage>): real
    requires forall k :: 0 <= k < |names| ==> names[k] in coverage
  {
    Clip(100.0 - IssuePenalty(issues) - CoveragePenalty(names, coverage), 0.0, 100.0)
  }

  /** `_calculate_quality_score` as written; absent when it raises. */
  function QualityScoreAsWritten(names: seq<string>, issues: seq<Issue>, coverage: map<string, FieldCoverage>): Option<real>
    requires forall k :: 0 <= k < |names| ==> names[k] in coverage
  {
    var penalty := CoveragePenaltyAsWritten(names, coverage);
    if penalty.None? then None else Some(Clip(100.0 - IssuePenalty(issues) - penalty.value, 0.0, 100.0))
  }

  /** A batch with no columns, such as `pd.DataFrame()`, makes the quality score raise instead of reporting its critical issues. */
  lemma QualityScoreAsWrittenFails(issues: seq<Issue>)
    ensures QualityScoreAsWritten([], issues, map[]) == None
    ensures QualityScoreAsWritten(Frame(0, [], map[]).names, StructureIssues(Frame(0, [], map[])), FieldCoverages(Frame(0, [], map[]))) == None
  {
  }

  /**
   * `_calculate_quality_score`, with the coverage division guarded: start from
   * 100, deduct per issue in order, deduct the coverage penalty, clamp to [0, 100].
   */
  method CalculateQualityScore(names: seq<string>, issues: seq<Issue>, coverage: map<string, FieldCoverage>)
    returns (score: real)
    requires forall k :: 0 <= k < |names| ==> names[k] in coverage
    ensures 0.0 <= score <= 100.0
    ensures score == QualityScore(names, issues, coverage)
    ensures |names| > 0 ==> QualityScoreAsWritten(names, issues, coverage) == Some(score)
  {
    score := 100.0;
    var k := 0;
    while k < |issues|
      invariant 0 <= k <= |issues|
      invariant score == 100.0 - IssuePenalty(issues[..k])
    {
      assert issues[..k + 1][..k] == issues[..k];
      score := score - SeverityPenalty(issues[k].severity);
      k := k + 1;
    }
    assert issues[..k] == issues;
    score := score - CoveragePenalty(names, coverage);
    score := Max(0.0, Min(100.0, score));
  }

  // ---------------------------------------------------------------- the batch

  /** The summed `affected_rows` of the critical issues. */
  function CriticalAffected(issues: seq<Issue>): nat
    decreases |issues|
  {
    if issues == [] then 0
    else CriticalAffected(issues[..|issues| - 1])
         + (if issues[|issues| - 1].severity == Critical then AffectedRows(issues[|issues| - 1]) else 0)
  }

  function BatchIssues(df: Frame, config: ValidatorConfig): seq<Issue> {
    StructureIssues(df) + CoverageIssues(FieldCoverages(df), config.requiredCoverage)
    + RangeIssues(df, RangeChecks(config)) + BusinessIssues(df)
  }

  /** What `validate_batch` returns, with the guarded coverage penalty. */
  function Validation(df: Frame, config: ValidatorConfig): ValidationResult
    requires WellFormed(df)
  {
    Metrics(df.n, df.names, BatchIssues(df, config), FieldCoverages(df))
  }

  /** `Metrics` when the quality score has been computed separately. */
  lemma MetricsOf(n: nat, names: seq<string>, issues: seq<Issue>, coverage: map<string, FieldCoverage>, quality: real)
    requires forall k :: 0 <= k < |names| ==> names[k] in coverage
    requires quality == QualityScore(names, issues, coverage)
    ensures var affected := CriticalAffected(issues);
            Metrics(n, names, issues, coverage)
            == ValidationResult(CountSeverity(issues, Critical) == 0, n, if affected <= n then n - affected else 0,
                                issues, coverage, quality)
  {
  }

  /** The metrics of `validate_batch` for `n` rows, the column names, the issues and the coverage map. */
  function Metrics(n: nat, names: seq<string>, issues: seq<Issue>, coverage: map<string, FieldCoverage>): ValidationResult
    requires forall k :: 0 <= k < |names| ==> names[k] in coverage
  {
    var affected := CriticalAffected(issues);
    ValidationResult(
      CountSeverity(issues, Critical) == 0, n, if affected <= n then n - affected else 0,
      issues, coverage, QualityScore(names, issues, coverage))
  }

  /** `validate_batch`: the four checks in order, then the metrics. */
  method ValidateBatch(df: Frame, config: ValidatorConfig) returns (r: ValidationResult)
    requires WellFormed(df)
    ensures r == Validation(df, config)
  {
    var issues := ValidateStructure(df);
    var coverage := CalculateFieldCoverage(df);
    var coverageIssues := ValidateFieldCoverage(coverage, config.requiredCoverage);
    var rangeIssues := ValidateDataQuality(df, config);
    var businessIssues := ValidateBusinessRules(df);
    issues := issues + coverageIssues + rangeIssues + businessIssues;
    var critical := CountSeverity(issues, Critical);
    var affected := CriticalAffected(issues);
    var quality := CalculateQualityScore(df.names, issues, coverage);
    r := ValidationResult(critical == 0, df.n, if affected <= df.n then df.n - affected else 0, issues, coverage, quality);
    MetricsOf(df.n, df.names, issues, coverage, quality);
  }

  lemma {:induction false} CountSeverityAppend(a: seq<Issue>, b: seq<Issue>, s: Severity)
    ensures CountSeverity(a + b, s) == CountSeverity(a, s) + CountSeverity(b, s)
    decreases |b|
  {
    if b == [] {
      assert a + b == a;
    } else {
      var ab := a + b;
      assert ab[..|ab| - 1] == a + b[..|b| - 1];
      assert ab[|ab| - 1] == b[|b| - 1];
      CountSeverityAppend(a, b[..|b| - 1], s);
    }
  }

  lemma {:induction false} CriticalAffectedAppend(a: seq<Issue>, b: seq<Issue>)
    ensures CriticalAffected(a + b) == CriticalAffected(a) + CriticalAffected(b)
    decreases |b|
  {
    if b == [] {
      assert a + b == a;
    } else {
      var ab := a + b;
      assert ab[..|ab| - 1] == a + b[..|b| - 1];
      assert ab[|ab| - 1] == b[|b| - 1];
      CriticalAffectedAppend(a, b[..|b| - 1]);
    }
  }

  /** Issues of which none is critical add nothing to either critical tally. */
  lemma {:induction false} NoCritical(b: seq<Issue>)
    requires forall k :: 0 <= k < |b| ==> b[k].severity != Critical
    ensures CountSeverity(b, Critical) == 0 && CriticalAffected(b) == 0
    decreases |b|
  {
    if b != [] {
      NoCritical(b[..|b| - 1]);
    }
  }

  lemma {:induction false} RangeIssuesAreWarnings(df: Frame, checks: seq<RangeCheck>)
    ensures forall k :: 0 <= k < |RangeIssues(df, checks)| ==> RangeIssues(df, checks)[k].severity == Warning
    decreases |checks|
  {
    if checks != [] {
      RangeIssuesAreWarnings(df, checks[..|checks| - 1]);
    }
  }

  /** `is_valid` holds exactly when no issue is critical. */
  lemma {:induction false} CountSeverityZero(issues: seq<Issue>, s: Severity)
    ensures CountSeverity(issues, s) == 0 <==> forall k :: 0 <= k < |issues| ==> issues[k].severity != s
    decreases |issues|
  {
    if issues != [] {
      CountSeverityZero(issues[..|issues| - 1], s);
    }
  }

  /**
   * Only the structural checks raise critical issues, so a batch is valid
   * exactly when it has a row and both `pn` and `inventory`; `valid_rows` is
   * every row then and none when a required column is missing; and `is_valid`
   * holds exactly when no issue is critical.
   */
  lemma ValidationFacts(df: Frame, config: ValidatorConfig)
    requires WellFormed(df)
    ensures var r := Validation(df, config);
            && (r.isValid <==> forall k :: 0 <= k < |r.issues| ==> r.issues[k].severity != Critical)
            && (r.isValid <==> df.n > 0 && "pn" in df.cols && "inventory" in df.cols)
            && r.totalRows == df.n
            && r.validRows == (if "pn" in df.cols && "inventory" in df.cols then df.n else 0)
            && 0.0 <= r.qualityScore <= 100.0
  {
    ValidationValidity(df, config);
    ValidationRows(df, config);
    ValidationScore(df, config);
  }

  lemma ValidationValidity(df: Frame, config: ValidatorConfig)
    requires WellFormed(df)
    ensures var r := Validation(df, config);
            && (r.isValid <==> forall k :: 0 <= k < |r.issues| ==> r.issues[k].severity != Critical)
            && (r.isValid <==> df.n > 0 && "pn" in df.cols && "inventory" in df.cols)
  {
    BatchCritical(df, config);
    StructureCritical(df);
    CountSeverityZero(BatchIssues(df, config), Critical);
  }

  lemma ValidationRows(df: Frame, config: ValidatorConfig)
    requires WellFormed(df)
    ensures var r := Validation(df, config);
            r.totalRows == df.n && r.validRows == (if "pn" in df.cols && "inventory" in df.cols then df.n else 0)
  {
    BatchCritical(df, config);
    StructureCritical(df);
  }

  lemma ValidationScore(df: Frame, config: ValidatorConfig)
    requires WellFormed(df)
    ensures 0.0 <= Validation(df, config).qualityScore <= 100.0
  {
  }

  /** Only the structural issues are critical, so they alone make up both critical tallies of the batch. */
  lemma BatchCritical(df: Frame, config: ValidatorConfig)
    ensures var issues, s := BatchIssues(df, config), StructureIssues(df);
            CountSeverity(issues, Critical) == CountSeverity(s, Critical)
            && CriticalAffected(issues) == CriticalAffected(s)
  {
    var s := StructureIssues(df);
    var c := CoverageIssues(FieldCoverages(df), config.requiredCoverage);
    var g := RangeIssues(df, RangeChecks(config));
    var b := BusinessIssues(df);
    CoverageWarningIff(FieldCoverages(df), config.requiredCoverage, "", 0.0, 0.0);
    RangeIssuesAreWarnings(df, RangeChecks(config));
    BusinessIssuesFacts(df);
    NoCritical(c);
    NoCritical(g);
    NoCritical(b);
    CountSeverityAppend(s, c, Critical);
    CountSeverityAppend(s + c, g, Critical);
    CountSeverityAppend(s + c + g, b, Critical);
    CriticalAffectedAppend(s, c);
    CriticalAffectedAppend(s + c, g);
    CriticalAffectedAppend(s + c + g, b);
  }

  /** The structural issues hold a critical one exactly when the batch is empty or lacks a required column. */
  lemma StructureCritical(df: Frame)
    ensures CountSeverity(StructureIssues(df), Critical) == 0 <==> df.n > 0 && "pn" in df.cols && "inventory" in df.cols
    ensures CriticalAffected(StructureIssues(df)) == (if "pn" in df.cols && "inventory" in df.cols then 0 else df.n)
  {
    StructureIssuesFacts(df);
    CountSeverityZero(StructureIssues(df), Critical);
    var missing := MissingFrom(RequiredColumns(), df);
    var e := if df.n == 0 then [Issue(EmptyFrame, Critical, Some(0))] else [];
    var m := if missing != [] then [Issue(MissingColumns(missing), Critical, Some(df.n))] else [];
    CriticalAffectedAppend(e, m);
  }
}
