/**
 * The small validator of the packaged module (`DataValidator.validate_batch`
 * in utils/validator.py, copied unchanged to
 * part_priority_scoring/utils/validator.py): two structural checks, and
 * metrics computed from the number of critical issues alone.
 */
module SimpleValidator {
  import opened Wrappers
  import opened Frames
  import opened Validators

  datatype SimpleResult = SimpleResult(isValid: bool, totalRows: nat, validRows: nat, issues: seq<Issue>, qualityScore: real)

  /** The issues, in the order they are appended; none carries an affected-row count. */
  method SimpleIssues(df: Frame) returns (issues: seq<Issue>)
    ensures forall k :: 0 <= k < |issues| ==> issues[k].severity == Critical && issues[k].affected.None?
    ensures Issue(EmptyFrame, Critical, None) in issues <==> df.n == 0
    ensures Issue(MissingColumns(["pn"]), Critical, None) in issues <==> "pn" !in df.cols
    ensures |issues| == (if df.n == 0 then 1 else 0) + (if "pn" !in df.cols then 1 else 0)
  {
    issues := [];
    if df.n == 0 {
      issues := issues + [Issue(EmptyFrame, Critical, None)];
    }
    var missing := MissingFrom(["pn"], df);
    if missing != [] {
      assert missing == ["pn"] by {
        assert missing[0] == "pn";
        assert |missing| <= 1 by { MissingFromLength(["pn"], df); }
      }
      issues := issues + [Issue(MissingColumns(missing), Critical, None)];
    } else {
      assert "pn" !in df.cols ==> "pn" in missing;
    }
  }

  lemma {:induction false} MissingFromLength(required: seq<string>, df: Frame)
    ensures |MissingFrom(required, df)| <= |required|
    decreases |required|
  {
    if required != [] {
      MissingFromLength(required[..|required| - 1], df);
    }
  }

  /** The metrics of a list of issues over a frame of `n` rows. */
  function Summarize(n: nat, issues: seq<Issue>): SimpleResult {
    var critical := CountSeverity(issues, Critical);
    SimpleResult(critical == 0, n, if critical == 0 then n else 0, issues, Max0(100.0 - critical as real * 25.0))
  }

  function Max0(x: real): real {
    if x >= 0.0 then x else 0.0
  }

  /** `validate_batch`. */
  method ValidateBatch(df: Frame) returns (r: SimpleResult)
    ensures Issue(EmptyFrame, Critical, None) in r.issues <==> df.n == 0
    ensures Issue(MissingColumns(["pn"]), Critical, None) in r.issues <==> "pn" !in df.cols
    ensures forall k :: 0 <= k < |r.issues| ==> r.issues[k].severity == Critical
    ensures r.isValid <==> df.n > 0 && "pn" in df.cols
    ensures r.totalRows == df.n && r.validRows == (if r.isValid then df.n else 0)
    ensures r.qualityScore == 100.0 - 25.0 * |r.issues| as real
    ensures r.qualityScore in {50.0, 75.0, 100.0}
  {
    var issues := SimpleIssues(df);
    AllCritical(issues);
    r := Summarize(df.n, issues);
  }

  /** When every issue is critical, the critical count is the number of issues. */
  lemma {:induction false} AllCritical(issues: seq<Issue>)
    requires forall k :: 0 <= k < |issues| ==> issues[k].severity == Critical
    ensures CountSeverity(issues, Critical) == |issues|
    decreases |issues|
  {
    if issues != [] {
      AllCritical(issues[..|issues| - 1]);
    }
  }
}
