/**
 * The scoring steps the scorer variants share: the weighted base score with the
 * availability gate, and the multiplicative business boosts.
 */
module Scoring {
  import opened Wrappers
  import opened Frames
  import opened RealMath
  import opened Features

  /**
   * A weights dictionary, as its items in insertion order.  The type does not
   * rule out a repeated name, which a dictionary cannot hold; such a name would
   * be counted once per entry.
   */
  type Weights = seq<(string, real)>

  /** What one weight entry adds to row `i`: nothing when its column is absent, missing values count 0. */
  function Contribution(f: Frame, w: (string, real), i: nat): real {
    if w.0 in f.cols then FillZero(CellAt(f, w.0, i)) * w.1 else 0.0
  }

  /** The weighted sum of row `i` over the entries of `ws`, accumulated in their order. */
  function WeightedSum(f: Frame, ws: Weights, i: nat): real
    decreases |ws|
  {
    if ws == [] then 0.0 else WeightedSum(f, ws[..|ws| - 1], i) + Contribution(f, ws[|ws| - 1], i)
  }

  /** The entries of `ws` whose name is a column of `f`, in order. */
  function Present(f: Frame, ws: Weights): (r: Weights)
    ensures forall k :: 0 <= k < |r| ==> r[k].0 in f.cols
    ensures |r| <= |ws|
    decreases |ws|
  {
    if ws == [] then []
    else if ws[|ws| - 1].0 in f.cols then Present(f, ws[..|ws| - 1]) + [ws[|ws| - 1]]
    else Present(f, ws[..|ws| - 1])
  }

  /** The gate of every variant: no stock and more than twelve weeks of lead time. */
  predicate Unavailable(f: Frame, i: nat) {
    Eq(CellAt(f, "inventory", i), 0.0) && Gt(CellAt(f, "leadtime_weeks", i), 12.0)
  }

  /** Both columns of the unavailability test exist. */
  predicate GateColumns(f: Frame) {
    "inventory" in f.cols && "leadtime_weeks" in f.cols
  }

  /** The score columns the scorers write after feature engineering, in the order they are written. */
  function ScoreNames(): seq<string> {
    ["base_score", "boosted_score", "priority_score", "score_percentile"]
  }

  lemma ScoreNamesDistinct()
    ensures Distinct(ScoreNames()) && ScoreNames()[2] == "priority_score" && ScoreNames()[3] == "score_percentile"
  {
  }

  /** Four score lists of one length give four columns of that length. */
  lemma FourColumns(base: seq<real>, boosted: seq<real>, priority: seq<real>, percentile: seq<real>, n: nat)
    requires |base| == n && |boosted| == n && |priority| == n && |percentile| == n
    ensures var cols := [NumCol(base), NumCol(boosted), NumCol(priority), NumCol(percentile)];
            |cols| == 4 && forall k :: 0 <= k < 4 ==> |cols[k]| == n
  {
  }

  /** `is_available` of row `i` as the availability filters set it: false exactly when both gate columns exist and the record is unavailable. */
  predicate AvailableAt(df: Frame, i: nat) {
    !(GateColumns(df) && Unavailable(df, i))
  }

  function AvailableColumn(df: Frame): (r: seq<Cell>)
    ensures |r| == df.n && forall i :: 0 <= i < df.n ==> r[i] == Num(Ind(AvailableAt(df, i)))
  {
    seq(df.n, i requires 0 <= i < df.n => Num(Ind(AvailableAt(df, i))))
  }

  /** `base_score[~df['is_available']] = 0` applies to row `i`. */
  predicate Gated(df: Frame, i: nat) {
    "is_available" in df.cols && !Truthy(CellAt(df, "is_available", i))
  }

  /** True for a boolean cell holding True (stored as a non-zero number). */
  predicate Truthy(c: Cell) {
    c.Num? && c.x != 0.0
  }

  /**
   * `base_score`: start from 0, add `fillna(0) * weight` for every weight whose
   * column exists, then write 0 where `zeroed` holds.
   */
  method WeightedBaseScore(f: Frame, ws: Weights, zeroed: seq<bool>) returns (base: seq<real>)
    requires WellFormed(f) && |zeroed| == f.n
    ensures |base| == f.n
    ensures forall i :: 0 <= i < f.n ==> base[i] == if zeroed[i] then 0.0 else WeightedSum(f, ws, i)
  {
    base := seq(f.n, i => 0.0);
    var k := 0;
    while k < |ws|
      invariant 0 <= k <= |ws| && |base| == f.n
      invariant forall i :: 0 <= i < f.n ==> base[i] == WeightedSum(f, ws[..k], i)
    {
      var (feature, weight) := ws[k];
      if feature in f.cols {
        var values := f.cols[feature];
        base := seq(f.n, i requires 0 <= i < f.n => base[i] + FillZero(values[i]) * weight);
      }
      assert ws[..k + 1][..k] == ws[..k];
      k := k + 1;
    }
    assert ws[..k] == ws;
    base := seq(f.n, i requires 0 <= i < f.n => if zeroed[i] then 0.0 else base[i]);
  }

  /** A weight whose name is not a column contributes nothing. */
  lemma {:induction false} WeightedSumIgnoresAbsent(f: Frame, ws: Weights, i: nat)
    ensures WeightedSum(f, ws, i) == WeightedSum(f, Present(f, ws), i)
    decreases |ws|
  {
    if ws != [] {
      var init, last := ws[..|ws| - 1], ws[|ws| - 1];
      WeightedSumIgnoresAbsent(f, init, i);
      if last.0 in f.cols {
        var p := Present(f, init) + [last];
        assert p[..|p| - 1] == Present(f, init);
      }
    }
  }

  /** With no weight name among the columns, every base score is 0. */
  lemma {:induction false} WeightedSumNoColumns(f: Frame, ws: Weights, i: nat)
    requires forall k :: 0 <= k < |ws| ==> ws[k].0 !in f.cols
    ensures WeightedSum(f, ws, i) == 0.0
    decreases |ws|
  {
    if ws != [] {
      WeightedSumNoColumns(f, ws[..|ws| - 1], i);
    }
  }

  /** Non-negative weights over non-negative feature values give a non-negative base score. */
  lemma {:induction false} WeightedSumNonneg(f: Frame, ws: Weights, i: nat)
    requires forall k :: 0 <= k < |ws| ==> ws[k].1 >= 0.0
    requires forall k :: 0 <= k < |ws| ==> FillZero(CellAt(f, ws[k].0, i)) >= 0.0
    ensures WeightedSum(f, ws, i) >= 0.0
    decreases |ws|
  {
    if ws != [] {
      var last := ws[|ws| - 1];
      WeightedSumNonneg(f, ws[..|ws| - 1], i);
      MulNonneg(FillZero(CellAt(f, last.0, i)), last.1);
    }
  }

  /** One entry of `boost_conditions`: its condition text and multiplier. */
  datatype BoostEntry = BoostEntry(condition: string, multiplier: real)

  /** One business rule after its condition was evaluated: `None` when the rule is skipped. */
  datatype Rule = Rule(mask: Option<seq<bool>>, multiplier: real)

  predicate Fires(r: Rule, i: nat) {
    r.mask.Some? && i < |r.mask.value| && r.mask.value[i]
  }

  /** The product of the multipliers of the rules that fire on row `i`, in rule order. */
  function BoostFactor(rules: seq<Rule>, i: nat): real
    decreases |rules|
  {
    if rules == [] then 1.0
    else
      var last := rules[|rules| - 1];
      BoostFactor(rules[..|rules| - 1], i) * (if Fires(last, i) then last.multiplier else 1.0)
  }

  /** The product of every multiplier, the largest factor a row can reach when all are at least 1. */
  function AllMultipliers(rules: seq<Rule>): real
    decreases |rules|
  {
    if rules == [] then 1.0 else AllMultipliers(rules[..|rules| - 1]) * rules[|rules| - 1].multiplier
  }

  /** Each row's base score times the factor of the rules firing on it. */
  function Compounded(base: seq<real>, rules: seq<Rule>): (r: seq<real>)
    ensures |r| == |base| && forall i :: 0 <= i < |base| ==> r[i] == base[i] * BoostFactor(rules, i)
  {
    seq(|base|, i requires 0 <= i < |base| => base[i] * BoostFactor(rules, i))
  }

  /** `boosted_score[mask] *= multiplier` for each rule in turn, starting from a copy of `base`. */
  method CompoundBoosts(base: seq<real>, rules: seq<Rule>) returns (boosted: seq<real>)
    ensures boosted == Compounded(base, rules)
    ensures forall i :: 0 <= i < |base| && base[i] == 0.0 ==> boosted[i] == 0.0
  {
    boosted := base;
    CompoundedNone(base, rules);
    var k := 0;
    while k < |rules|
      invariant 0 <= k <= |rules|
      invariant boosted == Compounded(base, rules[..k])
    {
      var rule := rules[k];
      CompoundedStep(base, rules, k);
      if rule.mask.Some? {
        var m := rule.mask.value;
        var prev := boosted;
        boosted := seq(|base|, i requires 0 <= i < |base| =>
                         if i < |m| && m[i] then prev[i] * rule.multiplier else prev[i]);
        assert boosted == Applied(prev, rule);
      } else {
        assert boosted == Applied(boosted, rule);
      }
      k := k + 1;
    }
    assert rules[..k] == rules;
  }

  /** With no rule applied yet, every row keeps its base score. */
  lemma CompoundedNone(base: seq<real>, rules: seq<Rule>)
    ensures Compounded(base, rules[..0]) == base
  {
    assert rules[..0] == [];
  }

  /** The rows `rule` fires on multiplied by its multiplier, the others unchanged. */
  function Applied(prev: seq<real>, rule: Rule): seq<real> {
    seq(|prev|, i requires 0 <= i < |prev| => if Fires(rule, i) then prev[i] * rule.multiplier else prev[i])
  }

  /** Applying rule `k` after the first `k` rules compounds the first `k + 1`. */
  lemma CompoundedStep(base: seq<real>, rules: seq<Rule>, k: nat)
    requires k < |rules|
    ensures Compounded(base, rules[..k + 1]) == Applied(Compounded(base, rules[..k]), rules[k])
  {
    var prev, rule := Compounded(base, rules[..k]), rules[k];
    assert rules[..k + 1][..k] == rules[..k];
    forall i | 0 <= i < |base|
      ensures Compounded(base, rules[..k + 1])[i] == Applied(prev, rule)[i]
    {
      var g := BoostFactor(rules[..k], i);
      if Fires(rule, i) {
        assert (base[i] * g) * rule.multiplier == base[i] * (g * rule.multiplier);
      }
    }
  }

  /** Multipliers of at least 1 never lower a row: the factor lies between 1 and the product of all multipliers. */
  lemma {:induction false} BoostFactorRange(rules: seq<Rule>, i: nat)
    requires forall k :: 0 <= k < |rules| ==> rules[k].multiplier >= 1.0
    ensures 1.0 <= BoostFactor(rules, i) <= AllMultipliers(rules)
    decreases |rules|
  {
    if rules != [] {
      var init, last := rules[..|rules| - 1], rules[|rules| - 1];
      BoostFactorRange(init, i);
      var g, p, m := BoostFactor(init, i), AllMultipliers(init), last.multiplier;
      MulNonneg(g - 1.0, m - 1.0);
      if Fires(last, i) {
        MulNonneg(p - g, m);
      } else {
        MulNonneg(p, m - 1.0);
      }
    }
  }

  /** A non-negative base score is never lowered by boosts whose multipliers are at least 1. */
  lemma BoostsNeverLower(b: real, rules: seq<Rule>, i: nat)
    requires b >= 0.0
    requires forall k :: 0 <= k < |rules| ==> rules[k].multiplier >= 1.0
    ensures b <= b * BoostFactor(rules, i) <= b * AllMultipliers(rules)
  {
    BoostFactorRange(rules, i);
    MulNonneg(b, BoostFactor(rules, i) - 1.0);
    MulNonneg(b, AllMultipliers(rules) - BoostFactor(rules, i));
  }

  /**
   * The four fixed rules of the core and packaged scorers, with the column defaults
   * of `df.get`.  A condition that yields a scalar rather than a series (every column
   * it reads is absent) is skipped.
   */
  function FixedRules(f: Frame): (rules: seq<Rule>)
    ensures |rules| == 4
    ensures rules[0].multiplier == 1.1 && rules[1].multiplier == 1.15
    ensures rules[2].multiplier == 1.05 && rules[3].multiplier == 1.08
    ensures rules[0].mask.Some? <==> "inventory" in f.cols || "moq" in f.cols
    ensures rules[1].mask.Some? <==> "leadtime_weeks" in f.cols
    ensures rules[2].mask.Some? <==> "source_type" in f.cols
    ensures rules[3].mask.Some? <==> "demand_all_time" in f.cols
  {
    var ample := seq(f.n, i requires 0 <= i < f.n =>
      var inv, moq := GetOr(f, "inventory", i, Num(0.0)), GetOr(f, "moq", i, Num(1.0));
      inv.Num? && moq.Num? && inv.x >= 10.0 * moq.x);
    var immediate := seq(f.n, i requires 0 <= i < f.n => Eq(CellAt(f, "leadtime_weeks", i), 0.0));
    var authorized := seq(f.n, i requires 0 <= i < f.n => TextIs(CellAt(f, "source_type", i), "Authorized"));
    var demand := seq(f.n, i requires 0 <= i < f.n => Gt(CellAt(f, "demand_all_time", i), 100.0));
    [ Rule(if "inventory" in f.cols || "moq" in f.cols then Some(ample) else None, 1.1),
      Rule(if "leadtime_weeks" in f.cols then Some(immediate) else None, 1.15),
      Rule(if "source_type" in f.cols then Some(authorized) else None, 1.05),
      Rule(if "demand_all_time" in f.cols then Some(demand) else None, 1.08) ]
  }

  /** The immediate-ship rule fires on a row whose lead time is 0. */
  lemma ImmediateShipFires(f: Frame, i: nat)
    requires "leadtime_weeks" in f.cols && i < f.n && i < |f.cols["leadtime_weeks"]|
    requires Eq(f.cols["leadtime_weeks"][i], 0.0)
    ensures Fires(FixedRules(f)[1], i)
  {
  }

  /** With the four fixed rules a row's factor lies between 1 and 1.1 * 1.15 * 1.05 * 1.08. */
  lemma FixedBoostFactorRange(f: Frame, i: nat)
    ensures 1.0 <= BoostFactor(FixedRules(f), i) <= 1.43451
  {
    var rules := FixedRules(f);
    BoostFactorRange(rules, i);
    assert rules[..3][..2] == rules[..2] && rules[..2][..1] == rules[..1] && rules[..1][..0] == [];
    assert AllMultipliers(rules[..1]) == 1.1;
    assert AllMultipliers(rules[..2]) == 1.1 * 1.15;
    assert AllMultipliers(rules[..3]) == 1.1 * 1.15 * 1.05;
  }
}
