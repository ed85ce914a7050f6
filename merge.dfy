/**
 * The two frame operations both ETL pipelines use: the left join of the part
 * rows with the demand columns on `pn` (`panda_df.merge(demand_df[['pn',
 * 'demand_all_time', 'demand_index']], on='pn', how='left')`), and the
 * keep-first de-duplication on `pn_clean` (`drop_duplicates(subset=['pn_clean'],
 * keep='first')`).
 */
module Merge {
  import opened Wrappers
  import opened Frames
  import opened Features

  // ---------------------------------------------------------------- the join

  /**
   * The right rows whose key equals `key`, in order.  Keys compare as cells,
   * so a missing key matches a missing key, as pandas joins NaN with NaN.
   */
  function Matches(key: Cell, rkeys: seq<Cell>): (m: seq<nat>)
    ensures forall k :: 0 <= k < |m| ==> m[k] < |rkeys| && rkeys[m[k]] == key
    ensures forall j :: 0 <= j < |rkeys| && rkeys[j] == key ==> j in m
    ensures forall a, b :: 0 <= a < b < |m| ==> m[a] < m[b]
    decreases |rkeys|
  {
    if rkeys == [] then []
    else
      var rest := Matches(key, rkeys[..|rkeys| - 1]);
      if rkeys[|rkeys| - 1] == key then rest + [|rkeys| - 1] else rest
  }

  /** One output row of the join: the left row, and the matched right row if any. */
  datatype JoinRow = JoinRow(left: nat, right: Option<nat>)

  /** The output rows of left row `i`: one per match, or a single unmatched row. */
  function RowsFor(i: nat, m: seq<nat>): (r: seq<JoinRow>)
    ensures |r| == if m == [] then 1 else |m|
    ensures forall t :: 0 <= t < |r| ==> r[t].left == i
    ensures m == [] ==> r == [JoinRow(i, None)]
    ensures forall t :: 0 <= t < |r| && m != [] ==> r[t].right == Some(m[t])
  {
    if m == [] then [JoinRow(i, None)] else seq(|m|, t requires 0 <= t < |m| => JoinRow(i, Some(m[t])))
  }

  /** The rows of a left join, left row by left row. */
  function JoinRows(lkeys: seq<Cell>, rkeys: seq<Cell>): (rows: seq<JoinRow>)
    ensures RowsMatch(lkeys, rkeys, rows)
    ensures forall a, b :: 0 <= a < b < |rows| ==> rows[a].left <= rows[b].left
    decreases |lkeys|
  {
    if lkeys == [] then []
    else
      var i := |lkeys| - 1;
      var init := JoinRows(lkeys[..i], rkeys);
      var m := Matches(lkeys[i], rkeys);
      RowsMatchPrefix(lkeys, rkeys, init);
      TailMatches(lkeys, rkeys, m);
      JoinRightStep(lkeys, rkeys, init, RowsFor(i, m));
      JoinLeftStep(init, RowsFor(i, m), i);
      init + RowsFor(i, m)
  }

  /** Rows that match against all but the last left key match against all of them, and come before the last. */
  lemma RowsMatchPrefix(lkeys: seq<Cell>, rkeys: seq<Cell>, rows: seq<JoinRow>)
    requires lkeys != [] && RowsMatch(lkeys[..|lkeys| - 1], rkeys, rows)
    ensures RowsMatch(lkeys, rkeys, rows)
    ensures forall t :: 0 <= t < |rows| ==> rows[t].left < |lkeys| - 1
  {
    var lk := lkeys[..|lkeys| - 1];
    forall t | 0 <= t < |rows|
      ensures lk[rows[t].left] == lkeys[rows[t].left]
    {
    }
  }

  /** Rows of left row `i` after rows of earlier left rows keep the left rows in order. */
  lemma JoinLeftStep(init: seq<JoinRow>, tail: seq<JoinRow>, i: nat)
    requires forall t :: 0 <= t < |init| ==> init[t].left < i
    requires forall a, b :: 0 <= a < b < |init| ==> init[a].left <= init[b].left
    requires forall t :: 0 <= t < |tail| ==> tail[t].left == i
    ensures var rows := init + tail;
            && (forall t :: 0 <= t < |rows| ==> rows[t].left <= i)
            && forall a, b :: 0 <= a < b < |rows| ==> rows[a].left <= rows[b].left
  {
    var rows := init + tail;
    forall a, b | 0 <= a < b < |rows|
      ensures rows[a].left <= rows[b].left
    {
      if b < |init| {
        assert rows[a] == init[a] && rows[b] == init[b];
      } else if a < |init| {
        assert rows[a] == init[a] && rows[b] == tail[b - |init|];
      } else {
        assert rows[a] == tail[a - |init|] && rows[b] == tail[b - |init|];
      }
    }
  }

  /** Each row names a left row; a matched row's right key equals its left key, and an unmatched row's key is held by no right row. */
  predicate RowsMatch(lkeys: seq<Cell>, rkeys: seq<Cell>, rows: seq<JoinRow>)
  {
    forall t :: 0 <= t < |rows| ==>
      && rows[t].left < |lkeys|
      && (rows[t].right.Some? ==> rows[t].right.value < |rkeys| && rkeys[rows[t].right.value] == lkeys[rows[t].left])
      && (rows[t].right.None? ==> forall j :: 0 <= j < |rkeys| ==> rkeys[j] != lkeys[rows[t].left])
  }

  /** The rows built from the matches of the last left key match that key. */
  lemma TailMatches(lkeys: seq<Cell>, rkeys: seq<Cell>, m: seq<nat>)
    requires lkeys != [] && m == Matches(lkeys[|lkeys| - 1], rkeys)
    ensures RowsMatch(lkeys, rkeys, RowsFor(|lkeys| - 1, m))
  {
    var i := |lkeys| - 1;
    if m == [] {
      forall j | 0 <= j < |rkeys|
        ensures rkeys[j] != lkeys[i]
      {
        assert j !in m;
      }
    }
  }

  /** Matching rows of the earlier left rows, then of the last one, all match. */
  lemma JoinRightStep(lkeys: seq<Cell>, rkeys: seq<Cell>, init: seq<JoinRow>, tail: seq<JoinRow>)
    requires RowsMatch(lkeys, rkeys, init) && RowsMatch(lkeys, rkeys, tail)
    ensures RowsMatch(lkeys, rkeys, init + tail)
  {
    var rows := init + tail;
    forall t | 0 <= t < |rows|
      ensures rows[t] == if t < |init| then init[t] else tail[t - |init|]
    {
    }
  }

  /** Every left row survives the join: some output row comes from it. */
  lemma {:induction false} JoinKeepsEveryLeftRow(lkeys: seq<Cell>, rkeys: seq<Cell>, i: nat)
    requires i < |lkeys|
    ensures exists t :: 0 <= t < |JoinRows(lkeys, rkeys)| && JoinRows(lkeys, rkeys)[t].left == i
    decreases |lkeys|
  {
    var last := |lkeys| - 1;
    var init := JoinRows(lkeys[..last], rkeys);
    var m := Matches(lkeys[last], rkeys);
    assert JoinRows(lkeys, rkeys) == init + RowsFor(last, m);
    if i == last {
      assert JoinRows(lkeys, rkeys)[|init|].left == i;
    } else {
      JoinKeepsEveryLeftRow(lkeys[..last], rkeys, i);
      var t :| 0 <= t < |init| && init[t].left == i;
      assert JoinRows(lkeys, rkeys)[t].left == i;
    }
  }

  /** No key occurs twice among the right keys. */
  predicate UniqueKeys(keys: seq<Cell>) {
    forall a, b :: 0 <= a < b < |keys| ==> keys[a] != keys[b]
  }

  /** With unique right keys every left row has at most one match. */
  lemma {:induction false} UniqueKeysMatchOnce(key: Cell, rkeys: seq<Cell>)
    requires UniqueKeys(rkeys)
    ensures |Matches(key, rkeys)| <= 1
    decreases |rkeys|
  {
    if rkeys != [] {
      var last := |rkeys| - 1;
      var init := rkeys[..last];
      var m := Matches(key, init);
      UniqueKeysMatchOnce(key, init);
      if rkeys[last] == key {
        assert forall j :: 0 <= j < |init| ==> init[j] != key;
        NoMatches(key, init);
      }
    }
  }

  /** A key that no right row holds has no matches. */
  lemma {:induction false} NoMatches(key: Cell, rkeys: seq<Cell>)
    requires forall j :: 0 <= j < |rkeys| ==> rkeys[j] != key
    ensures Matches(key, rkeys) == []
    decreases |rkeys|
  {
    if rkeys != [] {
      NoMatches(key, rkeys[..|rkeys| - 1]);
    }
  }

  /** With unique right keys the join has exactly one row per left row, in the left order. */
  lemma {:induction false} UniqueKeysKeepLength(lkeys: seq<Cell>, rkeys: seq<Cell>)
    requires UniqueKeys(rkeys)
    ensures |JoinRows(lkeys, rkeys)| == |lkeys|
    ensures forall t :: 0 <= t < |lkeys| ==> JoinRows(lkeys, rkeys)[t].left == t
    decreases |lkeys|
  {
    if lkeys != [] {
      var i := |lkeys| - 1;
      var init, m := JoinRows(lkeys[..i], rkeys), Matches(lkeys[i], rkeys);
      var rows := JoinRows(lkeys, rkeys);
      assert rows == init + RowsFor(i, m);
      UniqueKeysKeepLength(lkeys[..i], rkeys);
      UniqueKeysMatchOnce(lkeys[i], rkeys);
      assert |RowsFor(i, m)| == 1 && |init| == i;
      forall t | 0 <= t < |lkeys|
        ensures rows[t].left == t
      {
        if t < i {
          assert rows[t] == init[t];
        } else {
          assert rows[t] == RowsFor(i, m)[0];
        }
      }
    }
  }

  // ---------------------------------------------------------------- the merged frame

  /** Why the merge raises: a column it indexes is absent, or suffixing leaves two columns with one name. */
  datatype MergeError = MissingColumn(name: string) | DuplicateColumns

  /** The demand columns the join brings in. */
  function DemandNames(): seq<string> {
    ["demand_all_time", "demand_index"]
  }

  /** The first of the indexed demand columns the demand frame lacks. */
  function FirstMissingDemand(right: Frame): Option<string> {
    if "pn" !in right.cols then Some("pn")
    else if "demand_all_time" !in right.cols then Some("demand_all_time")
    else if "demand_index" !in right.cols then Some("demand_index")
    else None
  }

  /** A left column that collides with a demand column gets the suffix `_x`. */
  function LeftName(c: string): string {
    if c == "demand_all_time" || c == "demand_index" then c + "_x" else c
  }

  /** A demand column that collides with a left column gets the suffix `_y`. */
  function RightName(left: Frame, c: string): string {
    if c in left.cols then c + "_y" else c
  }

  function MergedNames(left: Frame): (r: seq<string>)
    ensures |r| == |left.names| + 2
  {
    seq(|left.names|, k requires 0 <= k < |left.names| => LeftName(left.names[k]))
    + [RightName(left, "demand_all_time"), RightName(left, "demand_index")]
  }

  /** The left column `c` over the join rows. */
  function LeftColumn(left: Frame, rows: seq<JoinRow>, c: string): (r: seq<Cell>)
    requires WellFormed(left) && c in left.cols && forall t :: 0 <= t < |rows| ==> rows[t].left < left.n
    ensures |r| == |rows| && forall t :: 0 <= t < |rows| ==> r[t] == left.cols[c][rows[t].left]
  {
    seq(|rows|, t requires 0 <= t < |rows| => left.cols[c][rows[t].left])
  }

  /** The demand column `c` over the join rows; an unmatched row reads missing. */
  function RightColumn(right: Frame, rows: seq<JoinRow>, c: string): (r: seq<Cell>)
    requires WellFormed(right) && c in right.cols
    requires forall t :: 0 <= t < |rows| && rows[t].right.Some? ==> rows[t].right.value < right.n
    ensures |r| == |rows|
    ensures forall t :: 0 <= t < |rows| ==>
              r[t] == if rows[t].right.Some? then right.cols[c][rows[t].right.value] else Missing
  {
    seq(|rows|, t requires 0 <= t < |rows| => if rows[t].right.Some? then right.cols[c][rows[t].right.value] else Missing)
  }

  function MergedColumns(left: Frame, right: Frame, rows: seq<JoinRow>): (r: seq<seq<Cell>>)
    requires WellFormed(left) && WellFormed(right) && "demand_all_time" in right.cols && "demand_index" in right.cols
    requires forall t :: 0 <= t < |rows| ==> rows[t].left < left.n
    requires forall t :: 0 <= t < |rows| && rows[t].right.Some? ==> rows[t].right.value < right.n
    ensures |r| == |left.names| + 2 && forall k :: 0 <= k < |r| ==> |r[k]| == |rows|
  {
    seq(|left.names|, k requires 0 <= k < |left.names| => LeftColumn(left, rows, left.names[k]))
    + [RightColumn(right, rows, "demand_all_time"), RightColumn(right, rows, "demand_index")]
  }

  /** A frame of `n` rows holding `values[k]` under `names[k]`, in that column order. */
  function Build(n: nat, names: seq<string>, values: seq<seq<Cell>>): (r: Frame)
    requires |names| == |values| && Distinct(names) && forall k :: 0 <= k < |values| ==> |values[k]| == n
    ensures WellFormed(r) && r.n == n && r.names == names
    ensures forall k :: 0 <= k < |names| ==> r.cols[names[k]] == values[k]
    decreases |names|
  {
    if names == [] then Frame(n, [], map[])
    else
      var k := |names| - 1;
      DistinctPrefix(names);
      var init := Build(n, names[..k], values[..k]);
      var r := WithCol(init, names[k], values[k]);
      WithColAppends(init, names[k], values[k]);
      BuildStep(init, r, names, values);
      r
  }

  /** Dropping the last name keeps the names distinct, and the last name is new. */
  lemma DistinctPrefix(names: seq<string>)
    requires names != [] && Distinct(names)
    ensures var k := |names| - 1;
            && Distinct(names[..k]) && names[..k] + [names[k]] == names
            && forall a :: 0 <= a < k ==> names[..k][a] != names[k]
  {
  }

  /** Adding the last column to the frame built from the other columns. */
  lemma BuildStep(init: Frame, r: Frame, names: seq<string>, values: seq<seq<Cell>>)
    requires |names| == |values| > 0 && Distinct(names) && WellFormed(init)
    requires var k := |names| - 1;
             && init.names == names[..k] && r.cols == init.cols[names[k] := values[k]]
             && (forall a :: 0 <= a < k ==> names[..k][a] in init.cols)
             && forall a :: 0 <= a < k ==> init.cols[names[..k][a]] == values[..k][a]
    ensures forall a :: 0 <= a < |names| ==> names[a] in r.cols && r.cols[names[a]] == values[a]
  {
    var k := |names| - 1;
    forall a | 0 <= a < |names|
      ensures names[a] in r.cols && r.cols[names[a]] == values[a]
    {
      if a < k {
        assert names[..k][a] == names[a] && values[..k][a] == values[a];
      }
    }
  }

  /** The join rows of two frames, on their `pn` columns. */
  function Rows(left: Frame, right: Frame): seq<JoinRow>
    requires "pn" in left.cols && "pn" in right.cols
  {
    JoinRows(left.cols["pn"], right.cols["pn"])
  }

  /** The merge: the demand columns are indexed first, then the part frame's key, then the column names are checked. */
  function MergeResult(left: Frame, right: Frame): (r: Result<Frame, MergeError>)
    requires WellFormed(left) && WellFormed(right)
    ensures r.Success? ==> WellFormed(r.value) && r.value.names == MergedNames(left)
  {
    if FirstMissingDemand(right).Some? then Failure(MissingColumn(FirstMissingDemand(right).value))
    else if "pn" !in left.cols then Failure(MissingColumn("pn"))
    else if !Distinct(MergedNames(left)) then Failure(DuplicateColumns)
    else
      var rows := Rows(left, right);
      Success(Build(|rows|, MergedNames(left), MergedColumns(left, right, rows)))
  }

  /** A successful merge has one row per join row. */
  lemma MergedRows(left: Frame, right: Frame)
    requires WellFormed(left) && WellFormed(right) && MergeResult(left, right).Success?
    ensures MergeResult(left, right).value.n == |Rows(left, right)|
  {
  }

  /**
   * A part column that collides with no demand column keeps its name, and
   * row `t` of the merged frame carries it from the left row of join row `t`.
   */
  lemma MergedLeftColumn(left: Frame, right: Frame, c: string)
    requires WellFormed(left) && WellFormed(right) && MergeResult(left, right).Success?
    requires c in left.cols && c != "demand_all_time" && c != "demand_index"
    ensures var m, rows := MergeResult(left, right).value, Rows(left, right);
            c in m.cols && m.cols[c] == LeftColumn(left, rows, c)
  {
    var names := MergedNames(left);
    var rows := Rows(left, right);
    var values := MergedColumns(left, right, rows);
    assert MergeResult(left, right).value == Build(|rows|, names, values);
    var k :| 0 <= k < |left.names| && left.names[k] == c;
    MergedHead(left, right, rows, k);
  }

  /** The first merged columns are the part columns, under their own names unless they collide. */
  lemma MergedHead(left: Frame, right: Frame, rows: seq<JoinRow>, k: nat)
    requires WellFormed(left) && WellFormed(right) && "demand_all_time" in right.cols && "demand_index" in right.cols
    requires forall t :: 0 <= t < |rows| ==> rows[t].left < left.n
    requires forall t :: 0 <= t < |rows| && rows[t].right.Some? ==> rows[t].right.value < right.n
    requires k < |left.names|
    ensures MergedNames(left)[k] == LeftName(left.names[k])
    ensures MergedColumns(left, right, rows)[k] == LeftColumn(left, rows, left.names[k])
  {
  }

  /**
   * A demand column the part frame does not have keeps its name, and row `t`
   * of the merged frame reads the matched demand row, or missing.
   */
  lemma MergedDemandColumn(left: Frame, right: Frame, c: string)
    requires WellFormed(left) && WellFormed(right) && MergeResult(left, right).Success?
    requires c in DemandNames() && c !in left.cols
    ensures var m, rows := MergeResult(left, right).value, Rows(left, right);
            c in m.cols && m.cols[c] == RightColumn(right, rows, c)
  {
    var names := MergedNames(left);
    var rows := Rows(left, right);
    var values := MergedColumns(left, right, rows);
    assert MergeResult(left, right).value == Build(|rows|, names, values);
    MergedTail(left, right, rows);
  }

  /** The last two merged columns are the demand columns, under their own names when the part frame lacks them. */
  lemma MergedTail(left: Frame, right: Frame, rows: seq<JoinRow>)
    requires WellFormed(left) && WellFormed(right) && "demand_all_time" in right.cols && "demand_index" in right.cols
    requires forall t :: 0 <= t < |rows| ==> rows[t].left < left.n
    requires forall t :: 0 <= t < |rows| && rows[t].right.Some? ==> rows[t].right.value < right.n
    ensures var names, values, k := MergedNames(left), MergedColumns(left, right, rows), |left.names|;
            && names[k] == RightName(left, "demand_all_time") && values[k] == RightColumn(right, rows, "demand_all_time")
            && names[k + 1] == RightName(left, "demand_index") && values[k + 1] == RightColumn(right, rows, "demand_index")
  {
  }

  /**
   * The model's merge fails exactly on a missing indexed column, a missing part
   * key or a repeated merged name.  pandas 2 rejects only names repeated within
   * one side; a `Frame` cannot hold a name twice, so the model also fails when a
   * suffixed part name repeats a demand name.
   */
  lemma MergeFailures(left: Frame, right: Frame)
    requires WellFormed(left) && WellFormed(right)
    ensures MergeResult(left, right).Failure? <==>
              FirstMissingDemand(right).Some? || "pn" !in left.cols || !Distinct(MergedNames(left))
    ensures "demand_all_time" !in left.cols && "demand_index" !in left.cols ==> Distinct(MergedNames(left))
  {
    if "demand_all_time" !in left.cols && "demand_index" !in left.cols {
      var names := MergedNames(left);
      forall a, b | 0 <= a < b < |names|
        ensures names[a] != names[b]
      {
        if b < |left.names| {
          assert names[a] == left.names[a] && names[b] == left.names[b];
        } else if a < |left.names| {
          assert names[a] == left.names[a];
          assert names[b] in DemandNames();
        } else {
          assert names[a] == "demand_all_time" && names[b] == "demand_index";
        }
      }
    }
  }

  // ---------------------------------------------------------------- de-duplication

  /** Row `i` holds the first occurrence of its key. */
  predicate FirstAt(keys: seq<Cell>, i: nat) {
    i < |keys| && forall j :: 0 <= j < i ==> keys[j] != keys[i]
  }

  /** The indexes of the first occurrence of every key, in order. */
  function FirstOccurrences(keys: seq<Cell>): (r: seq<nat>)
    ensures forall k :: 0 <= k < |r| ==> FirstAt(keys, r[k])
    ensures forall a, b :: 0 <= a < b < |r| ==> r[a] < r[b]
    ensures forall i: nat :: FirstAt(keys, i) ==> i in r
    decreases |keys|
  {
    if keys == [] then []
    else
      var i := |keys| - 1;
      var init := keys[..i];
      var rest := FirstOccurrences(init);
      FirstAtPrefix(keys, i);
      if exists j :: 0 <= j < i && keys[j] == keys[i] then rest else rest + [i]
  }

  /** Below `i`, being a first occurrence does not depend on the rows from `i` on. */
  lemma FirstAtPrefix(keys: seq<Cell>, i: nat)
    requires i <= |keys|
    ensures forall x: nat :: x < i ==> (FirstAt(keys[..i], x) <==> FirstAt(keys, x))
  {
    forall x: nat | x < i
      ensures FirstAt(keys[..i], x) <==> FirstAt(keys, x)
    {
      assert forall j :: 0 <= j <= x ==> keys[..i][j] == keys[j];
    }
  }

  /** The kept keys are pairwise different, and there are no more of them than rows. */
  lemma FirstOccurrencesUnique(keys: seq<Cell>)
    ensures forall a, b :: 0 <= a < b < |FirstOccurrences(keys)| ==>
              keys[FirstOccurrences(keys)[a]] != keys[FirstOccurrences(keys)[b]]
    ensures |FirstOccurrences(keys)| <= |keys|
  {
    var r := FirstOccurrences(keys);
    forall a, b | 0 <= a < b < |r|
      ensures keys[r[a]] != keys[r[b]]
    {
      assert FirstAt(keys, r[b]);
    }
    IncreasingBounded(r, |keys|);
  }

  /** The key of row `i` is the key of some kept row. */
  lemma KeyKept(keys: seq<Cell>, i: nat)
    requires i < |keys|
    ensures exists k :: 0 <= k < |FirstOccurrences(keys)| && keys[FirstOccurrences(keys)[k]] == keys[i]
  {
    var r := FirstOccurrences(keys);
    var j := FirstIndex(keys, i);
    assert j in r;
    var k :| 0 <= k < |r| && r[k] == j;
    assert keys[r[k]] == keys[i];
  }

  /** The first row holding the key of row `i`. */
  function FirstIndex(keys: seq<Cell>, i: nat): (j: nat)
    requires i < |keys|
    ensures j <= i && keys[j] == keys[i] && FirstAt(keys, j)
    decreases i
  {
    if exists j :: 0 <= j < i && keys[j] == keys[i] then
      var j :| 0 <= j < i && keys[j] == keys[i];
      FirstIndex(keys, j)
    else i
  }

  /** A strictly increasing sequence of indexes below `n` has at most `n` entries. */
  lemma {:induction false} IncreasingBounded(r: seq<nat>, n: nat)
    requires forall k :: 0 <= k < |r| ==> r[k] < n
    requires forall a, b :: 0 <= a < b < |r| ==> r[a] < r[b]
    ensures |r| <= n
    decreases n
  {
    if r != [] {
      var init := r[..|r| - 1];
      assert forall k :: 0 <= k < |init| ==> init[k] < r[|r| - 1] <= n - 1;
      IncreasingBounded(init, n - 1);
    }
  }

  /** `drop_duplicates(subset=['pn_clean'], keep='first')` when the column exists; the frame unchanged otherwise. */
  function Deduplicated(f: Frame): (r: Frame)
    requires WellFormed(f)
    ensures WellFormed(r) && r.names == f.names && r.cols.Keys == f.cols.Keys && r.n <= f.n
  {
    if "pn_clean" in f.cols then
      var keep := FirstOccurrences(f.cols["pn_clean"]);
      FirstOccurrencesUnique(f.cols["pn_clean"]);
      SelectRows(f, keep)
    else f
  }

  /**
   * After de-duplication the `pn_clean` values are pairwise different, every
   * value of the input still occurs, and each kept row is the first row with
   * its value, the kept rows staying in their relative order.
   */
  lemma DeduplicatedFacts(f: Frame)
    requires WellFormed(f) && "pn_clean" in f.cols
    ensures var r, keep := Deduplicated(f), FirstOccurrences(f.cols["pn_clean"]);
            && (forall a, b :: 0 <= a < b < r.n ==> r.cols["pn_clean"][a] != r.cols["pn_clean"][b])
            && (forall i :: 0 <= i < f.n ==> exists k :: 0 <= k < r.n && r.cols["pn_clean"][k] == f.cols["pn_clean"][i])
            && (forall c, k :: c in f.cols && 0 <= k < r.n ==> r.cols[c][k] == f.cols[c][keep[k]])
            && (forall a, b :: 0 <= a < b < r.n ==> keep[a] < keep[b])
            && (forall k :: 0 <= k < r.n ==> FirstAt(f.cols["pn_clean"], keep[k]))
  {
    var keys, keep := f.cols["pn_clean"], FirstOccurrences(f.cols["pn_clean"]);
    var r := Deduplicated(f);
    FirstOccurrencesUnique(keys);
    assert forall k :: 0 <= k < r.n ==> r.cols["pn_clean"][k] == keys[keep[k]];
    forall i | 0 <= i < f.n
      ensures exists k :: 0 <= k < r.n && r.cols["pn_clean"][k] == keys[i]
    {
      KeyKept(keys, i);
      var k :| 0 <= k < |keep| && keys[keep[k]] == keys[i];
      assert r.cols["pn_clean"][k] == keys[i];
    }
  }
}
