/**
 * A column-oriented model of the pandas DataFrames the scorers pass around.
 *
 * A frame has `n` rows and an ordered list of column names; every column holds
 * exactly `n` cells.  A cell is a number, a text value or missing (NaN/None).
 * Booleans are stored as the numbers 1 and 0, as pandas compares them.
 * Comparisons against a missing cell are false, exactly as pandas compares NaN.
 */
module Frames {

  datatype Cell = Missing | Num(x: real) | Text(s: string)

  datatype Frame = Frame(n: nat, names: seq<string>, cols: map<string, seq<Cell>>)

  predicate WellFormed(f: Frame) {
    && (forall c :: c in f.cols ==> |f.cols[c]| == f.n)
    && (forall c :: c in f.cols ==> c in f.names)
    && (forall i :: 0 <= i < |f.names| ==> f.names[i] in f.cols)
    && (forall i, j :: 0 <= i < j < |f.names| ==> f.names[i] != f.names[j])
  }

  /** The cell of column `c` in row `i`; an absent column reads as missing. */
  function CellAt(f: Frame, c: string, i: nat): Cell {
    if c in f.cols && i < |f.cols[c]| then f.cols[c][i] else Missing
  }

  /** `df.get(c, default)` read in row `i`: the column's cell, or the scalar default when the column is absent. */
  function GetOr(f: Frame, c: string, i: nat, default: Cell): Cell {
    if c in f.cols then CellAt(f, c, i) else default
  }

  /** `fillna(0)` on one numeric cell. */
  function FillZero(c: Cell): real {
    if c.Num? then c.x else 0.0
  }

  /** `fillna(v)` on a whole column. */
  function FillNa(col: seq<Cell>, v: Cell): (r: seq<Cell>)
    ensures |r| == |col|
    ensures forall i :: 0 <= i < |col| ==> r[i] == if col[i].Missing? then v else col[i]
  {
    seq(|col|, i requires 0 <= i < |col| => if col[i].Missing? then v else col[i])
  }

  /** Filling twice with the same value is filling once. */
  lemma FillNaIdempotent(col: seq<Cell>, v: Cell)
    requires !v.Missing?
    ensures FillNa(FillNa(col, v), v) == FillNa(col, v)
  {
  }

  /** 1 for true and 0 for false, as `astype(int)` gives. */
  function Ind(b: bool): real {
    if b then 1.0 else 0.0
  }

  function NumCol(xs: seq<real>): (r: seq<Cell>)
    ensures |r| == |xs|
    ensures forall i :: 0 <= i < |xs| ==> r[i] == Num(xs[i])
  {
    seq(|xs|, i requires 0 <= i < |xs| => Num(xs[i]))
  }

  // Element-wise comparisons; NaN, and text compared with a number, give False.
  predicate Eq(c: Cell, v: real) { c.Num? && c.x == v }
  predicate Gt(c: Cell, v: real) { c.Num? && c.x > v }
  predicate Ge(c: Cell, v: real) { c.Num? && c.x >= v }
  predicate Lt(c: Cell, v: real) { c.Num? && c.x < v }
  predicate Le(c: Cell, v: real) { c.Num? && c.x <= v }
  predicate TextIs(c: Cell, t: string) { c.Text? && c.s == t }

  /** `df[c] = col`: replaces the column in place or appends it at the end. */
  function WithCol(f: Frame, c: string, col: seq<Cell>): (r: Frame)
    requires WellFormed(f) && |col| == f.n
    ensures WellFormed(r) && r.n == f.n && r.cols == f.cols[c := col]
    ensures c in f.cols ==> r.names == f.names
  {
    var names := if c in f.cols then f.names else f.names + [c];
    assert forall i :: 0 <= i < |f.names| ==> names[i] == f.names[i];
    Frame(f.n, names, f.cols[c := col])
  }

  /** A column under a new name is appended to the column order. */
  lemma WithColAppends(f: Frame, c: string, col: seq<Cell>)
    requires WellFormed(f) && |col| == f.n && c !in f.cols
    ensures WithCol(f, c, col).names == f.names + [c]
  {
  }

  /** The rows `idx[0], idx[1], ...` of `f`, in that order, with every column kept. */
  function SelectRows(f: Frame, idx: seq<nat>): (r: Frame)
    requires WellFormed(f) && forall k :: 0 <= k < |idx| ==> idx[k] < f.n
    ensures WellFormed(r) && r.n == |idx| && r.names == f.names && r.cols.Keys == f.cols.Keys
    ensures forall c, k :: c in f.cols && 0 <= k < |idx| ==> r.cols[c][k] == f.cols[c][idx[k]]
  {
    Frame(|idx|, f.names,
          map c | c in f.cols :: seq(|idx|, k requires 0 <= k < |idx| => f.cols[c][idx[k]]))
  }

  /** A mutable handle on a frame, for the places where the source changes the caller's DataFrame. */
  class FrameRef {
    var frame: Frame

    constructor (f: Frame)
      ensures frame == f
    {
      frame := f;
    }

    /** `df[c] = col` on the shared DataFrame. */
    method SetColumn(c: string, col: seq<Cell>)
      requires WellFormed(frame) && |col| == frame.n
      modifies this
      ensures frame == WithCol(old(frame), c, col)
    {
      frame := WithCol(frame, c, col);
    }
  }
}
