/**
 * The pure parts of the CSV/warehouse loader (scripts/data_loader.py): the
 * lead-time parser behind the pattern `(\d+)\s*Weeks` searched without regard
 * to case, and the column-presence logic of `parse_json_fields`.  The JSON
 * extractors are parameters.
 */
module DataLoader {
  import opened Wrappers
  import opened Frames

  predicate IsDigit(c: char) {
    '0' <= c <= '9'
  }

  function DigitValue(c: char): nat
    requires IsDigit(c)
  {
    c as int - '0' as int
  }

  /** `\s` on the characters up to U+00A0: tab to carriage return, U+001C to U+001F, space, U+0085 and U+00A0. */
  predicate IsSpace(c: char) {
    (9 <= c as int <= 13) || (28 <= c as int <= 32) || c as int == 0x85 || c as int == 0xA0
  }

  /**
   * `c` matches the lower-case letter `l` under IGNORECASE: itself, its upper
   * case, and the two extra case partners Python's matcher adds for the letters
   * of "weeks": KELVIN SIGN for `k` and LATIN SMALL LETTER LONG S for `s`.
   */
  predicate MatchesIgnoringCase(c: char, l: char)
    requires 'a' <= l <= 'z'
  {
    c == l || c as int == l as int - 32 || (l == 'k' && c as int == 0x212A) || (l == 's' && c as int == 0x17F)
  }

  predicate WeeksAt(s: string, q: nat) {
    && q + 5 <= |s|
    && MatchesIgnoringCase(s[q], 'w') && MatchesIgnoringCase(s[q + 1], 'e') && MatchesIgnoringCase(s[q + 2], 'e')
    && MatchesIgnoringCase(s[q + 3], 'k') && MatchesIgnoringCase(s[q + 4], 's')
  }

  /** The end of the run of digits starting at `p`. */
  function DigitEnd(s: string, p: nat): (q: nat)
    requires p <= |s|
    ensures p <= q <= |s| && (q == |s| || !IsDigit(s[q]))
    ensures forall k :: p <= k < q ==> IsDigit(s[k])
    decreases |s| - p
  {
    if p < |s| && IsDigit(s[p]) then DigitEnd(s, p + 1) else p
  }

  /** The end of the run of whitespace starting at `p`. */
  function SpaceEnd(s: string, p: nat): (q: nat)
    requires p <= |s|
    ensures p <= q <= |s| && (q == |s| || !IsSpace(s[q]))
    ensures forall k :: p <= k < q ==> IsSpace(s[k])
    decreases |s| - p
  {
    if p < |s| && IsSpace(s[p]) then SpaceEnd(s, p + 1) else p
  }

  /**
   * The pattern matches at `p`.  `\d+` and `\s*` are greedy, and neither a
   * digit nor a space can be the `W` that follows, so backtracking never finds
   * a shorter alternative: the match at `p` takes the whole digit run from `p`,
   * the whole whitespace run after it, and then needs "weeks".
   */
  predicate MatchAt(s: string, p: nat) {
    p < |s| && IsDigit(s[p]) && WeeksAt(s, SpaceEnd(s, DigitEnd(s, p)))
  }

  /** `re.search` from position `p`: the leftmost position at or after `p` where the pattern matches. */
  function FirstMatch(s: string, p: nat): (r: Option<nat>)
    requires p <= |s|
    ensures r.Some? ==> p <= r.value < |s| && MatchAt(s, r.value) && forall q :: p <= q < r.value ==> !MatchAt(s, q)
    ensures r.None? ==> forall q :: p <= q < |s| ==> !MatchAt(s, q)
    decreases |s| - p
  {
    if p == |s| then None else if MatchAt(s, p) then Some(p) else FirstMatch(s, p + 1)
  }

  /** The decimal value of a string of digits, most significant first. */
  function DigitsValue(d: string): nat
    requires forall k :: 0 <= k < |d| ==> IsDigit(d[k])
    decreases |d|
  {
    if d == [] then 0 else DigitsValue(d[..|d| - 1]) * 10 + DigitValue(d[|d| - 1])
  }

  /** `int(match.group(1))` of the leftmost match, or nothing without one. */
  function ParseWeeks(s: string): (r: Option<nat>)
    ensures r.Some? ==> exists p :: 0 <= p < |s| && MatchAt(s, p)
    ensures r.None? ==> forall p :: 0 <= p < |s| ==> !MatchAt(s, p)
  {
    match FirstMatch(s, 0)
    case None => None
    case Some(p) => Some(DigitsValue(s[p..DigitEnd(s, p)]))
  }

  /**
   * `extract_leadtime_weeks`: missing gives nothing; a string is searched; a
   * number is searched as its `str`, which has no letter `w` and never matches.
   */
  function ExtractLeadtimeWeeks(c: Cell): (r: Option<nat>)
    ensures !c.Text? ==> r.None?
    ensures c.Text? ==> (r.Some? <==> exists p :: 0 <= p < |c.s| && MatchAt(c.s, p))
  {
    match c
    case Missing => None
    case Num(_) => None
    case Text(s) => ParseWeeks(s)
  }

  /** A position inside a digit run matches exactly when the run's start does, so the leftmost match starts a run and group 1 is the whole run. */
  lemma LeftmostMatchStartsRun(s: string)
    requires FirstMatch(s, 0).Some?
    ensures var p := FirstMatch(s, 0).value;
            p == 0 || !IsDigit(s[p - 1])
  {
    var p := FirstMatch(s, 0).value;
    RunSharesMatch(s, p);
  }

  /** Two neighbouring positions of one digit run share its end, hence the same match result. */
  lemma RunSharesMatch(s: string, p: nat)
    ensures 0 < p < |s| && IsDigit(s[p - 1]) && IsDigit(s[p]) ==> (MatchAt(s, p - 1) <==> MatchAt(s, p))
  {
    if 0 < p < |s| && IsDigit(s[p - 1]) && IsDigit(s[p]) {
      assert DigitEnd(s, p - 1) == DigitEnd(s, p);
    }
  }

  /** The parse succeeds exactly when the pattern matches somewhere, and then gives the value of the first match's digits. */
  lemma ParseWeeksSpec(s: string)
    ensures ParseWeeks(s).Some? <==> exists p :: 0 <= p < |s| && MatchAt(s, p)
    ensures ParseWeeks(s).Some? ==>
              var p := FirstMatch(s, 0).value;
              ParseWeeks(s).value == DigitsValue(s[p..DigitEnd(s, p)])
  {
    if FirstMatch(s, 0).Some? {
      var p := FirstMatch(s, 0).value;
      assert 0 <= p < |s| && MatchAt(s, p);
    }
  }

  /** A missing or numeric lead time gives nothing; a text gives a week count exactly when the pattern matches in it. */
  lemma ExtractLeadtimeWeeksSpec(c: Cell)
    ensures !c.Text? ==> ExtractLeadtimeWeeks(c).None?
    ensures c.Text? ==> (ExtractLeadtimeWeeks(c).Some? <==> exists p :: 0 <= p < |c.s| && MatchAt(c.s, p))
  {
    if c.Text? {
      ParseWeeksSpec(c.s);
    }
  }

  // ---------------------------------------------------------------- round trip

  function DigitChar(d: nat): (c: char)
    requires d < 10
    ensures IsDigit(c) && DigitValue(c) == d
  {
    ('0' as int + d) as char
  }

  /** `str(n)` for a natural number. */
  function NatToString(n: nat): (s: string)
    ensures |s| >= 1 && forall k :: 0 <= k < |s| ==> IsDigit(s[k])
  {
    if n < 10 then [DigitChar(n)] else NatToString(n / 10) + [DigitChar(n % 10)]
  }

  lemma {:induction false} DigitsValueOfNatToString(n: nat)
    ensures DigitsValue(NatToString(n)) == n
  {
    if n >= 10 {
      var s := NatToString(n);
      assert s[..|s| - 1] == NatToString(n / 10);
      DigitsValueOfNatToString(n / 10);
    }
  }

  /** The digit run of `s` starting at `p` ends at `q` when the digits fill `[p, q)` and `q` is not a digit. */
  lemma {:induction false} DigitEndAt(s: string, p: nat, q: nat)
    requires p <= q <= |s| && (q == |s| || !IsDigit(s[q]))
    requires forall k :: p <= k < q ==> IsDigit(s[k])
    ensures DigitEnd(s, p) == q
    decreases q - p
  {
    if p < q {
      DigitEndAt(s, p + 1, q);
    }
  }

  /** Every natural number written out and followed by " Weeks" parses back to itself. */
  lemma ParseWeeksRoundTrip(n: nat)
    ensures ParseWeeks(NatToString(n) + " Weeks") == Some(n)
  {
    var t := NatToString(n);
    var s := t + " Weeks";
    assert s[|t|] == ' ' && s[|t| + 1] == 'W';
    DigitEndAt(s, 0, |t|);
    assert SpaceEnd(s, |t| + 1) == |t| + 1;
    assert SpaceEnd(s, |t|) == |t| + 1;
    assert WeeksAt(s, |t| + 1);
    assert MatchAt(s, 0);
    assert s[0..|t|] == t;
    DigitsValueOfNatToString(n);
  }

  /** "16 Weeks, 0 Days" gives 16. */
  lemma ParseWeeksSixteen()
    ensures ParseWeeks("16 Weeks, 0 Days") == Some(16)
  {
    var a := "16 Weeks, 0 Days";
    DigitEndAt(a, 0, 2);
    assert SpaceEnd(a, 2) == 3;
    assert MatchAt(a, 0);
    assert a[0..2] == "16";
    assert DigitsValue("16") == 16 by { assert "16"[..1] == "1"; }
  }

  /** The letter case of "Weeks" does not matter: "3 WEEKS" gives 3. */
  lemma ParseWeeksUpperCase()
    ensures ParseWeeks("3 WEEKS") == Some(3)
  {
    var a := "3 WEEKS";
    DigitEndAt(a, 0, 1);
    assert SpaceEnd(a, 1) == 2;
    assert MatchAt(a, 0);
    assert a[0..1] == "3";
  }

  /** A text without digits gives nothing: "Available Now". */
  lemma ParseWeeksNoDigits()
    ensures ParseWeeks("Available Now") == None
  {
    var b := "Available Now";
    assert forall q :: 0 <= q < |b| ==> !IsDigit(b[q]);
  }

  /** The singular "1 Week" gives nothing: the pattern needs the final `s`. */
  lemma ParseWeeksSingular()
    ensures ParseWeeks("1 Week") == None
  {
    var c := "1 Week";
    forall q | 0 <= q < |c|
      ensures !MatchAt(c, q)
    {
      if q == 0 {
        DigitEndAt(c, 0, 1);
        assert SpaceEnd(c, 1) == 2;
      }
    }
  }

  // ---------------------------------------------------------------- parse_json_fields

  function ApplyCells(col: seq<Cell>, g: Cell -> Cell): (r: seq<Cell>)
    ensures |r| == |col| && forall i :: 0 <= i < |col| ==> r[i] == g(col[i])
  {
    seq(|col|, i requires 0 <= i < |col| => g(col[i]))
  }

  /** A parsed lead time as a cell: the week count, or missing (`None` in an object column). */
  function LeadtimeCell(c: Cell): Cell {
    var w := ExtractLeadtimeWeeks(c);
    if w.Some? then Num(w.value as real) else Missing
  }

  /** One step of `parse_json_fields`: `dst` computed cell by cell from `src` when `src` is a column. */
  function ParsedColumn(df: Frame, src: string, dst: string, g: Cell -> Cell): (r: Frame)
    requires WellFormed(df)
    ensures WellFormed(r) && r.n == df.n
    ensures forall c :: c in r.cols <==> c in df.cols || (c == dst && src in df.cols)
    ensures src in df.cols ==> r.cols[dst] == ApplyCells(df.cols[src], g)
    ensures forall c :: c in df.cols && !(c == dst && src in df.cols) ==> r.cols[c] == df.cols[c]
  {
    if src in df.cols then WithCol(df, dst, ApplyCells(df.cols[src], g)) else df
  }

  /**
   * `parse_json_fields` on a copy of the frame: `first_price` from `pricing`,
   * `leadtime_weeks` from `leadtime` and `order_count` from `ordered`, each
   * written only when its source column exists.
   */
  method ParseJsonFields(df: Frame, firstPrice: Cell -> Cell, orderCount: Cell -> Cell) returns (out: Frame)
    requires WellFormed(df)
    ensures WellFormed(out) && out.n == df.n
    ensures forall c :: c in out.cols <==>
              || c in df.cols
              || (c == "first_price" && "pricing" in df.cols)
              || (c == "leadtime_weeks" && "leadtime" in df.cols)
              || (c == "order_count" && "ordered" in df.cols)
    ensures "pricing" in df.cols ==> "first_price" in out.cols && out.cols["first_price"] == ApplyCells(df.cols["pricing"], firstPrice)
    ensures "leadtime" in df.cols ==> "leadtime_weeks" in out.cols && out.cols["leadtime_weeks"] == ApplyCells(df.cols["leadtime"], LeadtimeCell)
    ensures "ordered" in df.cols ==> "order_count" in out.cols && out.cols["order_count"] == ApplyCells(df.cols["ordered"], orderCount)
    ensures forall c :: (&& c in df.cols && !(c == "first_price" && "pricing" in df.cols)
                         && !(c == "leadtime_weeks" && "leadtime" in df.cols)
                         && !(c == "order_count" && "ordered" in df.cols))
                        ==> c in out.cols && out.cols[c] == df.cols[c]
  {
    assert "first_price" != "leadtime" && "first_price" != "ordered" && "leadtime_weeks" != "ordered";
    assert "leadtime_weeks" != "first_price" && "order_count" != "first_price" && "order_count" != "leadtime_weeks";
    var d1 := ParsedColumn(df, "pricing", "first_price", firstPrice);
    var d2 := ParsedColumn(d1, "leadtime", "leadtime_weeks", LeadtimeCell);
    out := ParsedColumn(d2, "ordered", "order_count", orderCount);
  }
}
