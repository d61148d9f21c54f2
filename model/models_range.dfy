/** A rectangular block of cells such as A1:B2 (src/Models/range.py, class CellRange). */
module ModelsRange {
  import opened Results
  import opened Text
  import opened Columns
  import opened Nodes
  import opened ModelsReference

  datatype CellRange = CellRange(start: RefValue, end: RefValue)

  /** Both corners are references the parser can produce. */
  predicate Valid(r: CellRange) {
    IsCellValue(r.start) && IsCellValue(r.end)
  }

  /** Length of the leading run of digits. */
  function DigitRun(s: string): (n: nat)
    ensures n <= |s|
  {
    if s == [] || !IsDigit(s[0]) then 0 else 1 + DigitRun(s[1..])
  }

  /** Length of the text [A-Z]+\d+ matches at the start of s, or 0 when it
      matches nothing there. */
  function CellPrefix(s: string): (k: nat)
    ensures k <= |s|
  {
    var n := UpperRun(s);
    var d := DigitRun(s[n..]);
    if n >= 1 && d >= 1 then n + d else 0
  }

  /** re.match with ([A-Z]+\d+):([A-Z]+\d+): anchored at the start only, so
      anything after the second reference is ignored. */
  function MatchRange(s: string): Option<(string, string)> {
    var k := CellPrefix(s);
    if k >= 1 && k < |s| && s[k] == ':' then
      var rest := s[k + 1..];
      var m := CellPrefix(rest);
      if m >= 1 then Some((s[..k], rest[..m])) else None
    else None
  }

  /** CellRange.is_valid_range on a string. */
  predicate IsValidRange(s: string) {
    MatchRange(s).Some?
  }

  /** CellRange(range_str): parse_range, then a Reference for each end. */
  function ParseRange(s: string): (r: Result<CellRange>)
    ensures !IsValidRange(s) ==> r == Err(ValueError)
    ensures r.Ok? ==> Valid(r.value) && r.value.start.sheet.None? && r.value.end.sheet.None?
  {
    match MatchRange(s)
    case None => Err(ValueError)
    case Some(ends) =>
      var start :- ParseReference(ends.0);
      var end :- ParseReference(ends.1);
      StartHasNoSheet(ends.0);
      StartHasNoSheet(ends.1);
      Ok(CellRange(start, end))
  }

  lemma StartHasNoSheet(s: string)
    requires ParseReference(s).Ok? && |s| > 0 && IsUpper(s[0])
    ensures IsCellValue(ParseReference(s).value) && ParseReference(s).value.sheet.None?
  {
    if s[|s| - 1] == '\n' {
      assert s[..|s| - 1][0] == s[0];
    }
  }

  /** CellRange(start_ref, end_ref): two references given separately. */
  function FromReferences(startRef: string, endRef: string): (r: Result<CellRange>)
    ensures r.Ok? <==> IsValidReference(startRef) && IsValidReference(endRef)
    ensures r.Ok? ==> r.value == CellRange(ParseReference(startRef).value, ParseReference(endRef).value)
  {
    var start :- ParseReference(startRef);
    var end :- ParseReference(endRef);
    Ok(CellRange(start, end))
  }

  /** list(range(lo, hi + 1)) */
  function Span(lo: int, hi: int): (r: seq<int>)
    ensures |r| == if hi < lo then 0 else hi - lo + 1
    ensures forall i :: 0 <= i < |r| ==> r[i] == lo + i
  {
    if hi < lo then [] else seq(hi - lo + 1, i => lo + i)
  }

  /** get_rows_in_range: every row from the start row to the end row, in
      order, and none when the end row is above the start row. */
  function Rows(r: CellRange): (rows: seq<int>)
    ensures |rows| == if r.end.row < r.start.row then 0 else r.end.row - r.start.row + 1
    ensures forall i :: 0 <= i < |rows| ==> rows[i] == r.start.row + i
  {
    Span(r.start.row, r.end.row)
  }

  /** get_columns_in_range(as_numbers=True): every column number from the
      start corner's column to the end corner's, in order. */
  function ColumnNumbers(r: CellRange): (cols: seq<int>)
    requires Valid(r)
    ensures var lo := ColumnIndex(r.start.letters); var hi := ColumnIndex(r.end.letters);
            |cols| == (if hi < lo then 0 else hi - lo + 1)
            && forall j :: 0 <= j < |cols| ==> cols[j] == lo + j
  {
    Span(ColumnIndex(r.start.letters), ColumnIndex(r.end.letters))
  }

  /** get_columns_in_range(): the column names. */
  function ColumnNames(r: CellRange): (names: seq<string>)
    requires Valid(r)
    ensures |names| == |ColumnNumbers(r)|
    ensures forall j :: 0 <= j < |names| ==> AllUpper(names[j]) && ColumnIndex(names[j]) == ColumnNumbers(r)[j]
  {
    var cols := ColumnNumbers(r);
    var names := seq(|cols|, j requires 0 <= j < |cols| => ColumnLetters(cols[j]));
    forall j | 0 <= j < |names|
      ensures ColumnIndex(names[j]) == cols[j]
    {
      IndexOfLetters(cols[j]);
    }
    names
  }

  /** get_cells_in_range(): one list of cell names per row. */
  function Cells(r: CellRange): (cells: seq<seq<string>>)
    requires Valid(r)
    ensures |cells| == |Rows(r)|
    ensures forall i :: 0 <= i < |cells| ==> |cells[i]| == |ColumnNumbers(r)|
  {
    var rows := Rows(r);
    var cols := ColumnNumbers(r);
    seq(|rows|, i requires 0 <= i < |rows| =>
      seq(|cols|, j requires 0 <= j < |cols| => ColumnLetters(cols[j]) + IntToString(rows[i])))
  }

  lemma CellText(r: CellRange, i: int, j: int)
    requires Valid(r) && 0 <= i < |Rows(r)| && 0 <= j < |ColumnNumbers(r)|
    ensures var col := ColumnIndex(r.start.letters) + j;
            Cells(r)[i][j] == RefText(None, ColumnLetters(col), r.start.row + i)
  {
  }

  /** Every cell of the grid is a reference to its own row and column. */
  lemma CellsAreReferences(r: CellRange, i: int, j: int)
    requires Valid(r) && 0 <= i < |Rows(r)| && 0 <= j < |ColumnNumbers(r)|
    ensures var col := ColumnIndex(r.start.letters) + j;
            ParseReference(Cells(r)[i][j]) == Ok(RefValue(None, ColumnLetters(col), r.start.row + i, col))
  {
    var col := ColumnIndex(r.start.letters) + j;
    var v := RefValue(None, ColumnLetters(col), r.start.row + i, col);
    CellText(r, i, j);
    var t := Cells(r)[i][j];
    assert t == RefText(v.sheet, v.letters, v.row);
    IndexOfLetters(col);
    ParsePrinted(v);
    assert ParseReference(t) == Ok(v);
  }

  /** The grid starts at the range's first corner. */
  lemma FirstCell(r: CellRange)
    requires Valid(r) && |Rows(r)| > 0 && |ColumnNumbers(r)| > 0
    ensures Cells(r)[0][0] == RefText(None, r.start.letters, r.start.row)
  {
    CellText(r, 0, 0);
    LettersOfIndex(r.start.letters);
  }

  /** CellRange.__str__ */
  function Str(r: CellRange): string {
    RefText(r.start.sheet, r.start.letters, r.start.row) + ":" + RefText(r.end.sheet, r.end.letters, r.end.row)
  }

  /** A printed range without sheets starts with a letter and ends in a digit. */
  lemma RangeEnds(rg: CellRange)
    requires Valid(rg) && rg.start.sheet.None? && rg.end.sheet.None?
    ensures var t := Str(rg);
            t != [] && !IsSpace(t[0]) && IsDigit(t[|t| - 1])
  {
    var a := RefText(None, rg.start.letters, rg.start.row);
    var b := RefText(None, rg.end.letters, rg.end.row);
    RefTextEnds(rg.start.letters, rg.start.row);
    RefTextEnds(rg.end.letters, rg.end.row);
    EndsOfParts(a, ":", b);
  }

  /** A reference without a sheet starts with its first letter and ends in a digit. */
  lemma RefTextEnds(letters: string, row: int)
    requires letters != [] && AllUpper(letters) && row >= 1
    ensures var t := RefText(None, letters, row);
            t != [] && IsUpper(t[0]) && IsDigit(t[|t| - 1])
  {
    var d := NatToString(row);
    assert RefText(None, letters, row) == letters + d;
    assert IsUpper(letters[0]);
    EndsOfParts(letters, [], d);
    assert letters + [] == letters;
  }

  lemma EndsOfParts(x: string, y: string, z: string)
    requires x != [] && z != []
    ensures (x + y + z)[0] == x[0] && (x + y + z)[|x + y + z| - 1] == z[|z| - 1]
  {
  }

  /** CellRange.to_dict */
  function ToDict(r: CellRange): (d: Node)
    ensures d.RangeNode? && d.display == d.start + ":" + d.end
  {
    RangeNode(Str(r), RefText(r.start.sheet, r.start.letters, r.start.row), RefText(r.end.sheet, r.end.letters, r.end.row))
  }

  lemma {:induction false} DigitRunConcat(a: string, b: string)
    requires AllDigits(a)
    ensures DigitRun(a + b) == |a| + DigitRun(b)
  {
    if a != [] {
      assert (a + b)[0] == a[0] && IsDigit(a[0]);
      assert (a + b)[1..] == a[1..] + b;
      assert AllDigits(a[1..]) by {
        forall i | 0 <= i < |a[1..]|
          ensures IsDigit(a[1..][i])
        {
          assert a[1..][i] == a[i + 1];
        }
      }
      DigitRunConcat(a[1..], b);
    } else {
      assert a + b == b;
    }
  }

  /** [A-Z]+\d+ followed by text that does not start with a digit matches exactly. */
  lemma CellPrefixOf(l: string, d: string, after: string)
    requires l != [] && AllUpper(l) && IsDigitString(d)
    requires after == [] || !IsDigit(after[0])
    ensures CellPrefix(l + d + after) == |l| + |d|
  {
    var t := l + d + after;
    assert t == l + (d + after);
    UpperRunConcat(l, d + after);
    assert (d + after)[0] == d[0];
    assert UpperRun(d + after) == 0;
    assert t[|l|..] == d + after;
    DigitRunConcat(d, after);
    assert after == [] || DigitRun(after) == 0;
  }

  lemma MatchRangeAt(s: string, k: nat, m: nat)
    requires k == CellPrefix(s) && 1 <= k < |s| && s[k] == ':'
    requires m == CellPrefix(s[k + 1..]) && m >= 1
    ensures MatchRange(s) == Some((s[..k], s[k + 1..][..m]))
  {
  }

  lemma MatchPrintedRange(la: string, da: string, lb: string, db: string, tail: string)
    requires la != [] && AllUpper(la) && IsDigitString(da)
    requires lb != [] && AllUpper(lb) && IsDigitString(db)
    requires tail == [] || !IsDigit(tail[0])
    ensures MatchRange(la + da + ":" + lb + db + tail) == Some((la + da, lb + db))
  {
    var a := la + da;
    var rest := lb + db + tail;
    var s := a + ":" + rest;
    assert s == la + da + ":" + lb + db + tail;
    assert s == la + da + (":" + rest);
    CellPrefixOf(la, da, ":" + rest);
    CellPrefixOf(lb, db, tail);
    assert s[..|a|] == a;
    assert s[|a| + 1..] == rest;
    assert rest[..|lb| + |db|] == lb + db;
    MatchRangeAt(s, |a|, |lb| + |db|);
  }

  /** Printing a range and parsing the text gives the range back, and so does any
      text that continues the printed range with something other than a digit: the
      pattern is not anchored at the end. */
  lemma ParsePrintedRange(r: CellRange, tail: string)
    requires Valid(r) && r.start.sheet.None? && r.end.sheet.None?
    requires tail == [] || !IsDigit(tail[0])
    ensures ParseRange(Str(r) + tail) == Ok(r)
  {
    var da := NatToString(r.start.row);
    var db := NatToString(r.end.row);
    var a := RefText(None, r.start.letters, r.start.row);
    var b := RefText(None, r.end.letters, r.end.row);
    assert a == r.start.letters + da;
    assert b == r.end.letters + db;
    assert Str(r) + tail == a + ":" + b + tail;
    assert a + ":" + b + tail == r.start.letters + da + ":" + r.end.letters + db + tail;
    MatchPrintedRange(r.start.letters, da, r.end.letters, db, tail);
    ParsePrinted(r.start);
    ParsePrinted(r.end);
    ParseRangeOf(Str(r) + tail, a, b);
  }

  lemma ParseRangeOf(s: string, a: string, b: string)
    requires MatchRange(s) == Some((a, b))
    requires ParseReference(a).Ok? && ParseReference(b).Ok?
    ensures ParseRange(s) == Ok(CellRange(ParseReference(a).value, ParseReference(b).value))
  {
  }
}
