/** A single cell reference such as A1 or 'Sheet1'!B2 (src/Models/reference.py). */
module ModelsReference {
  import opened Results
  import opened Text
  import opened Columns
  import opened Nodes

  /** The groups of the pattern (?:'([^']+)'!)?([A-Z]+)(\d+)$ */
  datatype RefMatch = RefMatch(sheet: Option<string>, letters: string, digits: string)

  /** What a reference object holds: sheet, column letters, row and column number. */
  datatype RefValue = RefValue(sheet: Option<string>, letters: string, row: int, column: int)

  /** A sheet name the pattern's sheet group accepts: non-empty, no quote. */
  predicate IsSheetName(name: string) {
    name != [] && '\'' !in name
  }

  /** The groups a successful match can produce. */
  predicate WellFormed(m: RefMatch) {
    (m.sheet.Some? ==> IsSheetName(m.sheet.value)) && m.letters != [] && AllUpper(m.letters) && IsDigitString(m.digits)
  }

  /** Length of the leading run of upper-case letters. */
  function UpperRun(s: string): (n: nat)
    ensures n <= |s|
  {
    if s == [] || !IsUpper(s[0]) then 0 else 1 + UpperRun(s[1..])
  }

  lemma {:induction false} UpperRunSpec(s: string)
    ensures var n := UpperRun(s); AllUpper(s[..n]) && (n < |s| ==> !IsUpper(s[n]))
  {
    if s != [] && IsUpper(s[0]) {
      UpperRunSpec(s[1..]);
      var n := UpperRun(s);
      assert s[..n] == [s[0]] + s[1..][..n - 1];
    }
  }

  /** Position of the first quote, or the length when there is none. */
  function QuoteIndex(s: string): (k: nat)
    ensures k <= |s|
  {
    if s == [] || s[0] == '\'' then 0 else 1 + QuoteIndex(s[1..])
  }

  lemma {:induction false} QuoteIndexSpec(s: string)
    ensures var k := QuoteIndex(s); '\'' !in s[..k] && (k < |s| ==> s[k] == '\'')
  {
    if s != [] && s[0] != '\'' {
      QuoteIndexSpec(s[1..]);
      var k := QuoteIndex(s);
      assert s[..k] == [s[0]] + s[1..][..k - 1];
    }
  }

  /** [A-Z]+(\d+) matching all of t. */
  function MatchCell(t: string): Option<(string, string)> {
    var n := UpperRun(t);
    if n >= 1 && IsDigitString(t[n..]) then Some((t[..n], t[n..])) else None
  }

  /** The pattern without its end anchor, matched against all of t. */
  function MatchBody(t: string): Option<RefMatch> {
    if |t| > 0 && t[0] == '\'' then
      var k := 1 + QuoteIndex(t[1..]);
      if 2 <= k && k + 1 < |t| && t[k + 1] == '!' then
        match MatchCell(t[k + 2..])
        case None => None
        case Some(cell) => Some(RefMatch(Some(t[1..k]), cell.0, cell.1))
      else None
    else
      match MatchCell(t)
      case None => None
      case Some(cell) => Some(RefMatch(None, cell.0, cell.1))
  }

  /** re.match with the full pattern: "$" also matches before one final newline. */
  function MatchRef(s: string): Option<RefMatch> {
    if |s| > 0 && s[|s| - 1] == '\n' then MatchBody(s[..|s| - 1]) else MatchBody(s)
  }

  /** The quoted sheet prefix printed when the sheet name is truthy. */
  function SheetPrefix(sheet: Option<string>): string {
    if sheet.Some? && sheet.value != [] then "'" + sheet.value + "'!" else ""
  }

  /** Reference.__str__ */
  function RefText(sheet: Option<string>, letters: string, row: int): string {
    SheetPrefix(sheet) + letters + IntToString(row)
  }

  /** The text a match was made from. */
  function MatchText(m: RefMatch): string {
    SheetPrefix(m.sheet) + m.letters + m.digits
  }

  lemma MatchCellSound(t: string)
    requires MatchCell(t).Some?
    ensures var c := MatchCell(t).value; t == c.0 + c.1 && c.0 != [] && AllUpper(c.0) && IsDigitString(c.1)
  {
    var n := UpperRun(t);
    UpperRunSpec(t);
    assert t == t[..n] + t[n..];
  }

  lemma {:induction false} UpperRunConcat(a: string, b: string)
    requires AllUpper(a)
    ensures UpperRun(a + b) == |a| + UpperRun(b)
  {
    if a != [] {
      assert (a + b)[0] == a[0] && IsUpper(a[0]);
      assert (a + b)[1..] == a[1..] + b;
      assert AllUpper(a[1..]) by {
        forall i | 0 <= i < |a[1..]|
          ensures IsUpper(a[1..][i])
        {
          assert a[1..][i] == a[i + 1];
        }
      }
      UpperRunConcat(a[1..], b);
    } else {
      assert a + b == b;
    }
  }

  lemma {:induction false} QuoteIndexConcat(a: string, b: string)
    requires '\'' !in a
    ensures QuoteIndex(a + b) == |a| + QuoteIndex(b)
  {
    if a != [] {
      assert (a + b)[0] == a[0] && a[0] != '\'';
      assert (a + b)[1..] == a[1..] + b;
      assert '\'' !in a[1..] by {
        assert forall x | x in a[1..] :: x in a;
      }
      QuoteIndexConcat(a[1..], b);
    } else {
      assert a + b == b;
    }
  }

  lemma MatchCellComplete(letters: string, digits: string)
    requires letters != [] && AllUpper(letters) && IsDigitString(digits)
    ensures MatchCell(letters + digits) == Some((letters, digits))
  {
    var t := letters + digits;
    UpperRunConcat(letters, digits);
    assert t[..|letters|] == letters;
    assert t[|letters|..] == digits;
  }

  /** Every match is well formed and spells out the text it was taken from. */
  lemma {:induction false} MatchBodySound(t: string)
    requires MatchBody(t).Some?
    ensures WellFormed(MatchBody(t).value) && t == MatchText(MatchBody(t).value)
  {
    if |t| > 0 && t[0] == '\'' {
      QuotedSound(t);
    } else {
      MatchCellSound(t);
    }
  }

  lemma QuotedSound(t: string)
    requires |t| > 0 && t[0] == '\'' && MatchBody(t).Some?
    ensures WellFormed(MatchBody(t).value) && t == MatchText(MatchBody(t).value)
  {
    var k := 1 + QuoteIndex(t[1..]);
    var name, rest := t[1..k], t[k + 2..];
    QuoteIndexSpec(t[1..]);
    assert name == t[1..][..k - 1];
    MatchCellSound(rest);
    QuotedSplit(t, k);
  }

  lemma QuotedSplit(t: string, k: nat)
    requires 2 <= k && k + 1 < |t| && t[0] == '\'' && t[k] == '\'' && t[k + 1] == '!'
    ensures t == "'" + t[1..k] + "'!" + t[k + 2..]
  {
  }

  /** Every well-formed group triple is matched back from its text. */
  lemma {:induction false} MatchBodyComplete(m: RefMatch)
    requires WellFormed(m)
    ensures MatchBody(MatchText(m)) == Some(m)
  {
    var t := MatchText(m);
    if m.sheet.Some? {
      var name := m.sheet.value;
      var cell := m.letters + m.digits;
      assert t == "'" + name + "'!" + cell;
      assert t[1..] == name + "'!" + cell;
      var rest := "'!" + cell;
      assert t[1..] == name + rest;
      assert rest[0] == '\'';
      QuoteIndexConcat(name, rest);
      var q := QuoteIndex(t[1..]);
      assert q == |name|;
      assert t[1 + q + 2..] == cell;
      assert t[1..1 + q] == name;
      MatchCellComplete(m.letters, m.digits);
    } else {
      assert t == m.letters + m.digits;
      assert t[0] == m.letters[0];
      MatchCellComplete(m.letters, m.digits);
    }
  }

  /** Reference.is_valid_reference on a string: the pattern matches and the row is not zero. */
  predicate IsValidReference(s: string) {
    s != [] && MatchRef(s).Some? && DigitsValue(MatchRef(s).value.digits) != 0
  }

  /** Reference(s): the parsed reference, or ValueError for an invalid one. */
  function ParseReference(s: string): (r: Result<RefValue>)
    ensures r.Ok? <==> IsValidReference(s)
    ensures r.Ok? ==> r.value.row >= 1 && r.value.letters != [] && AllUpper(r.value.letters)
                      && r.value.column == ColumnIndex(r.value.letters) && r.value.column >= 1
  {
    if !IsValidReference(s) then Err(ValueError)
    else
      var m := MatchRef(s).value;
      MatchBodySound(if |s| > 0 && s[|s| - 1] == '\n' then s[..|s| - 1] else s);
      Ok(RefValue(m.sheet, m.letters, DigitsValue(m.digits), ColumnIndex(m.letters)))
  }

  /** A reference value the parser can produce. */
  predicate IsCellValue(v: RefValue) {
    (v.sheet.Some? ==> IsSheetName(v.sheet.value)) && v.letters != [] && AllUpper(v.letters)
    && v.row >= 1 && v.column == ColumnIndex(v.letters)
  }

  /** Printing a reference and parsing the text gives the same reference. */
  lemma ParsePrinted(v: RefValue)
    requires IsCellValue(v)
    ensures ParseReference(RefText(v.sheet, v.letters, v.row)) == Ok(v)
  {
    var m := RefMatch(v.sheet, v.letters, NatToString(v.row));
    assert RefText(v.sheet, v.letters, v.row) == MatchText(m);
    MatchBodyComplete(m);
    DigitsOfNatToString(v.row);
  }

  /** Parsing a reference and printing it gives the text back, unless the row had
      leading zeros or the text ended in a newline. */
  lemma PrintParsed(s: string)
    requires IsValidReference(s) && s[|s| - 1] != '\n'
    requires IsCanonicalDigits(MatchRef(s).value.digits)
    ensures var v := ParseReference(s).value; RefText(v.sheet, v.letters, v.row) == s
  {
    MatchBodySound(s);
    NatToStringOfDigits(MatchRef(s).value.digits);
  }

  /** Reference.from_dict: rebuild the text from letter, row and sheet and parse it.
      Reading components['column_letter'] raises KeyError when the components are
      a dictionary without that key (function, range) or missing (operator,
      constant), and TypeError when they are a list (expression) or the node is
      None. */
  function FromDict(d: Node): (r: Result<RefValue>)
    ensures d.ExpressionNode? || d.NoMatch? ==> r == Err(TypeError)
    ensures d.FunctionNode? || d.RangeNode? || d.OperatorNode? || d.ConstantNode? ==> r == Err(KeyError)
  {
    match d
    case ReferenceNode(_, sheet, letter, row, _) => ParseReference(RefText(sheet, letter, row))
    case ExpressionNode(_, _) => Err(TypeError)
    case NoMatch => Err(TypeError)
    case _ => Err(KeyError)
  }

  /** Reference.to_dict for a reference value. */
  function RefToDict(v: RefValue): Node {
    ReferenceNode(RefText(v.sheet, v.letters, v.row), v.sheet, v.letters, v.row, v.column)
  }

  /** to_dict followed by from_dict gives the reference back. */
  lemma FromDictToDict(v: RefValue)
    requires IsCellValue(v)
    ensures FromDict(RefToDict(v)) == Ok(v)
  {
    ParsePrinted(v);
  }

  /** The letters of a column are alphabetic and name that column back. */
  lemma LettersNameColumn(n: nat)
    requires n >= 1
    ensures IsAlpha(ColumnLetters(n)) && ColumnOfName(ColumnLetters(n)) == n
  {
    var s := ColumnLetters(n);
    IndexOfLetters(n);
    assert forall i | 0 <= i < |s| :: IsLetter(s[i]) by {
      forall i | 0 <= i < |s| ensures IsLetter(s[i]) { assert IsUpper(s[i]); }
    }
  }

  class Reference {
    var sheetName: Option<string>
    var columnLetter: string
    var columnNumber: int
    var rowNumber: int

    /** The column number always names the column letters, and the row is positive. */
    ghost predicate Valid()
      reads this
    {
      IsAlpha(columnLetter) && columnNumber == ColumnOfName(columnLetter) && rowNumber >= 1
    }

    function Value(): RefValue
      reads this
    {
      RefValue(sheetName, columnLetter, rowNumber, columnNumber)
    }

    /** parse_cell_ref on a text that is_valid_reference accepted. */
    constructor (cellRef: string)
      requires IsValidReference(cellRef)
      ensures Valid() && Value() == ParseReference(cellRef).value
    {
      var m := MatchRef(cellRef).value;
      var v := ParseReference(cellRef).value;
      sheetName := m.sheet;
      columnLetter := m.letters;
      columnNumber := ColumnIndex(m.letters);
      rowNumber := DigitsValue(m.digits);
    }

    /** Reference.__init__: ValueError for an invalid reference. */
    static method New(cellRef: string) returns (r: Result<Reference>)
      ensures r.Ok? <==> IsValidReference(cellRef)
      ensures r.Err? ==> r.error == ValueError
      ensures r.Ok? ==> fresh(r.value) && r.value.Valid() && r.value.Value() == ParseReference(cellRef).value
    {
      if !IsValidReference(cellRef) {
        return Err(ValueError);
      }
      var ref := new Reference(cellRef);
      return Ok(ref);
    }

    /** The column_number setter: ValueError below 1, otherwise the letters follow. */
    method SetColumnNumber(value: int) returns (r: Result<()>)
      requires Valid()
      modifies this
      ensures Valid()
      ensures r.Ok? <==> value >= 1
      ensures r.Ok? ==> Value() == old(Value()).(column := value, letters := ColumnLetters(value))
      ensures r.Err? ==> r.error == ValueError
      ensures r.Err? ==> Value() == old(Value())
    {
      if value < 1 {
        return Err(ValueError);
      }
      var letters := ColumnLetters(value);
      LettersNameColumn(value);
      ghost var before := Value();
      columnNumber := value;
      columnLetter := letters;
      assert Value() == before.(column := value, letters := letters);
      return Ok(());
    }

    /** The column_letter setter: ValueError unless alphabetic, otherwise the number follows. */
    method SetColumnLetter(value: string) returns (r: Result<()>)
      requires Valid()
      modifies this
      ensures Valid()
      ensures r.Ok? <==> IsAlpha(value)
      ensures r.Ok? ==> Value() == old(Value()).(letters := value, column := ColumnOfName(value))
      ensures r.Err? ==> r.error == ValueError
      ensures r.Err? ==> Value() == old(Value())
    {
      if !IsAlpha(value) {
        return Err(ValueError);
      }
      var n := ColumnOfName(value);
      ghost var before := Value();
      columnLetter := value;
      columnNumber := n;
      assert Value() == before.(letters := value, column := n);
      return Ok(());
    }

    method UpdateColumnLetter(newLetter: string) returns (r: Result<()>)
      requires Valid()
      modifies this
      ensures Valid()
      ensures r.Ok? <==> IsAlpha(newLetter)
      ensures r.Ok? ==> Value() == old(Value()).(letters := newLetter, column := ColumnOfName(newLetter))
      ensures r.Err? ==> r.error == ValueError
      ensures r.Err? ==> Value() == old(Value())
    {
      r := SetColumnLetter(newLetter);
    }

    method UpdateColumnNumber(newNumber: int) returns (r: Result<()>)
      requires Valid()
      modifies this
      ensures Valid()
      ensures r.Ok? <==> newNumber >= 1
      ensures r.Ok? ==> Value() == old(Value()).(column := newNumber, letters := ColumnLetters(newNumber))
      ensures r.Err? ==> r.error == ValueError
      ensures r.Err? ==> Value() == old(Value())
    {
      r := SetColumnNumber(newNumber);
    }

    /** update_row_number: ValueError unless positive. */
    method UpdateRowNumber(newNumber: int) returns (r: Result<()>)
      requires Valid()
      modifies this
      ensures Valid()
      ensures r.Ok? <==> newNumber >= 1
      ensures r.Ok? ==> Value() == old(Value()).(row := newNumber)
      ensures r.Err? ==> r.error == ValueError
      ensures r.Err? ==> Value() == old(Value())
    {
      if newNumber <= 0 {
        return Err(ValueError);
      }
      ghost var before := Value();
      rowNumber := newNumber;
      assert Value() == before.(row := newNumber);
      return Ok(());
    }

    function Str(): string
      reads this
    {
      RefText(sheetName, columnLetter, rowNumber)
    }

    function ToDict(): (d: Node)
      reads this
      ensures d == RefToDict(Value())
    {
      ReferenceNode(Str(), sheetName, columnLetter, rowNumber, columnNumber)
    }
  }
}
