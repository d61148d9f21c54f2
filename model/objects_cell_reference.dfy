/** A cell reference of the Objects package (src/Objects/cell_reference.py,
    class CellReference). It reads text with the same pattern as the Models
    reference, the constructor rejects row 0, and the column number is not
    stored: it is computed from the letters on every read. */
module ObjectsCellReference {
  import opened Results
  import opened Text
  import opened Columns
  import ModelsReference

  /** The fields a CellReference holds. */
  datatype Cell = Cell(sheet: Option<string>, letters: string, row: int)

  /** to_dict: {"cell_reference": {"sheet_name", "column_letter", "row_number", "column_number"}}. */
  datatype RefDict = RefDict(sheetName: Option<string>, columnLetter: string, rowNumber: int, columnNumber: int)

  /** A cell the constructor can produce. */
  predicate IsCell(c: Cell) {
    (c.sheet.Some? ==> ModelsReference.IsSheetName(c.sheet.value)) && c.letters != [] && AllUpper(c.letters) && c.row >= 1
  }

  /** CellReference.is_valid_reference on a string: not empty, and the pattern
      (?:'([^']+)'!)?([A-Z]+)(\d+)$ matches from the start. A zero row passes. */
  predicate IsValidReference(s: string) {
    s != [] && ModelsReference.MatchRef(s).Some?
  }

  /** The match without a final newline, which "$" lets through. */
  function Body(s: string): string {
    if |s| > 0 && s[|s| - 1] == '\n' then s[..|s| - 1] else s
  }

  /** parse_cell_ref: ValueError unless the pattern matches, then ValueError
      again when the row is below 1. */
  function ParseCellRef(s: string): (r: Result<Cell>)
    ensures r.Ok? <==> IsValidReference(s) && DigitsValue(ModelsReference.MatchRef(s).value.digits) >= 1
    ensures r.Err? ==> r.error == ValueError
    ensures r.Ok? ==> IsCell(r.value)
  {
    if !IsValidReference(s) then Err(ValueError)
    else
      var m := ModelsReference.MatchRef(s).value;
      ModelsReference.MatchBodySound(Body(s));
      var row := DigitsValue(m.digits);
      if row < 1 then Err(ValueError) else Ok(Cell(m.sheet, m.letters, row))
  }

  /** The column_number property: openpyxl's column_index_from_string on the letters. */
  function CellColumn(c: Cell): (n: nat)
    requires IsAlpha(c.letters)
    ensures n >= 1 && (AllUpper(c.letters) ==> n == ColumnIndex(c.letters))
  {
    ColumnOfName(c.letters)
  }

  /** __str__: 'Sheet'!CR when there is a sheet name, CR otherwise. */
  function CellText(c: Cell): string {
    ModelsReference.RefText(c.sheet, c.letters, c.row)
  }

  /** to_dict, with the column number computed from the letters. */
  function CellDict(c: Cell): (d: RefDict)
    requires IsAlpha(c.letters)
    ensures d.columnNumber == CellColumn(c)
    ensures d.sheetName == c.sheet && d.columnLetter == c.letters && d.rowNumber == c.row
  {
    RefDict(c.sheet, c.letters, c.row, CellColumn(c))
  }

  /** The two packages accept the same references and read the same fields from
      them: the Models reference checks the row in is_valid_reference, this one
      in the constructor. */
  lemma SameAsModels(s: string)
    ensures ParseCellRef(s).Ok? <==> ModelsReference.ParseReference(s).Ok?
    ensures ParseCellRef(s).Ok? ==>
              var c := ParseCellRef(s).value;
              var v := ModelsReference.ParseReference(s).value;
              c.sheet == v.sheet && c.letters == v.letters && c.row == v.row && v.column == CellColumn(c)
  {
  }

  /** Printing a cell and reading the text back gives the same cell. */
  lemma PrintedParses(c: Cell)
    requires IsCell(c)
    ensures ParseCellRef(CellText(c)) == Ok(c)
  {
    var v := ModelsReference.RefValue(c.sheet, c.letters, c.row, ColumnIndex(c.letters));
    ModelsReference.ParsePrinted(v);
    SameAsModels(CellText(c));
  }

  /** Reading a reference and printing it gives the text back, unless the row
      had leading zeros or the text ended in a newline. */
  lemma ParsedPrints(s: string)
    requires ParseCellRef(s).Ok? && s[|s| - 1] != '\n'
    requires IsCanonicalDigits(ModelsReference.MatchRef(s).value.digits)
    ensures CellText(ParseCellRef(s).value) == s
  {
    SameAsModels(s);
    ModelsReference.PrintParsed(s);
  }

  /** str(CellReference(s)) == s for "A1", "Z999", "'Sheet1'!A1" and
      "'Sheet1'!Z999", and the rows read from "B10" and "'Sheet1'!A100". */
  lemma Examples()
    ensures ParseCellRef("A1") == Ok(Cell(None, "A", 1)) && CellText(Cell(None, "A", 1)) == "A1"
    ensures ParseCellRef("Z999") == Ok(Cell(None, "Z", 999)) && CellText(Cell(None, "Z", 999)) == "Z999"
    ensures ParseCellRef("'Sheet1'!A1") == Ok(Cell(Some("Sheet1"), "A", 1)) && CellText(Cell(Some("Sheet1"), "A", 1)) == "'Sheet1'!A1"
    ensures ParseCellRef("'Sheet1'!Z999") == Ok(Cell(Some("Sheet1"), "Z", 999))
            && CellText(Cell(Some("Sheet1"), "Z", 999)) == "'Sheet1'!Z999"
    ensures ParseCellRef("B10") == Ok(Cell(None, "B", 10))
    ensures ParseCellRef("'Sheet1'!A100") == Ok(Cell(Some("Sheet1"), "A", 100))
  {
    ExampleTexts();
    PrintedParses(Cell(None, "A", 1));
    PrintedParses(Cell(None, "Z", 999));
    PrintedParses(Cell(Some("Sheet1"), "A", 1));
    PrintedParses(Cell(Some("Sheet1"), "Z", 999));
    PrintedParses(Cell(None, "B", 10));
    PrintedParses(Cell(Some("Sheet1"), "A", 100));
  }

  lemma ExampleTexts()
    ensures CellText(Cell(None, "A", 1)) == "A1" && CellText(Cell(None, "Z", 999)) == "Z999"
    ensures CellText(Cell(Some("Sheet1"), "A", 1)) == "'Sheet1'!A1" && CellText(Cell(Some("Sheet1"), "Z", 999)) == "'Sheet1'!Z999"
    ensures CellText(Cell(None, "B", 10)) == "B10" && CellText(Cell(Some("Sheet1"), "A", 100)) == "'Sheet1'!A100"
  {
    RowTexts();
  }

  lemma RowTexts()
    ensures IntToString(1) == "1" && IntToString(10) == "10" && IntToString(100) == "100" && IntToString(999) == "999"
  {
    assert NatToString(10) == "10";
    assert NatToString(100) == NatToString(10) + "0";
    assert NatToString(99) == "99";
    assert NatToString(999) == NatToString(99) + "9";
  }

  /** The column numbers of A, B, AA and AB are 1, 2, 27 and 28. */
  lemma ColumnNumberExamples()
    ensures CellColumn(Cell(None, "A", 1)) == 1 && CellColumn(Cell(None, "B", 1)) == 2
    ensures CellColumn(Cell(None, "AA", 1)) == 27 && CellColumn(Cell(Some("Sheet1"), "AB", 1)) == 28
  {
    SingleColumn('A');
    SingleColumn('B');
    DoubleColumn('A', 'A');
    DoubleColumn('A', 'B');
    assert ['A'] == "A" && ['B'] == "B" && ['A', 'A'] == "AA" && ['A', 'B'] == "AB";
    ColumnOfUpper(Cell(None, "A", 1), 1);
    ColumnOfUpper(Cell(None, "B", 1), 2);
    ColumnOfUpper(Cell(None, "AA", 1), 27);
    ColumnOfUpper(Cell(Some("Sheet1"), "AB", 1), 28);
  }

  lemma SingleColumn(x: char)
    requires IsUpper(x)
    ensures AllUpper([x]) && ColumnIndex([x]) == LetterValue(x)
  {
    assert [x][..0] == [];
  }

  lemma DoubleColumn(x: char, y: char)
    requires IsUpper(x) && IsUpper(y)
    ensures AllUpper([x, y]) && ColumnIndex([x, y]) == LetterValue(x) * 26 + LetterValue(y)
  {
    SingleColumn(x);
    assert [x, y][..1] == [x];
  }

  /** Upper-case letters are alphabetic, and column_number reads them as they are. */
  lemma ColumnOfUpper(c: Cell, n: nat)
    requires c.letters != [] && AllUpper(c.letters) && ColumnIndex(c.letters) == n
    ensures IsAlpha(c.letters) && CellColumn(c) == n
  {
    forall i | 0 <= i < |c.letters|
      ensures IsLetter(c.letters[i])
    {
      assert IsUpper(c.letters[i]);
    }
  }

  /** "1A", "AA", "A0", "ZZZ", "'SheetOne'!A-1" and "" raise ValueError. */
  lemma RejectedReferences()
    ensures ParseCellRef("1A").Err? && ParseCellRef("AA").Err? && ParseCellRef("A0").Err?
    ensures ParseCellRef("ZZZ").Err? && ParseCellRef("'SheetOne'!A-1").Err? && ParseCellRef("").Err?
  {
    assert ModelsReference.MatchRef("1A").None?;
    assert ModelsReference.MatchRef("AA").None? by {
      assert ModelsReference.UpperRun("AA") == 2;
    }
    assert DigitsValue(ModelsReference.MatchRef("A0").value.digits) == 0 by {
      assert ModelsReference.UpperRun("A0") == 1;
    }
    assert ModelsReference.MatchRef("ZZZ").None? by {
      assert ModelsReference.UpperRun("ZZZ") == 3;
    }
    assert ModelsReference.MatchRef("'SheetOne'!A-1").None? by {
      SheetOneRejected();
    }
  }

  lemma SheetOneRejected()
    ensures ModelsReference.MatchRef("'SheetOne'!A-1").None?
  {
    SheetOneSlices();
    SheetOneQuote();
    MinusRowRejected();
    QuotedWithoutCell("'SheetOne'!A-1");
  }

  lemma MinusRowRejected()
    ensures ModelsReference.MatchCell("A-1").None?
  {
    assert ModelsReference.UpperRun("A-1") == 1;
  }

  lemma SheetOneSlices()
    ensures var t := "'SheetOne'!A-1"; |t| == 14 && t[0] == '\'' && t[13] != '\n' && t[1..] == "SheetOne'!A-1" && t[11..] == "A-1"
  {
  }

  /** A quoted sheet name followed by text that is no cell does not match. */
  lemma QuotedWithoutCell(t: string)
    requires |t| > 0 && t[0] == '\''
    requires 1 + ModelsReference.QuoteIndex(t[1..]) + 2 <= |t|
    requires ModelsReference.MatchCell(t[1 + ModelsReference.QuoteIndex(t[1..]) + 2..]).None?
    ensures ModelsReference.MatchBody(t).None?
  {
  }

  lemma SheetOneQuote()
    ensures ModelsReference.QuoteIndex("SheetOne'!A-1") == 8
  {
    assert "SheetOne'!A-1" == "SheetOne" + "'!A-1";
    ModelsReference.QuoteIndexConcat("SheetOne", "'!A-1");
  }

  /** The CellReference object. */
  class CellReference {
    var sheetName: Option<string>
    var columnLetter: string
    var rowNumber: int

    /** What the constructor establishes and the update methods keep: alphabetic
        letters and a positive row. */
    ghost predicate Valid()
      reads this
    {
      IsAlpha(columnLetter) && rowNumber >= 1
    }

    function Value(): Cell
      reads this
    {
      Cell(sheetName, columnLetter, rowNumber)
    }

    constructor (cellRef: string)
      requires ParseCellRef(cellRef).Ok?
      ensures Valid() && Value() == ParseCellRef(cellRef).value
    {
      var c := ParseCellRef(cellRef).value;
      sheetName := c.sheet;
      columnLetter := c.letters;
      rowNumber := c.row;
    }

    /** CellReference(cell_ref): ValueError for text the pattern rejects and for
        row 0. */
    static method New(cellRef: string) returns (r: Result<CellReference>)
      ensures r.Ok? <==> ParseCellRef(cellRef).Ok?
      ensures r.Err? ==> r.error == ValueError
      ensures r.Ok? ==> fresh(r.value) && r.value.Valid() && r.value.Value() == ParseCellRef(cellRef).value
    {
      if !IsValidReference(cellRef) {
        return Err(ValueError);
      }
      var m := ModelsReference.MatchRef(cellRef).value;
      ModelsReference.MatchBodySound(Body(cellRef));
      if DigitsValue(m.digits) < 1 {
        return Err(ValueError);
      }
      var c := new CellReference(cellRef);
      return Ok(c);
    }

    /** The column_number property, read from the current letters. */
    function ColumnNumber(): (n: nat)
      reads this
      requires Valid()
      ensures n == CellColumn(Value())
    {
      ColumnOfName(columnLetter)
    }

    /** update_column_letter: ValueError unless the text is alphabetic; the
        column number follows the new letters. */
    method UpdateColumnLetter(newLetter: string) returns (r: Result<()>)
      requires Valid()
      modifies this
      ensures Valid()
      ensures r.Ok? <==> IsAlpha(newLetter)
      ensures r.Ok? ==> Value() == old(Value()).(letters := newLetter) && ColumnNumber() == ColumnOfName(newLetter)
      ensures r.Err? ==> r.error == ValueError && Value() == old(Value())
    {
      if !IsAlpha(newLetter) {
        return Err(ValueError);
      }
      columnLetter := newLetter;
      return Ok(());
    }

    /** update_row_number: ValueError unless positive. */
    method UpdateRowNumber(newNumber: int) returns (r: Result<()>)
      requires Valid()
      modifies this
      ensures Valid()
      ensures r.Ok? <==> newNumber >= 1
      ensures r.Ok? ==> Value() == old(Value()).(row := newNumber)
      ensures r.Err? ==> r.error == ValueError && Value() == old(Value())
    {
      if newNumber <= 0 {
        return Err(ValueError);
      }
      rowNumber := newNumber;
      return Ok(());
    }

    function Str(): string
      reads this
    {
      CellText(Value())
    }

    function ToDict(): (d: RefDict)
      reads this
      requires Valid()
      ensures d == CellDict(Value())
    {
      RefDict(sheetName, columnLetter, rowNumber, ColumnNumber())
    }
  }

  /** CellReference("C3"), update_column_letter("D"), update_row_number(4):
      str gives "D4". */
  method UpdateExample() returns (s: string)
    ensures s == "D4"
  {
    Examples3();
    var made := CellReference.New("C3");
    var cell := made.value;
    var _ := cell.UpdateColumnLetter("D");
    var _ := cell.UpdateRowNumber(4);
    s := cell.Str();
  }

  lemma Examples3()
    ensures ParseCellRef("C3") == Ok(Cell(None, "C", 3))
    ensures CellText(Cell(None, "D", 4)) == "D4" && IsAlpha("D")
  {
    assert CellText(Cell(None, "C", 3)) == "C3" by {
      assert NatToString(3) == "3";
    }
    PrintedParses(Cell(None, "C", 3));
    assert NatToString(4) == "4";
  }
}
