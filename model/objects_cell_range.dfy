/** A range of the Objects package (src/Objects/cell_range.py, class
    CellRange): two CellReference objects, read from "start:end" text with the
    same unanchored pattern as the Models range, or given separately. */
module ObjectsCellRange {
  import opened Results
  import opened Text
  import opened Columns
  import ModelsReference
  import ModelsRange
  import opened ObjectsCellReference

  datatype CellRange = CellRange(start: Cell, end: Cell)

  /** CellRange.is_valid_range on a string: ([A-Z]+\d+):([A-Z]+\d+) matches at
      the start. */
  predicate IsValidRange(s: string) {
    ModelsRange.MatchRange(s).Some?
  }

  /** CellRange(range_str): parse_range, ValueError when the pattern does not
      match, then a CellReference for each end, which may raise ValueError
      for row 0. */
  function ParseRange(s: string): (r: Result<CellRange>)
    ensures !IsValidRange(s) ==> r == Err(ValueError)
    ensures r.Err? ==> r.error == ValueError
    ensures r.Ok? ==> IsCell(r.value.start) && IsCell(r.value.end) && r.value.start.sheet.None? && r.value.end.sheet.None?
    ensures IsValidRange(s) ==>
              var ends := ModelsRange.MatchRange(s).value;
              (r.Ok? <==> ParseCellRef(ends.0).Ok? && ParseCellRef(ends.1).Ok?)
              && (r.Ok? ==> r.value == CellRange(ParseCellRef(ends.0).value, ParseCellRef(ends.1).value))
  {
    match ModelsRange.MatchRange(s)
    case None => Err(ValueError)
    case Some(ends) =>
      var start :- ParseCellRef(ends.0);
      var end :- ParseCellRef(ends.1);
      SameAsModels(ends.0);
      SameAsModels(ends.1);
      ModelsRange.StartHasNoSheet(ends.0);
      ModelsRange.StartHasNoSheet(ends.1);
      Ok(CellRange(start, end))
  }

  /** CellRange(start_ref, end_ref): each reference read on its own. */
  function FromReferences(startRef: string, endRef: string): (r: Result<CellRange>)
    ensures r.Ok? <==> ParseCellRef(startRef).Ok? && ParseCellRef(endRef).Ok?
    ensures r.Err? ==> r.error == ValueError
    ensures r.Ok? ==> r.value == CellRange(ParseCellRef(startRef).value, ParseCellRef(endRef).value)
  {
    var start :- ParseCellRef(startRef);
    var end :- ParseCellRef(endRef);
    Ok(CellRange(start, end))
  }

  /** CellRange.__init__: one argument is range text, two are references. */
  function New(startRef: string, endRef: Option<string>): (r: Result<CellRange>)
    ensures endRef.None? ==> r == ParseRange(startRef)
    ensures endRef.Some? ==> r == FromReferences(startRef, endRef.value)
  {
    if endRef.None? then ParseRange(startRef) else FromReferences(startRef, endRef.value)
  }

  /** CellRange.__str__ */
  function Str(r: CellRange): string {
    CellText(r.start) + ":" + CellText(r.end)
  }

  /** The Models reference value a cell stands for. */
  function AsValue(c: Cell): (v: ModelsReference.RefValue)
    requires IsCell(c)
    ensures ModelsReference.IsCellValue(v)
  {
    ModelsReference.RefValue(c.sheet, c.letters, c.row, ColumnIndex(c.letters))
  }

  /** The Objects and Models ranges accept the same text and read the same
      corners from it. */
  lemma SameAsModelsRange(s: string)
    ensures ParseRange(s).Ok? <==> ModelsRange.ParseRange(s).Ok?
    ensures ParseRange(s).Ok? ==> ModelsRange.ParseRange(s).value
                                  == ModelsRange.CellRange(AsValue(ParseRange(s).value.start), AsValue(ParseRange(s).value.end))
  {
    match ModelsRange.MatchRange(s)
    case None =>
    case Some(ends) =>
      SameAsModels(ends.0);
      SameAsModels(ends.1);
  }

  /** Printing a range of sheet-less cells and reading the text back gives
      the same range, also when text not starting with a digit follows. */
  lemma PrintedRangeParses(r: CellRange, tail: string)
    requires IsCell(r.start) && IsCell(r.end) && r.start.sheet.None? && r.end.sheet.None?
    requires tail == [] || !IsDigit(tail[0])
    ensures ParseRange(Str(r) + tail) == Ok(r)
  {
    var m := ModelsRange.CellRange(AsValue(r.start), AsValue(r.end));
    ModelsRange.ParsePrintedRange(m, tail);
    assert ModelsRange.Str(m) == Str(r);
    SameAsModelsRange(Str(r) + tail);
  }

  /** CellRange('A1:C3') and CellRange('A1', 'C3') both hold A1 and C3, and
      CellRange('A1', 'B2') prints as 'A1:B2'. */
  lemma Examples()
    ensures ParseRange("A1:C3") == Ok(CellRange(Cell(None, "A", 1), Cell(None, "C", 3)))
    ensures FromReferences("A1", "C3") == Ok(CellRange(Cell(None, "A", 1), Cell(None, "C", 3)))
    ensures FromReferences("A1", "B2").Ok? && Str(FromReferences("A1", "B2").value) == "A1:B2"
  {
    var a1 := Cell(None, "A", 1);
    var c3 := Cell(None, "C", 3);
    var b2 := Cell(None, "B", 2);
    CornerTexts();
    PrintedParses(a1);
    PrintedParses(c3);
    PrintedParses(b2);
    PrintedRangeParses(CellRange(a1, c3), []);
    RangeLiteral();
  }

  lemma CornerTexts()
    ensures CellText(Cell(None, "A", 1)) == "A1" && CellText(Cell(None, "C", 3)) == "C3" && CellText(Cell(None, "B", 2)) == "B2"
  {
    assert IntToString(1) == "1" && IntToString(3) == "3" && IntToString(2) == "2";
  }

  lemma RangeLiteral()
    ensures "A1" + ":" + "C3" + [] == "A1:C3" && "A1" + ":" + "B2" == "A1:B2"
  {
  }

  /** 'A1C3', 'A1:', ':A1', '1A:C3' and 'A1:3C' raise ValueError. */
  lemma RejectedRanges()
    ensures ParseRange("A1C3").Err? && ParseRange("A1:").Err? && ParseRange(":A1").Err?
    ensures ParseRange("1A:C3").Err? && ParseRange("A1:3C").Err?
  {
    NoColon();
    NoEnd();
    NoStart();
    DigitFirst();
  }

  lemma CellA1(tail: string)
    requires tail == [] || !IsDigit(tail[0])
    ensures ModelsRange.CellPrefix("A1" + tail) == 2
  {
    assert AllUpper("A") && IsDigitString("1");
    assert "A" + "1" + tail == "A1" + tail;
    ModelsRange.CellPrefixOf("A", "1", tail);
  }

  lemma NoColon()
    ensures !IsValidRange("A1C3")
  {
    assert "A1C3" == "A1" + "C3";
    CellA1("C3");
  }

  lemma NoEnd()
    ensures !IsValidRange("A1:")
  {
    assert "A1:" == "A1" + ":";
    CellA1(":");
    assert "A1:"[3..] == [];
  }

  lemma NoStart()
    ensures !IsValidRange(":A1")
  {
    assert ModelsReference.UpperRun(":A1") == 0;
  }

  lemma DigitFirst()
    ensures !IsValidRange("1A:C3") && !IsValidRange("A1:3C")
  {
    assert ModelsReference.UpperRun("1A:C3") == 0;
    assert "A1:3C" == "A1" + ":3C";
    CellA1(":3C");
    assert "A1:3C"[3..] == "3C";
    assert ModelsReference.UpperRun("3C") == 0;
  }
}
