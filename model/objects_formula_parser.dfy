/** The formula parser of the Objects package (src/Objects/formula_parser.py,
    class FormulaParser). Text is stripped and offered to the function, range,
    reference and constant recognisers in that order. The function branch
    calls parse_arguments without its argument, and the constant check raises
    instead of answering False, so every parse that succeeds is a range, a
    reference or a constant: the expression, operator and "Unknown Value"
    branches after it are never reached from text.

    ExcelFunction.is_function_string, which the dispatch calls first, is not
    defined by ExcelFunction; it is the parameter isFunctionString here. */
module ObjectsFormulaParser {
  import opened Results
  import opened Text
  import ModelsReference
  import ModelsRange
  import DictKeys
  import ObjectsExcelFunction
  import opened ObjectsCellReference
  import opened ObjectsCellRange
  import opened ObjectsConstant

  /** The dictionaries parse_expression builds and reconstruct reads. */
  datatype ONode =
    | FunctionDict(name: string, arguments: seq<ONode>)
    | RangeDict(start: RefDict, end: RefDict)
    | ReferenceDict(ref: RefDict)
    | ConstantDict(constant: string)
    | ExpressionDict(expression: seq<ONode>)
    | OperatorDict(operator: string)
    | UnknownValue(value: string)

  /** parse_expression on a string. A function string fails in ExcelFunction
      with ValueError when it is no call, and otherwise in parse_arguments(),
      which is missing its argument, with TypeError. A range or a reference
      becomes its dictionary, or fails with ValueError for row 0, and
      anything else must be all digits or fail with ValueError. */
  function ParseExpression(isFunctionString: string -> bool, expr: string): (r: Result<ONode>)
    ensures r.Ok? ==> r.value.RangeDict? || r.value.ReferenceDict? || r.value.ConstantDict?
    ensures r.Err? ==> r.error == ValueError || r.error == TypeError
    ensures r == Err(TypeError) <==> isFunctionString(Strip(expr)) && ObjectsExcelFunction.New(Strip(expr)).Ok?
    ensures isFunctionString(Strip(expr)) ==> r.Err?
    ensures r.Ok? && r.value.ConstantDict? ==> IsDigitString(Strip(expr)) && r.value.constant == Strip(expr)
  {
    var t := Strip(expr);
    if isFunctionString(t) then
      if ObjectsExcelFunction.New(t).Err? then Err(ValueError) else Err(TypeError)
    else if IsValidRange(t) then
      var rg :- ParseRange(t);
      Ok(RangeDict(CellDict(rg.start), CellDict(rg.end)))
    else if ObjectsCellReference.IsValidReference(t) then
      var c :- ParseCellRef(t);
      Ok(ReferenceDict(CellDict(c)))
    else if IsValidConstant(t).Err? then Err(ValueError)
    else Ok(ConstantDict(t))
  }

  // ---------------------------------------------------------------------------
  // reconstruct

  /** A tree reconstruct can print: no range and no "Unknown Value" anywhere,
      since reconstruct has no case for them. */
  predicate Printable(n: ONode)
    decreases n
  {
    match n
    case FunctionDict(_, args) => forall i :: 0 <= i < |args| ==> Printable(args[i])
    case ExpressionDict(parts) => forall i :: 0 <= i < |parts| ==> Printable(parts[i])
    case RangeDict(_, _) => false
    case UnknownValue(_) => false
    case _ => true
  }

  /** FormulaParser.reconstruct(json_obj): name(arguments joined by ", "),
      'Sheet'!CR or CR, a parenthesised space-joined expression, the operator,
      and str() of a constant. A range or an "Unknown Value" falls through to
      json_obj['value'], which raises KeyError. */
  function Reconstruct(n: ONode): (r: Result<string>)
    ensures r.Ok? <==> Printable(n)
    ensures r.Err? ==> r.error == KeyError
    decreases n, 1
  {
    match n
    case FunctionDict(name, args) =>
      var texts :- ReconstructAll(args);
      Ok(name + "(" + Join(texts, ", ") + ")")
    case ReferenceDict(d) => Ok(ModelsReference.RefText(d.sheetName, d.columnLetter, d.rowNumber))
    case ExpressionDict(parts) =>
      var texts :- ReconstructAll(parts);
      Ok("(" + Join(texts, " ") + ")")
    case OperatorDict(op) => Ok(op)
    case ConstantDict(v) => Ok(v)
    case RangeDict(_, _) => Err(KeyError)
    case UnknownValue(_) => Err(KeyError)
  }

  /** reconstruct applied to each node of a list, in order. */
  function ReconstructAll(ns: seq<ONode>): (r: Result<seq<string>>)
    ensures r.Ok? <==> forall i :: 0 <= i < |ns| ==> Printable(ns[i])
    ensures r.Ok? ==> |r.value| == |ns|
    ensures r.Err? ==> r.error == KeyError
    decreases ns, 0
  {
    if ns == [] then Ok([])
    else
      var front := ns[..|ns| - 1];
      assert forall i :: 0 <= i < |front| ==> front[i] == ns[i];
      var init :- ReconstructAll(front);
      var last :- Reconstruct(ns[|ns| - 1]);
      Ok(init + [last])
  }

  // ---------------------------------------------------------------------------
  // Round trips

  /** Printed cell text is its own strip and no range. */
  lemma CellTextShape(c: Cell)
    requires IsCell(c)
    ensures Strip(CellText(c)) == CellText(c) && !IsValidRange(CellText(c))
  {
    var d := NatToString(c.row);
    var t := CellText(c);
    assert t == ModelsReference.SheetPrefix(c.sheet) + c.letters + d;
    assert t[|t| - 1] == d[|d| - 1];
    if c.sheet.Some? {
      SheetTextShape(t);
    } else {
      PlainTextShape(t, c.letters, d);
    }
    StripTrimmed(t);
  }

  lemma SheetTextShape(t: string)
    requires t != [] && t[0] == '\''
    ensures !IsSpace(t[0]) && !IsValidRange(t)
  {
    assert ModelsReference.UpperRun(t) == 0;
  }

  lemma PlainTextShape(t: string, letters: string, d: string)
    requires letters != [] && AllUpper(letters) && IsDigitString(d) && t == letters + d
    ensures !IsSpace(t[0]) && !IsValidRange(t)
  {
    assert t == letters + d + [];
    ModelsRange.CellPrefixOf(letters, d, []);
    assert t[0] == letters[0];
  }

  /** A reference's text parses to its dictionary, and reconstruct prints the
      same text again. */
  lemma ReferenceRoundTrip(isFunctionString: string -> bool, c: Cell)
    requires IsCell(c) && !isFunctionString(CellText(c))
    ensures ParseExpression(isFunctionString, CellText(c)) == Ok(ReferenceDict(CellDict(c)))
    ensures Reconstruct(ReferenceDict(CellDict(c))) == Ok(CellText(c))
  {
    var t := CellText(c);
    CellTextShape(c);
    PrintedParses(c);
    ReferenceBranch(isFunctionString, t, c);
  }

  /** Text that is no function string and no range, and reads as a cell,
      becomes that cell's dictionary. */
  lemma ReferenceBranch(isFunctionString: string -> bool, t: string, c: Cell)
    requires Strip(t) == t && !isFunctionString(t) && !IsValidRange(t) && ParseCellRef(t) == Ok(c)
    ensures ParseExpression(isFunctionString, t) == Ok(ReferenceDict(CellDict(c)))
  {
  }

  /** Text that is no function string and reads as a range becomes the
      dictionary of its two ends. */
  lemma RangeBranch(isFunctionString: string -> bool, t: string, rg: CellRange)
    requires Strip(t) == t && !isFunctionString(t) && ParseRange(t) == Ok(rg)
    ensures ParseExpression(isFunctionString, t) == Ok(RangeDict(CellDict(rg.start), CellDict(rg.end)))
  {
  }

  /** Digits parse to a constant holding the same text, which reconstruct
      prints unchanged. */
  lemma ConstantRoundTrip(isFunctionString: string -> bool, t: string)
    requires IsDigitString(t) && !isFunctionString(t)
    ensures ParseExpression(isFunctionString, t) == Ok(ConstantDict(t))
    ensures Reconstruct(ConstantDict(t)) == Ok(t)
  {
    StripTrimmed(t);
    assert ModelsReference.UpperRun(t) == 0;
    assert ModelsReference.MatchRef(t) == None;
  }

  /** A range parses to nested reference dictionaries, but reconstruct has no
      case for it and raises KeyError. */
  lemma RangeKeyError(isFunctionString: string -> bool, rg: CellRange)
    requires IsCell(rg.start) && IsCell(rg.end) && rg.start.sheet.None? && rg.end.sheet.None?
    requires !isFunctionString(ObjectsCellRange.Str(rg))
    ensures ParseExpression(isFunctionString, ObjectsCellRange.Str(rg)) == Ok(RangeDict(CellDict(rg.start), CellDict(rg.end)))
    ensures Reconstruct(RangeDict(CellDict(rg.start), CellDict(rg.end))) == Err(KeyError)
  {
    var t := ObjectsCellRange.Str(rg);
    RangeTextTrimmed(rg);
    PrintedRangeParses(rg, []);
    assert t + [] == t;
    RangeBranch(isFunctionString, t, rg);
  }

  lemma RangeTextTrimmed(rg: CellRange)
    requires IsCell(rg.start) && IsCell(rg.end) && rg.start.sheet.None? && rg.end.sheet.None?
    ensures Strip(ObjectsCellRange.Str(rg)) == ObjectsCellRange.Str(rg)
  {
    var t := ObjectsCellRange.Str(rg);
    var d := NatToString(rg.end.row);
    assert t == CellText(rg.start) + ":" + rg.end.letters + d;
    assert t[0] == CellText(rg.start)[0] == rg.start.letters[0];
    assert t[|t| - 1] == d[|d| - 1];
    StripTrimmed(t);
  }

  /** "A1 + B1" is no range, no reference and no constant, so parsing it
      raises ValueError instead of reaching the expression branch. */
  lemma SumTextRejected(isFunctionString: string -> bool)
    requires !isFunctionString("A1 + B1")
    ensures ParseExpression(isFunctionString, "A1 + B1") == Err(ValueError)
  {
    StripTrimmed("A1 + B1");
    SumTextNoRange();
    SumTextNoReference();
    assert !IsDigit("A1 + B1"[0]);
  }

  lemma SumTextNoRange()
    ensures !IsValidRange("A1 + B1")
  {
    assert "A1 + B1" == "A" + "1" + " + B1";
    ModelsRange.CellPrefixOf("A", "1", " + B1");
    assert "A1 + B1"[2] == ' ';
  }

  lemma SumTextNoReference()
    ensures !ObjectsCellReference.IsValidReference("A1 + B1")
  {
    var t := "A1 + B1";
    assert t == "A" + "1 + B1";
    ModelsReference.UpperRunConcat("A", "1 + B1");
    assert t[1..] == "1 + B1";
    assert "1 + B1"[1] == ' ';
    assert ModelsReference.MatchCell(t) == None;
  }

  // ---------------------------------------------------------------------------
  // get_all_keys_with_counts

  /** The keys the traversal counts. */
  const AcceptableKeys: set<string> :=
    {"function", "arguments", "expression", "cell_range", "cell_reference", "constant", "operator", "Unknown Value"}

  const ReferenceFields: seq<string> := ["sheet_name", "column_letter", "row_number", "column_number"]

  /** One key with a scalar value. */
  function Leaf(key: string): DictKeys.Value {
    DictKeys.Dict([DictKeys.Entry(key, DictKeys.Scalar)])
  }

  /** A reference dictionary: "cell_reference" holding the four fields. */
  function ReferenceValue(): DictKeys.Value {
    DictKeys.Dict([DictKeys.Entry("cell_reference", DictKeys.Dict(DictKeys.Flat(ReferenceFields)))])
  }

  /** The shape of a node as the key traversal sees it. */
  function ToValue(n: ONode): (v: DictKeys.Value)
    ensures v.Dict?
    decreases n, 1
  {
    match n
    case FunctionDict(_, args) =>
      DictKeys.Dict([DictKeys.Entry("function", DictKeys.Scalar), DictKeys.Entry("arguments", DictKeys.List(ToValues(args)))])
    case RangeDict(_, _) =>
      DictKeys.Dict([DictKeys.Entry("cell_range", DictKeys.Dict([DictKeys.Entry("start", ReferenceValue()),
                                                                  DictKeys.Entry("end", ReferenceValue())]))])
    case ReferenceDict(_) => ReferenceValue()
    case ConstantDict(_) => Leaf("constant")
    case ExpressionDict(parts) => DictKeys.Dict([DictKeys.Entry("expression", DictKeys.List(ToValues(parts)))])
    case OperatorDict(_) => Leaf("operator")
    case UnknownValue(_) => Leaf("Unknown Value")
  }

  function ToValues(ns: seq<ONode>): (vs: seq<DictKeys.Value>)
    ensures |vs| == |ns|
    decreases ns, 0
  {
    if ns == [] then [] else ToValues(ns[..|ns| - 1]) + [ToValue(ns[|ns| - 1])]
  }

  /** FormulaParser.get_all_keys_with_counts(d, keys_count): every acceptable
      key met in the tree is added to keys_count, which starts empty when
      none is given. */
  method GetAllKeysWithCounts(d: ONode, keysCount: Option<map<string, int>>) returns (counts: map<string, int>)
    ensures counts == DictKeys.KeyCounts(if keysCount.Some? then keysCount.value else map[], AcceptableKeys, DictKeys.Keys(ToValue(d)))
  {
    var r := DictKeys.CountAll(ToValue(d), keysCount, AcceptableKeys);
    counts := r.value;
  }

  lemma SingleEntryKeys(e: DictKeys.Entry)
    ensures DictKeys.Keys(DictKeys.Dict([e])) == multiset{e.key} + DictKeys.Keys(e.value)
  {
    assert [e][..0] == [];
    assert DictKeys.EntryKeys([]) == multiset{};
    assert DictKeys.EntryKeys([e]) == DictKeys.EntryKeys([]) + multiset{e.key} + DictKeys.Keys(e.value);
  }

  lemma ReferenceValueKeys()
    ensures DictKeys.Keys(ReferenceValue()) == multiset{"cell_reference"} + multiset(ReferenceFields)
  {
    SingleEntryKeys(DictKeys.Entry("cell_reference", DictKeys.Dict(DictKeys.Flat(ReferenceFields))));
    DictKeys.FlatKeys(ReferenceFields);
  }

  /** A reference dictionary counts one "cell_reference"; its fields are not
      acceptable keys. */
  lemma ReferenceCounts(d: RefDict)
    ensures DictKeys.KeyCounts(map[], AcceptableKeys, DictKeys.Keys(ToValue(ReferenceDict(d)))) == map["cell_reference" := 1]
  {
    assert ToValue(ReferenceDict(d)) == ReferenceValue();
    ReferenceValueKeys();
    ReferenceFound();
  }

  lemma ReferenceFound()
    ensures DictKeys.KeyCounts(map[], AcceptableKeys, multiset{"cell_reference"} + multiset(ReferenceFields)) == map["cell_reference" := 1]
  {
    var found := multiset{"cell_reference"} + multiset(ReferenceFields);
    FieldsNotAcceptable();
    var m := DictKeys.KeyCounts(map[], AcceptableKeys, found);
    assert m.Keys == {"cell_reference"};
  }

  lemma FieldsNotAcceptable()
    ensures forall k :: k in ReferenceFields ==> k !in AcceptableKeys
    ensures "cell_reference" !in ReferenceFields
  {
  }

  /** A range dictionary counts one "cell_range" and the "cell_reference" of
      each end. */
  lemma RangeCounts(a: RefDict, b: RefDict)
    ensures DictKeys.KeyCounts(map[], AcceptableKeys, DictKeys.Keys(ToValue(RangeDict(a, b))))
            == map["cell_range" := 1, "cell_reference" := 2]
  {
    var r := multiset{"cell_reference"} + multiset(ReferenceFields);
    RangeKeys(a, b);
    RangeFound(r);
  }

  lemma RangeKeys(a: RefDict, b: RefDict)
    ensures var r := multiset{"cell_reference"} + multiset(ReferenceFields);
            DictKeys.Keys(ToValue(RangeDict(a, b))) == multiset{"cell_range"} + (multiset{"start"} + r + multiset{"end"} + r)
  {
    var s := DictKeys.Entry("start", ReferenceValue());
    var e := DictKeys.Entry("end", ReferenceValue());
    SingleEntryKeys(DictKeys.Entry("cell_range", DictKeys.Dict([s, e])));
    DictKeys.PairKeys(s, e);
    ReferenceValueKeys();
  }

  lemma RangeFound(r: multiset<string>)
    requires r == multiset{"cell_reference"} + multiset(ReferenceFields)
    ensures DictKeys.KeyCounts(map[], AcceptableKeys, multiset{"cell_range"} + (multiset{"start"} + r + multiset{"end"} + r))
            == map["cell_range" := 1, "cell_reference" := 2]
  {
    var found := multiset{"cell_range"} + (multiset{"start"} + r + multiset{"end"} + r);
    RangeFoundCounts(r, found);
    var m := DictKeys.KeyCounts(map[], AcceptableKeys, found);
    assert m.Keys == {"cell_range", "cell_reference"};
  }

  lemma RangeFoundCounts(r: multiset<string>, found: multiset<string>)
    requires r == multiset{"cell_reference"} + multiset(ReferenceFields)
    requires found == multiset{"cell_range"} + (multiset{"start"} + r + multiset{"end"} + r)
    ensures found["cell_range"] == 1 && found["cell_reference"] == 2
    ensures forall k :: k in AcceptableKeys && k != "cell_range" && k != "cell_reference" ==> found[k] == 0
  {
    FieldsNotAcceptable();
  }

  /** A constant counts one "constant", an "Unknown Value" one "Unknown Value". */
  lemma LeafCounts(key: string)
    requires key in AcceptableKeys
    ensures DictKeys.KeyCounts(map[], AcceptableKeys, DictKeys.Keys(Leaf(key))) == map[key := 1]
  {
    SingleEntryKeys(DictKeys.Entry(key, DictKeys.Scalar));
    var m := DictKeys.KeyCounts(map[], AcceptableKeys, multiset{key});
    assert m.Keys == {key};
  }

  /** The counts of a successful parse never hold "Unknown Value", "function"
      or "expression". */
  lemma ParsedCounts(isFunctionString: string -> bool, expr: string)
    requires ParseExpression(isFunctionString, expr).Ok?
    ensures var counts := DictKeys.KeyCounts(map[], AcceptableKeys, DictKeys.Keys(ToValue(ParseExpression(isFunctionString, expr).value)));
            "Unknown Value" !in counts && "function" !in counts && "expression" !in counts
  {
    match ParseExpression(isFunctionString, expr).value
    case RangeDict(a, b) => RangeCounts(a, b);
    case ReferenceDict(d) => ReferenceCounts(d);
    case ConstantDict(_) => LeafCounts("constant");
  }

  // ---------------------------------------------------------------------------
  // The FormulaParser object

  class FormulaParser {
    var formula: string
    var fullFormula: string

    /** What the constructor checked: the text starts with "=", and formula is
        the text after it. */
    ghost predicate Valid()
      reads this
    {
      fullFormula != [] && fullFormula[0] == '=' && formula == fullFormula[1..]
    }

    constructor (formulaStr: string)
      requires formulaStr != [] && formulaStr[0] == '='
      ensures Valid() && fullFormula == formulaStr
    {
      formula := formulaStr[1..];
      fullFormula := formulaStr;
    }

    /** FormulaParser.__init__: ValueError without the leading "=". Nothing
        else is checked and nothing is parsed. */
    static method New(formulaStr: string) returns (r: Result<FormulaParser>)
      ensures r.Ok? <==> formulaStr != [] && formulaStr[0] == '='
      ensures r.Err? ==> r.error == ValueError
      ensures r.Ok? ==> fresh(r.value) && r.value.Valid() && r.value.fullFormula == formulaStr
    {
      if formulaStr == [] || formulaStr[0] != '=' {
        return Err(ValueError);
      }
      var p := new FormulaParser(formulaStr);
      return Ok(p);
    }

    /** reconstructed_formula: "=" and reconstruct() of a fresh parse; the
        parse's error, or KeyError for a range, propagates. */
    function ReconstructedFormula(isFunctionString: string -> bool): (r: Result<string>)
      reads this
      ensures r.Ok? <==> ParseExpression(isFunctionString, formula).Ok? && Printable(ParseExpression(isFunctionString, formula).value)
      ensures r.Ok? ==> r.value == "=" + Reconstruct(ParseExpression(isFunctionString, formula).value).value
    {
      var tree :- ParseExpression(isFunctionString, formula);
      var text :- Reconstruct(tree);
      Ok("=" + text)
    }
  }

  /** A parser made from "=" and a reference reconstructs its own text. */
  lemma ReconstructedReference(p: FormulaParser, isFunctionString: string -> bool, c: Cell)
    requires p.Valid() && IsCell(c) && p.formula == CellText(c) && !isFunctionString(CellText(c))
    ensures p.ReconstructedFormula(isFunctionString) == Ok(p.fullFormula)
  {
    ReferenceRoundTrip(isFunctionString, c);
    assert p.ReconstructedFormula(isFunctionString) == Ok("=" + p.formula);
    FirstThenRest(p.fullFormula);
  }

  lemma FirstThenRest(s: string)
    requires s != [] && s[0] == '='
    ensures "=" + s[1..] == s
  {
    assert s == [s[0]] + s[1..];
  }
}
