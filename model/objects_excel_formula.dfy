/** The formula object of the Objects package (src/Objects/excel_formula.py,
    class ExcelFormula). Text after the "=" is stripped and offered to the
    function, operator, range and reference checks in that order; anything
    else is kept as a constant, so only a failing constructor can make a
    parse fail. Text with an operator is cut at every + - * / and each piece
    becomes an operator, a number or a reference.

    ExcelFunction.is_function_string, which the dispatch calls first, is not
    defined by ExcelFunction; it is the parameter isFunctionString here. */
module ObjectsExcelFormula {
  import opened Results
  import opened Text
  import ObjectsExpression
  import ObjectsExcelFunction
  import opened ObjectsCellReference
  import ObjectsCellRange
  import ModelsRange
  import ModelsReference

  /** The dictionaries parse_expression builds. Ranges and references hold
      the str() of the object made from the text. */
  datatype XNode =
    | XFunction(name: string, arguments: seq<XNode>)
    | XExpression(expression: seq<XNode>)
    | XRange(range: string)
    | XReference(reference: string)
    | XConstant(constant: string)
    | XOperator(operator: string)

  // ---------------------------------------------------------------------------
  // parse_operators

  /** The pieces parse_operators throws away before stripping. */
  predicate Dropped(p: string) {
    p == "" || p == " " || p == "(" || p == ")"
  }

  /** [part for part in parts if part not in ['', ' ', '(', ')']] */
  function Kept(parts: seq<string>): (r: seq<string>)
    ensures |r| <= |parts|
    ensures forall i :: 0 <= i < |r| ==> !Dropped(r[i]) && r[i] in parts
  {
    if parts == [] then []
    else
      var p := parts[|parts| - 1];
      Kept(parts[..|parts| - 1]) + (if Dropped(p) then [] else [p])
  }

  /** One piece, stripped: an operator, a run of digits (re.match(r"^\d+$")),
      or the str() of a CellReference, whose constructor raises ValueError for
      anything else. */
  function PartNode(part: string): (r: Result<XNode>)
    ensures r.Err? ==> r.error == ValueError
    ensures r.Ok? ==> !r.value.XExpression? && !r.value.XFunction? && !r.value.XRange?
    ensures r.Ok? && r.value.XOperator? <==> ObjectsExpression.IsOperatorPart(Strip(part))
    ensures r.Ok? && r.value.XConstant? ==> IsDigitString(r.value.constant)
    ensures r.Ok? <==> ObjectsExpression.IsOperatorPart(Strip(part)) || IsDigitString(Strip(part)) || ParseCellRef(Strip(part)).Ok?
    ensures IsDigitString(Strip(part)) ==> r == Ok(XConstant(Strip(part)))
  {
    var p := Strip(part);
    if ObjectsExpression.IsOperatorPart(p) then Ok(XOperator(p))
    else if IsDigitString(p) then
      assert !ObjectsExpression.IsOperatorChar(p[0]);
      Ok(XConstant(p))
    else
      var c :- ParseCellRef(p);
      Ok(XReference(CellText(c)))
  }

  /** The pieces turned into nodes, in order; one failing piece fails all. */
  function PartNodes(parts: seq<string>): (r: Result<seq<XNode>>)
    ensures r.Err? ==> r.error == ValueError
    ensures r.Ok? ==> |r.value| == |parts|
  {
    PartNodesErrors(parts);
    Collect(PartNode, parts)
  }

  /** f applied to each piece in order, stopping at the first error. */
  function Collect(f: string -> Result<XNode>, parts: seq<string>): (r: Result<seq<XNode>>)
    ensures r.Ok? ==> |r.value| == |parts|
  {
    if parts == [] then Ok([])
    else
      var ns :- Collect(f, parts[..|parts| - 1]);
      var last :- f(parts[|parts| - 1]);
      Ok(ns + [last])
  }

  /** Every error of a piece is a ValueError, so the collection's is too. */
  lemma {:induction false} PartNodesErrors(parts: seq<string>)
    ensures Collect(PartNode, parts).Err? ==> Collect(PartNode, parts).error == ValueError
  {
    if parts != [] {
      PartNodesErrors(parts[..|parts| - 1]);
    }
  }

  /** What parse_operators returns for a text. */
  function Operators(expr: string): Result<seq<XNode>> {
    PartNodes(Kept(ObjectsExpression.SplitKeep(expr)))
  }

  /** ExcelFormula.parse_operators: split keeping the operators, drop the
      empty, blank and bracket pieces, and turn each remaining piece into a
      node, appending as it goes. */
  method ParseOperators(expr: string) returns (r: Result<seq<XNode>>)
    ensures r == Operators(expr)
  {
    var parts := Kept(ObjectsExpression.SplitKeep(expr));
    var processed: seq<XNode> := [];
    for i := 0 to |parts|
      invariant PartNodes(parts[..i]) == Ok(processed)
    {
      assert parts[..i + 1] == parts[..i] + [parts[i]];
      var node := PartNode(parts[i]);
      if node.Err? {
        CollectStops(PartNode, parts[..i], parts[i]);
        PrefixFails(PartNode, parts, i + 1);
        return Err(ValueError);
      }
      CollectSnoc(PartNode, parts[..i], parts[i], processed, node.value);
      processed := processed + [node.value];
    }
    assert parts[..|parts|] == parts;
    return Ok(processed);
  }

  /** A failing prefix fails the whole list: the first failing piece stops
      the loop. */
  lemma {:induction false} PrefixFails(f: string -> Result<XNode>, parts: seq<string>, k: nat)
    requires k <= |parts| && Collect(f, parts[..k]).Err?
    ensures Collect(f, parts).Err?
  {
    if k == |parts| {
      assert parts[..k] == parts;
    } else {
      var init := parts[..|parts| - 1];
      assert init[..k] == parts[..k];
      PrefixFails(f, init, k);
    }
  }

  lemma CollectOne(f: string -> Result<XNode>, a: string, x: XNode)
    requires f(a) == Ok(x)
    ensures Collect(f, [a]) == Ok([x])
  {
    assert Collect(f, []) == Ok([]);
    CollectSnoc(f, [], a, [], x);
    assert [] + [a] == [a] && [] + [x] == [x];
  }

  lemma CollectSnoc(f: string -> Result<XNode>, parts: seq<string>, p: string, xs: seq<XNode>, x: XNode)
    requires Collect(f, parts) == Ok(xs) && f(p) == Ok(x)
    ensures Collect(f, parts + [p]) == Ok(xs + [x])
  {
    assert (parts + [p])[..|parts|] == parts;
  }

  lemma CollectStops(f: string -> Result<XNode>, parts: seq<string>, p: string)
    requires f(p).Err?
    ensures Collect(f, parts + [p]).Err?
  {
    assert (parts + [p])[..|parts|] == parts;
  }

  /** The operators of a list of nodes, in order. */
  function OperatorTexts(ns: seq<XNode>): seq<string> {
    if ns == [] then []
    else
      var n := ns[|ns| - 1];
      OperatorTexts(ns[..|ns| - 1]) + (if n.XOperator? then [n.operator] else [])
  }

  /** Dropping pieces keeps every operator piece. */
  lemma {:induction false} KeptOperators(parts: seq<string>)
    requires forall i :: 0 <= i < |parts| ==> ObjectsExpression.IsOperatorPart(parts[i]) || ObjectsExpression.NoOperator(parts[i])
    ensures forall i :: 0 <= i < |Kept(parts)| ==> ObjectsExpression.IsOperatorPart(Kept(parts)[i]) || ObjectsExpression.NoOperator(Kept(parts)[i])
    ensures ObjectsExpression.OperatorParts(Kept(parts)) == ObjectsExpression.OperatorParts(parts)
  {
    if parts != [] {
      var init := parts[..|parts| - 1];
      var p := parts[|parts| - 1];
      KeptOperators(init);
      ObjectsExpression.OperatorPartsSnoc(init, p);
      assert parts == init + [p];
      if Dropped(p) {
        assert Kept(parts) == Kept(init);
        assert !ObjectsExpression.IsOperatorPart(p);
      } else {
        assert Kept(parts) == Kept(init) + [p];
        ObjectsExpression.OperatorPartsSnoc(Kept(init), p);
      }
    }
  }

  /** Each operator piece becomes an operator node holding it, and no other
      piece becomes an operator node. */
  lemma {:induction false} NodesKeepOperators(parts: seq<string>)
    requires forall i :: 0 <= i < |parts| ==> ObjectsExpression.IsOperatorPart(parts[i]) || ObjectsExpression.NoOperator(parts[i])
    requires PartNodes(parts).Ok?
    ensures OperatorTexts(PartNodes(parts).value) == ObjectsExpression.OperatorParts(parts)
  {
    if parts != [] {
      var init := parts[..|parts| - 1];
      var p := parts[|parts| - 1];
      assert parts == init + [p];
      CollectOkParts(PartNode, init, p);
      NodesKeepOperators(init);
      var xs, x := PartNodes(init).value, PartNode(p).value;
      CollectSnoc(PartNode, init, p, xs, x);
      NodeKeepsOperator(p, x);
      OperatorTextsSnoc(xs, x);
      ObjectsExpression.OperatorPartsSnoc(init, p);
    }
  }

  /** A collection that succeeds succeeded on its front and on its last piece. */
  lemma CollectOkParts(f: string -> Result<XNode>, init: seq<string>, p: string)
    requires Collect(f, init + [p]).Ok?
    ensures Collect(f, init).Ok? && f(p).Ok?
  {
    assert (init + [p])[..|init|] == init;
  }

  /** A piece that is an operator, or holds none, is an operator node exactly when it is an operator. */
  lemma NodeKeepsOperator(p: string, x: XNode)
    requires ObjectsExpression.IsOperatorPart(p) || ObjectsExpression.NoOperator(p)
    requires PartNode(p) == Ok(x)
    ensures (if x.XOperator? then [x.operator] else []) == (if ObjectsExpression.IsOperatorPart(p) then [p] else [])
  {
    ObjectsExpression.StripKeepsKind(p);
  }

  lemma OperatorTextsSnoc(ns: seq<XNode>, n: XNode)
    ensures OperatorTexts(ns + [n]) == OperatorTexts(ns) + (if n.XOperator? then [n.operator] else [])
  {
    assert (ns + [n])[..|ns|] == ns;
  }

  /** parse_operators keeps every operator of the text, in order, as an
      operator node; every other node is a number or a printed reference. */
  lemma OperatorsKept(expr: string)
    requires Operators(expr).Ok?
    ensures OperatorTexts(Operators(expr).value) == ObjectsExpression.OperatorChars(expr)
  {
    var parts := ObjectsExpression.SplitKeep(expr);
    ObjectsExpression.SplitKeepOperators(expr);
    KeptOperators(parts);
    NodesKeepOperators(Kept(parts));
  }

  // ---------------------------------------------------------------------------
  // parse_expression

  /** ExcelFormula.parse_expression: the stripped text is a function call
      (ValueError when ExcelFunction rejects it), then text holding any of
      + - * / is an expression, then a range or a reference holds the str()
      of its object (ValueError when the constructor rejects it), and
      anything else is a constant. */
  function ParseExpression(isFunctionString: string -> bool, expr: string): (r: Result<XNode>)
    ensures r.Err? ==> r.error == ValueError
    decreases |expr|, 1, 0
  {
    var t := Strip(expr);
    if isFunctionString(t) then
      var f :- ObjectsExcelFunction.New(t);
      ObjectsExcelFunction.ArgumentsShorter(t);
      var args :- ParseAll(isFunctionString, f.arguments, |t|);
      Ok(XFunction(f.name, args))
    else if ObjectsExpression.HasOperator(t) then
      var parts :- Operators(t);
      Ok(XExpression(parts))
    else if ObjectsCellRange.IsValidRange(t) then
      var rg :- ObjectsCellRange.ParseRange(t);
      Ok(XRange(ObjectsCellRange.Str(rg)))
    else if IsValidReference(t) then
      var c :- ParseCellRef(t);
      Ok(XReference(CellText(c)))
    else Ok(XConstant(t))
  }

  /** The arguments of a call parsed in order, each shorter than the call. */
  function ParseAll(isFunctionString: string -> bool, args: seq<string>, bound: nat): (r: Result<seq<XNode>>)
    requires forall a :: a in args ==> |a| < bound
    ensures r.Err? ==> r.error == ValueError
    ensures r.Ok? ==> |r.value| == |args|
    decreases bound, 0, |args|
  {
    if args == [] then Ok([])
    else
      var init :- ParseAll(isFunctionString, args[..|args| - 1], bound);
      var last :- ParseExpression(isFunctionString, args[|args| - 1]);
      Ok(init + [last])
  }

  /** Text that is no call and holds an operator becomes an expression whose
      operator nodes are the operators of the text, in order. */
  lemma ExpressionOperators(isFunctionString: string -> bool, expr: string)
    requires !isFunctionString(Strip(expr)) && ParseExpression(isFunctionString, expr).Ok?
    requires ObjectsExpression.HasOperator(Strip(expr))
    ensures ParseExpression(isFunctionString, expr).value.XExpression?
    ensures OperatorTexts(ParseExpression(isFunctionString, expr).value.expression) == ObjectsExpression.OperatorChars(Strip(expr))
  {
    OperatorsKept(Strip(expr));
  }

  /** Text that is no call, holds no operator, and matches neither the range
      nor the reference pattern is kept as a constant: nothing is rejected. */
  lemma ConstantFallback(isFunctionString: string -> bool, expr: string)
    requires var t := Strip(expr);
             !isFunctionString(t) && !ObjectsExpression.HasOperator(t)
             && !ObjectsCellRange.IsValidRange(t) && !IsValidReference(t)
    ensures ParseExpression(isFunctionString, expr) == Ok(XConstant(Strip(expr)))
  {
  }

  /** A reference without a sheet parses to a reference node holding its own
      text. */
  lemma ReferenceKept(isFunctionString: string -> bool, c: Cell)
    requires IsCell(c) && c.sheet.None? && !isFunctionString(CellText(c))
    ensures ParseExpression(isFunctionString, CellText(c)) == Ok(XReference(CellText(c)))
  {
    var t := CellText(c);
    var d := NatToString(c.row);
    assert t == c.letters + d;
    PlainCellText(t, c.letters, d);
    PrintedParses(c);
  }

  /** Text that is no call and prints a range without sheets parses to a
      range node holding that text. */
  lemma RangeKept(isFunctionString: string -> bool, rg: ObjectsCellRange.CellRange)
    requires IsCell(rg.start) && IsCell(rg.end) && rg.start.sheet.None? && rg.end.sheet.None?
    requires !isFunctionString(ObjectsCellRange.Str(rg))
    ensures ParseExpression(isFunctionString, ObjectsCellRange.Str(rg)) == Ok(XRange(ObjectsCellRange.Str(rg)))
  {
    var t := ObjectsCellRange.Str(rg);
    PlainRangeText(rg);
    assert t + [] == t;
    ObjectsCellRange.PrintedRangeParses(rg, []);
  }

  /** A printed range without sheets is trimmed and holds no operator. */
  lemma PlainRangeText(rg: ObjectsCellRange.CellRange)
    requires IsCell(rg.start) && IsCell(rg.end) && rg.start.sheet.None? && rg.end.sheet.None?
    ensures var t := ObjectsCellRange.Str(rg);
            Strip(t) == t && !ObjectsExpression.HasOperator(t)
  {
    var a := CellText(rg.start);
    var b := CellText(rg.end);
    assert a == rg.start.letters + NatToString(rg.start.row);
    assert b == rg.end.letters + NatToString(rg.end.row);
    PlainCellText(a, rg.start.letters, NatToString(rg.start.row));
    PlainCellText(b, rg.end.letters, NatToString(rg.end.row));
    PlainAround(a, b);
  }

  /** Two trimmed, operator-free, non-empty texts joined by ":" are trimmed
      and operator-free. */
  lemma PlainAround(a: string, b: string)
    requires a != [] && b != [] && Strip(a) == a && Strip(b) == b
    requires !ObjectsExpression.HasOperator(a) && !ObjectsExpression.HasOperator(b)
    ensures Strip(a + ":" + b) == a + ":" + b && !ObjectsExpression.HasOperator(a + ":" + b)
  {
    var t := a + ":" + b;
    StripEnds(a);
    StripEnds(b);
    assert t[0] == a[0] && t[|t| - 1] == b[|b| - 1];
    StripTrimmed(t);
    forall i | 0 <= i < |t|
      ensures !ObjectsExpression.IsOperatorChar(t[i])
    {
      if i < |a| {
        assert t[i] == a[i];
      } else if i > |a| {
        assert t[i] == b[i - |a| - 1];
      }
    }
  }

  /** Text the function check accepts is rejected with ValueError when
      ExcelFunction rejects it; otherwise it parses exactly when every
      argument does, to a function node of the name and the parsed arguments. */
  lemma FunctionBranch(isFunctionString: string -> bool, expr: string)
    requires isFunctionString(Strip(expr))
    ensures ObjectsExcelFunction.New(Strip(expr)).Err? ==> ParseExpression(isFunctionString, expr) == Err(ValueError)
    ensures var t := Strip(expr);
            ObjectsExcelFunction.New(t).Ok? ==>
              var f := ObjectsExcelFunction.New(t).value;
              (forall a :: a in f.arguments ==> |a| < |t|)
              && (ParseExpression(isFunctionString, expr).Ok? <==> ParseAll(isFunctionString, f.arguments, |t|).Ok?)
              && (ParseExpression(isFunctionString, expr).Ok? ==>
                    ParseExpression(isFunctionString, expr).value == XFunction(f.name, ParseAll(isFunctionString, f.arguments, |t|).value))
  {
    var t := Strip(expr);
    if ObjectsExcelFunction.New(t).Ok? {
      ObjectsExcelFunction.ArgumentsShorter(t);
    }
  }

  lemma PlainCellText(t: string, letters: string, d: string)
    requires letters != [] && AllUpper(letters) && IsDigitString(d) && t == letters + d
    ensures Strip(t) == t && !ObjectsExpression.HasOperator(t) && !ObjectsCellRange.IsValidRange(t)
  {
    assert t == letters + d + [];
    ModelsRangePrefix(t, letters, d);
    assert t[0] == letters[0] && t[|t| - 1] == d[|d| - 1];
    StripTrimmed(t);
    forall i | 0 <= i < |t|
      ensures !ObjectsExpression.IsOperatorChar(t[i])
    {
      if i < |letters| {
        assert t[i] == letters[i];
      } else {
        assert t[i] == d[i - |letters|];
      }
    }
  }

  lemma ModelsRangePrefix(t: string, letters: string, d: string)
    requires letters != [] && AllUpper(letters) && IsDigitString(d) && t == letters + d + []
    ensures !ObjectsCellRange.IsValidRange(t)
  {
    ModelsRange.CellPrefixOf(letters, d, []);
  }

  // ---------------------------------------------------------------------------
  // _reconstruct and reconstruct_formula

  /** A tree made of expressions only, which is the one shape whose parts
      ' '.join can accept. */
  predicate OnlyExpressions(n: XNode)
    decreases n
  {
    n.XExpression? && forall i :: 0 <= i < |n.expression| ==> OnlyExpressions(n.expression[i])
  }

  /** What _reconstruct returns: a string for an expression, and every other
      node unchanged. */
  datatype Reconstructed = Printed(text: string) | Unchanged(node: XNode)

  /** ExcelFormula._reconstruct: an expression joins the _reconstruct of its
      parts with spaces, which raises TypeError unless each part is itself
      printed as a string, that is, is an expression; anything else comes
      back as it is. */
  function Reconstruct(n: XNode): (r: Result<Reconstructed>)
    ensures r.Ok? <==> !n.XExpression? || OnlyExpressions(n)
    ensures r.Err? ==> r.error == TypeError
    ensures r.Ok? ==> (r.value.Unchanged? <==> !n.XExpression?)
    ensures r.Ok? && r.value.Unchanged? ==> r.value.node == n
    decreases n, 1
  {
    match n
    case XExpression(parts) =>
      var texts :- JoinAll(parts);
      Ok(Printed(Join(texts, " ")))
    case _ => Ok(Unchanged(n))
  }

  /** The parts of an expression printed in order; a part that is not an
      expression stops the join. */
  function JoinAll(parts: seq<XNode>): (r: Result<seq<string>>)
    ensures r.Ok? <==> forall i :: 0 <= i < |parts| ==> OnlyExpressions(parts[i])
    ensures r.Err? ==> r.error == TypeError
    ensures r.Ok? ==> |r.value| == |parts|
    decreases parts, 0
  {
    if parts == [] then Ok([])
    else
      var init :- JoinAll(parts[..|parts| - 1]);
      var last :- Reconstruct(parts[|parts| - 1]);
      if last.Unchanged? then Err(TypeError) else Ok(init + [last.text])
  }

  /** repr() of a parsed dictionary, as f"={...}" prints a dictionary. */
  function DictRepr(n: XNode): (r: string)
    ensures |r| >= 2 && r[0] == '{' && r[|r| - 1] == '}'
    decreases n, 1
  {
    match n
    case XFunction(name, args) =>
      "{'function': " + Repr(name) + ", 'arguments': [" + Join(ReprAll(args), ", ") + "]}"
    case XExpression(parts) => "{'expression': [" + Join(ReprAll(parts), ", ") + "]}"
    case XRange(t) => "{'cell_range': " + Repr(t) + "}"
    case XReference(t) => "{'cell_reference': " + Repr(t) + "}"
    case XConstant(t) => "{'constant': " + Repr(t) + "}"
    case XOperator(o) => "{'operator': " + Repr(o) + "}"
  }

  function ReprAll(ns: seq<XNode>): (r: seq<string>)
    ensures |r| == |ns|
    decreases ns, 0
  {
    if ns == [] then [] else ReprAll(ns[..|ns| - 1]) + [DictRepr(ns[|ns| - 1])]
  }

  /** reconstruct_formula: "=" and the result of _reconstruct, a dictionary
      formatted as its repr(). */
  function ReconstructFormula(n: XNode): (r: Result<string>)
    ensures r.Err? <==> n.XExpression? && !OnlyExpressions(n)
    ensures !n.XExpression? ==> r == Ok("=" + DictRepr(n))
  {
    var x :- Reconstruct(n);
    match x
    case Printed(t) => Ok("=" + t)
    case Unchanged(m) => Ok("=" + DictRepr(m))
  }

  /** Every expression parse_operators builds has a part that is not an
      expression, so reconstructing a parsed expression raises TypeError. */
  lemma ParsedExpressionFails(expr: string)
    requires ObjectsExpression.HasOperator(expr) && Operators(expr).Ok?
    ensures ReconstructFormula(XExpression(Operators(expr).value)) == Err(TypeError)
  {
    var parts := Operators(expr).value;
    OperatorsKept(expr);
    OperatorCharsOf(expr);
    OperatorNodeIn(parts);
  }

  lemma {:induction false} OperatorCharsOf(s: string)
    requires ObjectsExpression.HasOperator(s)
    ensures ObjectsExpression.OperatorChars(s) != []
  {
    var init := s[..|s| - 1];
    if !ObjectsExpression.IsOperatorChar(s[|s| - 1]) {
      var i :| 0 <= i < |s| && ObjectsExpression.IsOperatorChar(s[i]);
      assert init[i] == s[i];
      OperatorCharsOf(init);
    }
  }

  lemma {:induction false} OperatorNodeIn(ns: seq<XNode>)
    requires OperatorTexts(ns) != []
    ensures exists i :: 0 <= i < |ns| && ns[i].XOperator?
  {
    var init := ns[..|ns| - 1];
    if !ns[|ns| - 1].XOperator? {
      OperatorNodeIn(init);
      var i :| 0 <= i < |init| && init[i].XOperator?;
      assert ns[i] == init[i];
    }
  }

  // ---------------------------------------------------------------------------
  // The ExcelFormula object

  /** ExcelFormula.is_valid_formula on a string: it starts with "=". */
  predicate IsValidFormula(s: string) {
    s != [] && s[0] == '='
  }

  class ExcelFormula {
    var originalFormula: Option<string>
    var parsedFormula: XNode

    /** ExcelFormula(dict): the dictionary is kept as given, with no text. */
    constructor FromTree(inputData: XNode)
      ensures originalFormula == None && parsedFormula == inputData
    {
      originalFormula := None;
      parsedFormula := inputData;
    }

    constructor FromParsed(text: string, tree: XNode)
      ensures originalFormula == Some(text) && parsedFormula == tree
    {
      originalFormula := Some(text);
      parsedFormula := tree;
    }

    /** ExcelFormula(text): ValueError without the leading "=", then the text
        after it parsed, whose ValueError propagates. */
    static method FromText(isFunctionString: string -> bool, inputData: string) returns (r: Result<ExcelFormula>)
      ensures r.Ok? <==> IsValidFormula(inputData) && ParseExpression(isFunctionString, inputData[1..]).Ok?
      ensures r.Err? ==> r.error == ValueError
      ensures r.Ok? ==> fresh(r.value) && r.value.originalFormula == Some(inputData)
                        && r.value.parsedFormula == ParseExpression(isFunctionString, inputData[1..]).value
    {
      if !IsValidFormula(inputData) {
        return Err(ValueError);
      }
      var tree := ParseExpression(isFunctionString, inputData[1..]);
      if tree.Err? {
        return Err(ValueError);
      }
      var f := new ExcelFormula.FromParsed(inputData, tree.value);
      return Ok(f);
    }

    /** reconstruct_formula on the stored tree. */
    function ReconstructedFormula(): (r: Result<string>)
      reads this
      ensures r.Err? <==> parsedFormula.XExpression? && !OnlyExpressions(parsedFormula)
    {
      ReconstructFormula(parsedFormula)
    }
  }

  // ---------------------------------------------------------------------------
  // Examples

  /** "=A1 + B1" holds a reference, the operator "+" and a reference. */
  lemma AddFormula(isFunctionString: string -> bool)
    requires !isFunctionString("A1 + B1")
    ensures ParseExpression(isFunctionString, " A1 + B1")
            == Ok(XExpression([XReference("A1"), XOperator("+"), XReference("B1")]))
  {
    AddStripped();
    assert ObjectsExpression.IsOperatorChar("A1 + B1"[3]);
    AddOperators();
  }

  lemma AddStripped()
    ensures Strip(" A1 + B1") == "A1 + B1"
  {
    assert " A1 + B1"[1..] == "A1 + B1";
    StripTrimmed("A1 + B1");
    assert LeadingSpaces(" A1 + B1") == 1;
  }

  lemma AddOperators()
    ensures Operators("A1 + B1") == Ok([XReference("A1"), XOperator("+"), XReference("B1")])
  {
    ObjectsExpression.AddPieces();
    var parts := ["A1 ", "+", " B1"];
    KeptThree(parts[0], parts[1], parts[2]);
    APart();
    BPart();
    PlusPart();
    PartNodesThree(parts[0], parts[1], parts[2], XReference("A1"), XOperator("+"), XReference("B1"));
  }

  lemma PartNodesThree(a: string, b: string, c: string, x: XNode, y: XNode, z: XNode)
    requires PartNode(a) == Ok(x) && PartNode(b) == Ok(y) && PartNode(c) == Ok(z)
    ensures PartNodes([a, b, c]) == Ok([x, y, z])
  {
    CollectThree(PartNode, a, b, c, x, y, z);
  }

  lemma CollectThree(f: string -> Result<XNode>, a: string, b: string, c: string, x: XNode, y: XNode, z: XNode)
    requires f(a) == Ok(x) && f(b) == Ok(y) && f(c) == Ok(z)
    ensures Collect(f, [a, b, c]) == Ok([x, y, z])
  {
    CollectOne(f, a, x);
    CollectSnoc(f, [a], b, [x], y);
    assert [a] + [b] == [a, b] && [x] + [y] == [x, y];
    CollectSnoc(f, [a, b], c, [x, y], z);
    assert [a, b] + [c] == [a, b, c] && [x, y] + [z] == [x, y, z];
  }

  lemma PlusPart()
    ensures PartNode("+") == Ok(XOperator("+"))
  {
    StripTrimmed("+");
  }

  lemma APart()
    ensures PartNode("A1 ") == Ok(XReference("A1"))
  {
    ObjectsExpression.StripA1();
    assert !IsDigit("A1"[0]);
    Examples();
  }

  lemma BPart()
    ensures PartNode(" B1") == Ok(XReference("B1"))
  {
    ObjectsExpression.StripB1();
    assert !IsDigit("B1"[0]);
    assert CellText(Cell(None, "B", 1)) == "B1" by {
      assert IntToString(1) == "1";
    }
    PrintedParses(Cell(None, "B", 1));
  }

  /** A parenthesised group is not removed: "(A1" is no reference, so
      "(A1 + 4)" raises ValueError. */
  lemma ParenthesisedRejected()
    ensures Operators("(A1 + 4)").Err?
  {
    ParenSplit();
    var parts := ["(A1 ", "+", " 4)"];
    KeptThree(parts[0], parts[1], parts[2]);
    OpenPartRejected();
    assert parts[..1] == ["(A1 "];
    CollectStops(PartNode, [], "(A1 ");
    assert [] + ["(A1 "] == parts[..1];
    PrefixFails(PartNode, parts, 1);
  }

  lemma ParenSplit()
    ensures ObjectsExpression.SplitKeep("(A1 + 4)") == ["(A1 ", "+", " 4)"]
  {
    assert "(A1 + 4)" == "(A1 " + ['+'] + " 4)";
    assert ObjectsExpression.NoOperator("(A1 ") && ObjectsExpression.NoOperator(" 4)");
    SplitOnce("(A1 ", '+', " 4)");
  }

  /** Text with one operator splits into three pieces. */
  lemma SplitOnce(a: string, c: char, b: string)
    requires ObjectsExpression.NoOperator(a) && ObjectsExpression.IsOperatorChar(c) && ObjectsExpression.NoOperator(b)
    ensures ObjectsExpression.SplitKeep(a + [c] + b) == [a, [c], b]
  {
    ObjectsExpression.SplitKeepPlain(a);
    ObjectsExpression.SplitKeepAround(a, c, b);
  }

  lemma KeptThree(a: string, b: string, c: string)
    requires !Dropped(a) && !Dropped(b) && !Dropped(c)
    ensures Kept([a, b, c]) == [a, b, c]
  {
    assert [a, b, c][..2] == [a, b];
    assert [a, b][..1] == [a];
    assert [a][..0] == [];
    assert Kept([a]) == [a];
    assert Kept([a, b]) == [a] + [b];
  }

  lemma OpenPartRejected()
    ensures PartNode("(A1 ").Err?
  {
    assert LeadingSpaces("(A1 ") == 0;
    assert "(A1 "[..3] == "(A1";
    assert KeptLength("(A1 ") == 3;
    assert !IsDigit("(A1"[0]);
    assert ModelsReference.UpperRun("(A1") == 0;
    assert ModelsReference.MatchRef("(A1") == None;
  }

  /** A dictionary that is no expression reconstructs as "=" and its repr():
      {"cell_reference": "A1"} gives "={'cell_reference': 'A1'}". */
  lemma ReferenceReconstructed()
    ensures ReconstructFormula(XReference("A1")) == Ok("={'cell_reference': 'A1'}")
  {
    PlainRepr("A1");
    var d := DictRepr(XReference("A1"));
    assert d == "{'cell_reference': " + "'A1'" + "}";
    assert "=" + d == "={'cell_reference': 'A1'}";
  }

  /** Text without quotes, backslashes or characters repr() escapes is printed
      between single quotes. */
  lemma PlainRepr(s: string)
    requires forall i :: 0 <= i < |s| ==> Plain(s[i])
    ensures Repr(s) == "'" + s + "'"
  {
    PlainEscape(s);
  }

  predicate Plain(c: char) {
    c != '\'' && c != '"' && c != '\\' && Shown(c)
  }

  lemma {:induction false} PlainEscape(s: string)
    requires forall i :: 0 <= i < |s| ==> Plain(s[i])
    ensures EscapeFor(s, '\'') == s
    decreases |s|
  {
    if s != [] {
      var tail := s[1..];
      assert forall i :: 0 <= i < |tail| ==> Plain(tail[i]) by {
        forall i | 0 <= i < |tail|
          ensures Plain(tail[i])
        {
          assert tail[i] == s[i + 1];
        }
      }
      PlainEscape(tail);
      assert Plain(s[0]);
      assert [s[0]] + tail == s;
    }
  }
}
