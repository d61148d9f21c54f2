/** The second formula parser of the Models package (src/Models/formula_parser.py,
    class FormulaParser). It classifies text exactly as Parser does, but it
    parses nothing when it is built: every parse, to_dict and reconstruction
    starts again from the stored text. Its json_to_string reads the arguments
    of a function dictionary from the wrong level, so no formula holding a
    call can be printed. */
module ModelsFormulaParser {
  import opened Results
  import opened Text
  import opened Nodes
  import ModelsParser
  import ModelsReference
  import ModelsExpression
  import DictKeys

  // ---------------------------------------------------------------------------
  // Printing: json_to_string

  /** No function dictionary anywhere in the tree. */
  predicate CallFree(n: Node)
    decreases n
  {
    match n
    case FunctionNode(_, _, _) => false
    case ExpressionNode(_, cs) => forall i :: 0 <= i < |cs| ==> CallFree(cs[i])
    case _ => true
  }

  /** FormulaParser.json_to_string. A function dictionary has its arguments
      under "components", but the join reads json_obj['arguments'], which
      raises KeyError before any argument is printed; a None anywhere fails with
      TypeError ("'function' in None"). Every other branch is Parser's, so on a
      tree without calls and without None the two printers agree. */
  function JsonToString(n: Node): (r: Result<string>)
    ensures r.Ok? <==> ModelsParser.Printable(n) && CallFree(n)
    ensures r.Ok? ==> ModelsParser.JsonToString(n) == r
    ensures r.Err? ==> r.error == KeyError || r.error == TypeError
    ensures n.FunctionNode? ==> r == Err(KeyError)
    decreases n, 1
  {
    match n
    case FunctionNode(_, _, _) =>
      Err(KeyError)
    case ReferenceNode(_, sheet, letter, row, _) =>
      Ok(ModelsReference.RefText(sheet, letter, row))
    case RangeNode(_, start, end) =>
      Ok(start + ":" + end)
    case ExpressionNode(_, cs) =>
      var parts :- PrintAll(cs);
      Ok("(" + Join(parts, " ") + ")")
    case OperatorNode(op) =>
      Ok(op)
    case ConstantNode(v) =>
      Ok(IntToString(v))
    case NoMatch =>
      Err(TypeError)
  }

  /** ' '.join(json_to_string(part) for part in components): the parts in
      order, and the first failure stops the join. */
  function PrintAll(ns: seq<Node>): (r: Result<seq<string>>)
    ensures r.Ok? <==> forall i :: 0 <= i < |ns| ==> ModelsParser.Printable(ns[i]) && CallFree(ns[i])
    ensures r.Ok? ==> ModelsParser.PrintAll(ns) == r
    ensures r.Err? ==> r.error == KeyError || r.error == TypeError
    decreases ns, 0
  {
    if ns == [] then Ok([])
    else
      var first :- JsonToString(ns[0]);
      var rest :- PrintAll(ns[1..]);
      Ok([first] + rest)
  }

  /** A tree without None that holds a call, at any depth of expression
      nesting, fails to print with KeyError. */
  lemma {:induction false} CallKeyError(n: Node)
    requires ModelsParser.Printable(n) && !CallFree(n)
    ensures JsonToString(n) == Err(KeyError)
    decreases n, 1
  {
    match n
    case FunctionNode(_, _, _) =>
    case ExpressionNode(_, cs) =>
      CallKeyErrorAll(cs);
    case _ =>
  }

  lemma {:induction false} CallKeyErrorAll(ns: seq<Node>)
    requires forall i :: 0 <= i < |ns| ==> ModelsParser.Printable(ns[i])
    requires exists i :: 0 <= i < |ns| && !CallFree(ns[i])
    ensures PrintAll(ns) == Err(KeyError)
    decreases ns, 0
  {
    if CallFree(ns[0]) {
      var i :| 0 <= i < |ns| && !CallFree(ns[i]);
      assert ns[1..][i - 1] == ns[i];
      CallKeyErrorAll(ns[1..]);
    } else {
      CallKeyError(ns[0]);
    }
  }

  /** FormulaParser.reconstructed_formula on the formula text after "=". */
  function Reconstructed(formula: string): (r: Result<string>)
    ensures r.Ok? <==> ModelsParser.ParseText(formula).Ok? && ModelsParser.Printable(ModelsParser.ParseText(formula).value)
                       && CallFree(ModelsParser.ParseText(formula).value)
    ensures r.Ok? ==> r == ModelsParser.Reconstructed(formula)
  {
    var tree :- ModelsParser.ParseText(formula);
    var text :- JsonToString(tree);
    Ok("=" + text)
  }

  /** A formula whose text is a call either fails to parse or fails to print
      with KeyError: it never reconstructs. */
  lemma CallFormulaKeyError(formula: string)
    requires ModelsParser.Classify(Strip(formula)) == ModelsParser.FunctionKind
    ensures Reconstructed(formula).Err?
    ensures ModelsParser.ParseText(formula).Ok? ==> Reconstructed(formula) == Err(KeyError)
  {
    ModelsParser.FunctionKindOf(formula);
    var p := ModelsParser.ParseText(formula);
    if p.Ok? {
      ReconstructedCall(formula, p.value);
    } else {
      ReconstructedFails(formula);
    }
  }

  lemma ReconstructedCall(formula: string, n: Node)
    requires ModelsParser.ParseText(formula) == Ok(n) && n.FunctionNode?
    ensures Reconstructed(formula) == Err(KeyError)
  {
  }

  lemma ReconstructedFails(formula: string)
    requires ModelsParser.ParseText(formula).Err?
    ensures Reconstructed(formula).Err?
  {
  }

  /** Two references without sheets around an operator reconstruct as Parser
      reconstructs them: "=(x o y)", which equals "=x o y" once the parentheses
      are removed. */
  lemma ReconstructBinary(a: ModelsReference.RefValue, o: char, b: ModelsReference.RefValue)
    requires ModelsReference.IsCellValue(a) && a.sheet.None? && ModelsReference.IsCellValue(b) && b.sheet.None?
    requires ModelsExpression.IsOperatorChar(o)
    ensures Reconstructed(ModelsParser.BinaryText(a, o, b)) == Ok("=(" + ModelsParser.BinaryText(a, o, b) + ")")
    ensures WithoutParens("=(" + ModelsParser.BinaryText(a, o, b) + ")") == WithoutParens("=" + ModelsParser.BinaryText(a, o, b))
  {
    var t := ModelsParser.BinaryText(a, o, b);
    var n := ExpressionNode(t, [ModelsReference.RefToDict(a), OperatorNode([o]), ModelsReference.RefToDict(b)]);
    BinaryCallFree(t, ModelsReference.RefToDict(a), [o], ModelsReference.RefToDict(b));
    ModelsParser.ReconstructBinary(a, o, b);
    ModelsParser.ParseBinary(a, o, b);
    ReconstructedOf(t, n);
  }

  lemma BinaryCallFree(d: string, x: Node, o: string, y: Node)
    requires x.ReferenceNode? && y.ReferenceNode?
    ensures CallFree(ExpressionNode(d, [x, OperatorNode(o), y])) && ModelsParser.Printable(ExpressionNode(d, [x, OperatorNode(o), y]))
  {
  }

  lemma ReconstructedOf(t: string, n: Node)
    requires ModelsParser.ParseText(t) == Ok(n) && CallFree(n) && ModelsParser.Printable(n)
    ensures Reconstructed(t) == ModelsParser.Reconstructed(t)
  {
  }

  /** "=A1 + B1" comes back as "=(A1 + B1)", and the two agree once every
      parenthesis is removed. */
  lemma AddRoundTrip()
    ensures Reconstructed("A1 + B1") == Ok("=(A1 + B1)")
    ensures WithoutParens("=(A1 + B1)") == WithoutParens("=A1 + B1")
  {
    var a := ModelsReference.RefValue(None, "A", 1, 1);
    var b := ModelsReference.RefValue(None, "B", 1, 2);
    ModelsParser.AddTexts();
    AddLiteral();
    ReconstructBinary(a, '+', b);
  }

  lemma AddLiteral()
    ensures "=" + "A1 + B1" == "=A1 + B1"
  {
  }

  // ---------------------------------------------------------------------------
  // Counting keys: get_all_keys_with_counts

  /** The keys FormulaParser counts: the node kinds and "arguments". */
  const DefaultKeys: set<string> := {"function", "arguments", "expression", "range", "reference", "constant", "operator"}

  /** FormulaParser.get_all_keys_with_counts(d, keys_count): Parser's traversal
      with the fixed acceptable keys; None is no dictionary and fails with
      AttributeError. */
  method GetAllKeysWithCounts(d: Node, keysCount: Option<map<string, int>>) returns (r: Result<map<string, int>>)
    ensures d.NoMatch? ==> r == Err(AttributeError)
    ensures !d.NoMatch? ==> r == Ok(DictKeys.KeyCounts(if keysCount.Some? then keysCount.value else map[],
                                                       DefaultKeys, DictKeys.Keys(ModelsParser.ToValue(d))))
  {
    r := DictKeys.CountAll(ModelsParser.ToValue(d), keysCount, DefaultKeys);
  }

  /** On the tree of =SUM(A1, MAX(B1, C1)) the counts are
      {'function': 2, 'arguments': 2, 'reference': 3}. */
  lemma SumMaxKeyCounts(d1: string, d2: string, a: Node, b: Node, c: Node)
    requires a.ReferenceNode? && b.ReferenceNode? && c.ReferenceNode?
    ensures DictKeys.KeyCounts(map[], DefaultKeys,
                               DictKeys.Keys(ModelsParser.ToValue(FunctionNode(d1, "SUM", [a, FunctionNode(d2, "MAX", [b, c])]))))
            == map["function" := 2, "arguments" := 2, "reference" := 3]
  {
    assert DefaultKeys == ModelsParser.Acceptable(None);
    ModelsParser.SumMaxKeyCounts(d1, d2, a, b, c);
  }

  // ---------------------------------------------------------------------------
  // The FormulaParser object

  class FormulaParser {
    var formula: string
    var fullFormula: string

    /** What the constructor checked: the text starts with "=", its parentheses
        balance, and formula is the text after the "=". */
    ghost predicate Valid()
      reads this
    {
      fullFormula != [] && fullFormula[0] == '=' && formula == fullFormula[1..]
      && Count('(', fullFormula) == Count(')', fullFormula)
    }

    constructor (formulaStr: string)
      requires formulaStr != [] && formulaStr[0] == '=' && Count('(', formulaStr) == Count(')', formulaStr)
      ensures Valid() && fullFormula == formulaStr
    {
      formula := formulaStr[1..];
      fullFormula := formulaStr;
    }

    /** FormulaParser.__init__: ValueError without the leading "=" or with
        unequal counts of "(" and ")"; the text is not parsed, so text that no
        parse accepts is still stored. */
    static method New(formulaStr: string) returns (r: Result<FormulaParser>)
      ensures r.Ok? <==> formulaStr != [] && formulaStr[0] == '=' && Count('(', formulaStr) == Count(')', formulaStr)
      ensures r.Err? ==> r.error == ValueError
      ensures r.Ok? ==> fresh(r.value) && r.value.Valid() && r.value.fullFormula == formulaStr
    {
      if formulaStr == [] || formulaStr[0] != '=' {
        return Err(ValueError);
      }
      var balanced := ModelsExpression.HasBalancedParentheses(formulaStr);
      if !balanced {
        return Err(ValueError);
      }
      var p := new FormulaParser(formulaStr);
      return Ok(p);
    }

    /** FormulaParser.reconstructed_formula: the stored text parsed afresh and
        printed after "=", as Parser prints it when the tree holds no call. */
    function ReconstructedFormula(): (r: Result<string>)
      reads this
      ensures r.Ok? <==> ModelsParser.ParseText(formula).Ok? && ModelsParser.Printable(ModelsParser.ParseText(formula).value)
                         && CallFree(ModelsParser.ParseText(formula).value)
      ensures r.Ok? ==> r == ModelsParser.Reconstructed(formula)
    {
      Reconstructed(formula)
    }
  }
}
