/** The formula parser of the Models package (src/Models/parser.py, class Parser):
    it classifies formula text into the dictionary tree of Nodes, prints a tree
    back as formula text, counts the keys of a tree and moves every reference of
    a formula by a column and row offset. */
module ModelsParser {
  import opened Results
  import opened Text
  import opened Nodes
  import Columns
  import ModelsReference
  import ModelsRange
  import ModelsExpression
  import ModelsFunction
  import DictKeys

  // ---------------------------------------------------------------------------
  // Constants

  /** Constant.is_valid_constant. src/Models/constant.py is not part of this
      model: a constant stands in as non-empty text of ASCII digits, which accepts
      "123" and rejects "45.67", "abc" and "123abc". */
  predicate IsConstant(s: string) {
    IsDigitString(s)
  }

  // ---------------------------------------------------------------------------
  // Classification: parse_expression on text

  /** The recognisers of parse_expression, and None for text none of them accepts. */
  datatype Kind = FunctionKind | RangeKind | ReferenceKind | ConstantKind | ExpressionKind | OperatorKind | NoKind

  /** The kind of dictionary a node is. */
  function KindOf(n: Node): Kind {
    match n
    case FunctionNode(_, _, _) => FunctionKind
    case RangeNode(_, _, _) => RangeKind
    case ReferenceNode(_, _, _, _, _) => ReferenceKind
    case ConstantNode(_) => ConstantKind
    case ExpressionNode(_, _) => ExpressionKind
    case OperatorNode(_) => OperatorKind
    case NoMatch => NoKind
  }

  /** The first recogniser that accepts the stripped text, in the order function,
      range, reference, constant, expression, one-character operator. */
  function Classify(e: string): Kind {
    if ModelsFunction.IsFunctionString(e) then FunctionKind
    else if ModelsRange.IsValidRange(e) then RangeKind
    else if ModelsReference.IsValidReference(e) then ReferenceKind
    else if IsConstant(e) then ConstantKind
    else if ModelsExpression.IsValidExpression(e) then ExpressionKind
    else if |e| == 1 && ModelsExpression.IsOperatorChar(e[0]) then OperatorKind
    else NoKind
  }

  /** Every text an argument holds, at any depth of nesting, is shorter than bound. */
  predicate ArgBelow(a: ModelsFunction.Arg, bound: nat)
    decreases a
  {
    match a
    case Text(t) => |t| < bound
    case Call(_, _, args) => forall i :: 0 <= i < |args| ==> ArgBelow(args[i], bound)
  }

  /** parse_expression on a string: the stripped text goes to the first recogniser
      that accepts it. Text nobody accepts gives None, not an error; only the
      function, range and expression branches can fail. */
  function ParseText(expr: string): (r: Result<Node>)
    ensures r.Err? ==> Classify(Strip(expr)) in {FunctionKind, RangeKind, ExpressionKind}
    decreases |expr|, 2
  {
    var e := Strip(expr);
    match Classify(e)
    case FunctionKind =>
      StripIdempotent(expr);
      FunctionText(e)
    case RangeKind =>
      var rg :- ModelsRange.ParseRange(e);
      Ok(ModelsRange.ToDict(rg))
    case ReferenceKind =>
      Ok(ModelsReference.RefToDict(ModelsReference.ParseReference(e).value))
    case ConstantKind =>
      Ok(ConstantNode(DigitsValue(e)))
    case ExpressionKind =>
      ExpressionText(e)
    case OperatorKind =>
      Ok(OperatorNode(e))
    case NoKind =>
      Ok(NoMatch)
  }

  /** Text whose first accepting recogniser is the function pattern becomes a
      function node, unless Function or a nested argument fails. */
  lemma FunctionKindOf(expr: string)
    requires Classify(Strip(expr)) == FunctionKind
    ensures ParseText(expr).Ok? ==> ParseText(expr).value.FunctionNode?
  {
    StripIdempotent(expr);
    assert ParseText(expr) == FunctionText(Strip(expr));
  }

  /** Text whose first accepting recogniser is the range pattern becomes a range
      node, unless one of its ends is not a reference. */
  lemma RangeKindOf(expr: string)
    requires Classify(Strip(expr)) == RangeKind
    ensures ParseText(expr).Ok? ==> ParseText(expr).value.RangeNode?
    ensures var rg := ModelsRange.ParseRange(Strip(expr));
            ParseText(expr) == if rg.Ok? then Ok(ModelsRange.ToDict(rg.value)) else Err(rg.error)
  {
    var rg := ModelsRange.ParseRange(Strip(expr));
    assert ParseText(expr) == if rg.Ok? then Ok(ModelsRange.ToDict(rg.value)) else Err(rg.error);
  }

  /** Text that only the expression check accepts becomes an expression node,
      unless a component fails. */
  lemma ExpressionKindOf(expr: string)
    requires Classify(Strip(expr)) == ExpressionKind
    ensures ParseText(expr).Ok? ==> ParseText(expr).value.ExpressionNode?
  {
    assert ParseText(expr) == ExpressionText(Strip(expr));
  }

  /** Text that is a reference and not a function or a range becomes the
      reference's dictionary. */
  lemma ReferenceKindOf(expr: string)
    requires Classify(Strip(expr)) == ReferenceKind
    ensures ParseText(expr) == Ok(ModelsReference.RefToDict(ModelsReference.ParseReference(Strip(expr)).value))
  {
  }

  /** Digits that are no reference become a constant. */
  lemma ConstantKindOf(expr: string)
    requires Classify(Strip(expr)) == ConstantKind
    ensures ParseText(expr) == Ok(ConstantNode(DigitsValue(Strip(expr))))
  {
  }

  /** A lone operator character becomes an operator node. */
  lemma OperatorKindOf(expr: string)
    requires Classify(Strip(expr)) == OperatorKind
    ensures ParseText(expr) == Ok(OperatorNode(Strip(expr)))
  {
  }

  /** Text no recogniser accepts gives None, not an error. */
  lemma NoKindOf(expr: string)
    requires Classify(Strip(expr)) == NoKind
    ensures ParseText(expr) == Ok(NoMatch)
  {
  }

  /** The function branch: Function(expr) and parse_arguments, then
      {"function": str(func), "components": {"name", "arguments"}} with every
      argument parsed again. */
  function FunctionText(e: string): (r: Result<Node>)
    requires Strip(e) == e
    ensures r.Ok? ==> r.value.FunctionNode?
    decreases |e|, 1
  {
    var v :- ModelsFunction.Parse(e);
    ParseBelow(e);
    var args :- ReparseArgs(v.args, |e|);
    Ok(FunctionNode(ModelsFunction.Format(v.name, v.args), v.name, args))
  }

  /** The expression branch: Expression(expr), then {"expression": str(obj),
      "components": [...]} with every component parsed again. */
  function ExpressionText(e: string): (r: Result<Node>)
    ensures r.Ok? ==> r.value.ExpressionNode?
    decreases |e|, 1
  {
    var x :- ModelsExpression.FromText(e);
    var parts :- ParseComponents(x.components, |e|);
    Ok(ExpressionNode(ModelsExpression.ExprString(x.components), parts))
  }

  /** [parse_expression(part) for part in expression_obj.expression]: a token is
      parsed as text; a group is a dictionary {"expression": [...]} whose
      re-parse reads a "components" key it does not have, so it fails with
      KeyError. The first failure stops the list. */
  function ParseComponents(cs: seq<ModelsExpression.Component>, bound: nat): (r: Result<seq<Node>>)
    requires forall i :: 0 <= i < |cs| && cs[i].Token? ==> |cs[i].text| < bound
    ensures r.Ok? ==> |r.value| == |cs| && forall i :: 0 <= i < |cs| ==> cs[i].Token?
    decreases bound, 0, |cs|
  {
    if cs == [] then Ok([])
    else
      var first :- if cs[0].Token? then ParseText(cs[0].text) else Err(KeyError);
      var rest :- ParseComponents(cs[1..], bound);
      Ok([first] + rest)
  }

  /** parse_expression on an argument of a parsed function: argument text is parsed
      as text, and a nested function dictionary keeps its display and name while
      its own arguments are parsed again. */
  function ReparseArg(a: ModelsFunction.Arg, bound: nat): Result<Node>
    requires ArgBelow(a, bound)
    decreases bound, 0, a
  {
    match a
    case Text(t) => ParseText(t)
    case Call(display, name, args) =>
      var nodes :- ReparseArgs(args, bound);
      Ok(FunctionNode(display, name, nodes))
  }

  /** The arguments in order; the first failure stops the list. */
  function ReparseArgs(args: seq<ModelsFunction.Arg>, bound: nat): (r: Result<seq<Node>>)
    requires forall i :: 0 <= i < |args| ==> ArgBelow(args[i], bound)
    ensures r.Ok? ==> |r.value| == |args|
    decreases bound, 0, args
  {
    if args == [] then Ok([])
    else
      var first :- ReparseArg(args[0], bound);
      var rest :- ReparseArgs(args[1..], bound);
      Ok([first] + rest)
  }

  lemma {:induction false} ArgBelowMono(a: ModelsFunction.Arg, b1: nat, b2: nat)
    requires ArgBelow(a, b1) && b1 <= b2
    ensures ArgBelow(a, b2)
    decreases a
  {
    match a
    case Text(_) =>
    case Call(_, _, args) =>
      forall i | 0 <= i < |args|
        ensures ArgBelow(args[i], b2)
      {
        ArgBelowMono(args[i], b1, b2);
      }
  }

  /** The texts inside a parsed function's arguments are shorter than the
      function's stripped text. */
  lemma {:induction false} ParseBelow(s: string)
    requires ModelsFunction.Parse(s).Ok?
    ensures var args := ModelsFunction.Parse(s).value.args;
            forall i :: 0 <= i < |args| ==> ArgBelow(args[i], |Strip(s)|)
    decreases |s|, 2
  {
    var t := Strip(s);
    var m := ModelsFunction.MatchCall(t).value;
    ArgsOfBelow(m.1);
    var args := ModelsFunction.Parse(s).value.args;
    assert args == ModelsFunction.ArgsOf(m.1).value;
    forall i | 0 <= i < |args|
      ensures ArgBelow(args[i], |t|)
    {
      ArgBelowMono(args[i], |m.1| + 1, |t|);
    }
  }

  lemma {:induction false} ArgsOfBelow(body: string)
    requires ModelsFunction.ArgsOf(body).Ok?
    ensures var args := ModelsFunction.ArgsOf(body).value;
            forall i :: 0 <= i < |args| ==> ArgBelow(args[i], |body| + 1)
    decreases |body| + 1, 1
  {
    var texts := ModelsFunction.ArgumentTexts(body).value;
    ModelsFunction.ArgumentPiecesShorter(body);
    ParseArgsBelow(texts, |body| + 1);
  }

  lemma {:induction false} ParseArgsBelow(texts: seq<string>, bound: nat)
    requires forall i :: 0 <= i < |texts| ==> |texts[i]| < bound
    requires ModelsFunction.ParseArgs(texts, bound).Ok?
    ensures var args := ModelsFunction.ParseArgs(texts, bound).value;
            |args| == |texts| && forall i :: 0 <= i < |args| ==> ArgBelow(args[i], bound)
    decreases bound, 0, |texts|
  {
    if texts != [] {
      ParseArgsBelow(texts[..|texts| - 1], bound);
      ParseArgBelow(texts[|texts| - 1], bound);
    }
  }

  lemma {:induction false} ParseArgBelow(p: string, bound: nat)
    requires |p| < bound && ModelsFunction.ParseArg(p).Ok?
    ensures ArgBelow(ModelsFunction.ParseArg(p).value, bound)
    decreases |p|, 3
  {
    if ModelsFunction.IsFunctionString(p) {
      ParseBelow(p);
      var args := ModelsFunction.Parse(p).value.args;
      forall i | 0 <= i < |args|
        ensures ArgBelow(args[i], bound)
      {
        ArgBelowMono(args[i], |Strip(p)|, bound);
      }
    }
  }

  // ---------------------------------------------------------------------------
  // Printing: json_to_string

  /** A tree json_to_string can print: no None anywhere in it. */
  predicate Printable(n: Node)
    decreases n
  {
    match n
    case FunctionNode(_, _, args) => forall i :: 0 <= i < |args| ==> Printable(args[i])
    case ExpressionNode(_, cs) => forall i :: 0 <= i < |cs| ==> Printable(cs[i])
    case NoMatch => false
    case _ => true
  }

  /** Parser.json_to_string: a function as name(args), a reference with its sheet
      prefix only when the sheet name is truthy, a range as start:end, an
      expression as its parts joined by spaces inside parentheses, an operator
      as its symbol and a constant in decimal. A None anywhere fails with
      TypeError ("'function' in None"). */
  function JsonToString(n: Node): (r: Result<string>)
    ensures r.Ok? <==> Printable(n)
    ensures r.Err? ==> r.error == TypeError
    decreases n, 1
  {
    match n
    case FunctionNode(_, name, args) =>
      var parts :- PrintAll(args);
      Ok(name + "(" + Join(parts, ", ") + ")")
    case ReferenceNode(_, sheet, letter, row, _) =>
      Ok(ModelsReference.RefText(sheet, letter, row))
    case RangeNode(_, start, end) =>
      Ok(start + ":" + end)
    case ExpressionNode(_, cs) =>
      var parts :- PrintAll(cs);
      Ok("(" + Join(parts, " ") + ")")
    case OperatorNode(op) =>
      Ok(op)
    case ConstantNode(v) =>
      Ok(IntToString(v))
    case NoMatch =>
      Err(TypeError)
  }

  /** The printed nodes in order; the first None stops the join. */
  function PrintAll(ns: seq<Node>): (r: Result<seq<string>>)
    ensures r.Ok? <==> forall i :: 0 <= i < |ns| ==> Printable(ns[i])
    ensures r.Ok? ==> |r.value| == |ns| && forall i :: 0 <= i < |ns| ==> JsonToString(ns[i]) == Ok(r.value[i])
    ensures r.Err? ==> r.error == TypeError
    decreases ns, 0
  {
    if ns == [] then Ok([])
    else
      var first :- JsonToString(ns[0]);
      var rest :- PrintAll(ns[1..]);
      Ok([first] + rest)
  }

  /** Parser.reconstructed_formula on the formula text after "=". */
  function Reconstructed(formula: string): Result<string> {
    var tree :- ParseText(formula);
    var text :- JsonToString(tree);
    Ok("=" + text)
  }

  // ---------------------------------------------------------------------------
  // Printing and parsing leaves

  /** Text that does not start with a space and ends in a digit is its own strip
      and no function call. */
  lemma EndsInDigit(t: string)
    requires t != [] && !IsSpace(t[0]) && IsDigit(t[|t| - 1])
    ensures Strip(t) == t && !ModelsFunction.IsFunctionString(t)
  {
    StripTrimmed(t);
    ModelsFunction.NoFinalParen(t);
  }

  /** A reference prints as its text, and the text parses back to the same
      dictionary. */
  lemma ReferenceRoundTrip(v: ModelsReference.RefValue)
    requires ModelsReference.IsCellValue(v)
    ensures JsonToString(ModelsReference.RefToDict(v)) == Ok(ModelsReference.RefText(v.sheet, v.letters, v.row))
    ensures ParseText(ModelsReference.RefText(v.sheet, v.letters, v.row)) == Ok(ModelsReference.RefToDict(v))
  {
    var t := ModelsReference.RefText(v.sheet, v.letters, v.row);
    RefTextShape(v);
    ModelsReference.ParsePrinted(v);
    assert Classify(t) == ReferenceKind;
    ReferenceKindOf(t);
  }

  /** The printed reference is trimmed, is no function text and no range. */
  lemma RefTextShape(v: ModelsReference.RefValue)
    requires ModelsReference.IsCellValue(v)
    ensures var t := ModelsReference.RefText(v.sheet, v.letters, v.row);
            Strip(t) == t && !ModelsFunction.IsFunctionString(t) && !ModelsRange.IsValidRange(t)
  {
    var digits := NatToString(v.row);
    var t := ModelsReference.RefText(v.sheet, v.letters, v.row);
    assert t == ModelsReference.SheetPrefix(v.sheet) + v.letters + digits;
    assert t[|t| - 1] == digits[|digits| - 1];
    if v.sheet.Some? {
      assert t[0] == '\'';
    } else {
      assert t == v.letters + digits + [];
      ModelsRange.CellPrefixOf(v.letters, digits, []);
      assert t[0] == v.letters[0];
    }
    EndsInDigit(t);
  }

  /** A range without sheet names prints as start:end, and the text parses back
      to the same dictionary. */
  lemma RangeRoundTrip(rg: ModelsRange.CellRange)
    requires ModelsRange.Valid(rg) && rg.start.sheet.None? && rg.end.sheet.None?
    ensures JsonToString(ModelsRange.ToDict(rg)) == Ok(ModelsRange.Str(rg))
    ensures ParseText(ModelsRange.Str(rg)) == Ok(ModelsRange.ToDict(rg))
  {
    var t := ModelsRange.Str(rg);
    RangeText(rg);
    RangeKindOf(t);
  }

  lemma RangeText(rg: ModelsRange.CellRange)
    requires ModelsRange.Valid(rg) && rg.start.sheet.None? && rg.end.sheet.None?
    ensures var t := ModelsRange.Str(rg);
            Strip(t) == t && Classify(t) == RangeKind && ModelsRange.ParseRange(t) == Ok(rg)
  {
    var t := ModelsRange.Str(rg);
    assert ModelsRange.ParseRange(t) == Ok(rg) by {
      ModelsRange.ParsePrintedRange(rg, []);
      assert t + [] == t;
    }
    ModelsRange.RangeEnds(rg);
    EndsInDigit(t);
  }

  /** A natural number prints in decimal, and the digits parse back to the same
      constant. */
  lemma ConstantRoundTrip(v: nat)
    ensures JsonToString(ConstantNode(v)) == Ok(NatToString(v))
    ensures ParseText(NatToString(v)) == Ok(ConstantNode(v))
  {
    var t := NatToString(v);
    assert IsDigit(t[0]) && IsDigit(t[|t| - 1]);
    EndsInDigit(t);
    assert ModelsReference.UpperRun(t) == 0;
    assert !ModelsRange.IsValidRange(t);
    assert ModelsReference.MatchRef(t) == None;
    DigitsOfNatToString(v);
    ConstantKindOf(t);
  }

  /** A one-character operator prints as itself and parses back to an operator. */
  lemma OperatorRoundTrip(c: char)
    requires ModelsExpression.IsOperatorChar(c)
    ensures JsonToString(OperatorNode([c])) == Ok([c])
    ensures ParseText([c]) == Ok(OperatorNode([c]))
  {
    var t := [c];
    StripTrimmed(t);
    ModelsFunction.NoFinalParen(t);
    assert ModelsReference.UpperRun(t) == 0;
    assert !ModelsRange.IsValidRange(t);
    assert ModelsReference.MatchRef(t) == None;
    if ModelsExpression.IsValidExpression(t) {
      ModelsExpression.ValidIsLong(t);
    }
    OperatorKindOf(t);
  }

  // ---------------------------------------------------------------------------
  // Expression.from_dict

  /** The characters of s joined by single spaces: ' '.join over a string. */
  function Spread(s: string): (r: string)
    ensures |s| > 0 ==> |r| == 2 * |s| - 1
  {
    if |s| <= 1 then s else Spread(s[..|s| - 1]) + " " + [s[|s| - 1]]
  }

  /** The text reconstruct_expression gives one component: a nested expression
      dictionary iterates over its display string, so its characters come out
      spaced; an operator or a constant prints its value; a function or a
      reference is rebuilt with from_dict and printed; a range has no class
      "Range" for model_types to load (ImportError); None prints as "None". */
  function ReconstructPart(c: Node): (r: Result<string>)
    ensures r.Err? ==> c.FunctionNode? || c.ReferenceNode? || c.RangeNode?
    ensures c.RangeNode? ==> r == Err(ImportError)
  {
    match c
    case ExpressionNode(display, _) => Ok("(" + Spread(display) + ")")
    case OperatorNode(op) => Ok(op)
    case ConstantNode(v) => Ok(IntToString(v))
    case FunctionNode(_, _, _) =>
      var f :- ModelsFunction.FromDict(c);
      Ok(ModelsFunction.Format(f.name, f.args))
    case ReferenceNode(_, _, _, _, _) =>
      var v :- ModelsReference.FromDict(c);
      Ok(ModelsReference.RefText(v.sheet, v.letters, v.row))
    case RangeNode(_, _, _) => Err(ImportError)
    case NoMatch => Ok("None")
  }

  /** The parts in order; the first failure stops the list. */
  function ReconstructAll(cs: seq<Node>): (r: Result<seq<string>>)
    ensures r.Ok? ==> |r.value| == |cs| && forall i :: 0 <= i < |cs| ==> ReconstructPart(cs[i]) == Ok(r.value[i])
    ensures r.Err? ==> exists i :: 0 <= i < |cs| && ReconstructPart(cs[i]).Err?
  {
    if cs == [] then Ok([])
    else
      var first :- ReconstructPart(cs[0]);
      var rest :- ReconstructAll(cs[1..]);
      assert forall i :: 1 <= i < |cs| ==> cs[1..][i - 1] == cs[i];
      Ok([first] + rest)
  }

  /** Expression.from_dict on {"expression": ..., "components": cs}: the parts
      joined by spaces are parsed as a new expression. */
  function ExpressionFromDict(cs: seq<Node>): (r: Result<ModelsExpression.Expression>)
    ensures r.Ok? ==> exists parts :: ReconstructAll(cs) == Ok(parts)
                        && r == ModelsExpression.FromText(Join(parts, " "))
  {
    var parts :- ReconstructAll(cs);
    ModelsExpression.FromText(Join(parts, " "))
  }

  // ---------------------------------------------------------------------------
  // Translation: translate and recurse_translate

  /** update_column_number(column + dc) then update_row_number(row + dr) on a
      reference object: each fails with ValueError below 1, and the letters
      follow the new column. */
  function Shift(v: ModelsReference.RefValue, dc: int, dr: int): (r: Result<ModelsReference.RefValue>)
    ensures r.Ok? <==> v.column + dc >= 1 && v.row + dr >= 1
    ensures r.Err? ==> r.error == ValueError
    ensures r.Ok? ==> r.value.column == v.column + dc && r.value.row == v.row + dr && r.value.sheet == v.sheet
    ensures r.Ok? && ModelsReference.IsCellValue(v) ==> ModelsReference.IsCellValue(r.value)
  {
    if v.column + dc < 1 || v.row + dr < 1 then Err(ValueError)
    else
      Columns.IndexOfLetters(v.column + dc);
      Ok(v.(column := v.column + dc, letters := Columns.ColumnLetters(v.column + dc), row := v.row + dr))
  }

  /** A zero shift leaves a reference as it is. */
  lemma ShiftZero(v: ModelsReference.RefValue)
    requires ModelsReference.IsCellValue(v)
    ensures Shift(v, 0, 0) == Ok(v)
  {
    Columns.LettersOfIndex(v.letters);
  }

  /** Shifting back undoes a shift. */
  lemma ShiftBack(v: ModelsReference.RefValue, dc: int, dr: int)
    requires ModelsReference.IsCellValue(v) && Shift(v, dc, dr).Ok?
    ensures Shift(Shift(v, dc, dr).value, -dc, -dr) == Ok(v)
  {
    Columns.LettersOfIndex(v.letters);
  }

  /** Two shifts in a row are one shift by the sums. */
  lemma ShiftTwice(v: ModelsReference.RefValue, dc1: int, dr1: int, dc2: int, dr2: int)
    requires Shift(v, dc1, dr1).Ok?
    ensures Shift(Shift(v, dc1, dr1).value, dc2, dr2) == Shift(v, dc1 + dc2, dr1 + dr2)
  {
  }

  /** The reference branch: the display is read as a reference and moved. */
  function MoveReference(display: string, dc: int, dr: int): (r: Result<Node>)
    ensures r.Err? ==> r.error == ValueError
    ensures r.Ok? ==> r.value.ReferenceNode?
  {
    var v :- ModelsReference.ParseReference(display);
    var w :- Shift(v, dc, dr);
    Ok(ModelsReference.RefToDict(w))
  }

  /** recurse_translate on the dictionary a node stands for. A reference is
      re-read from its display and moved; a function has its arguments moved and,
      when it has any, its display recomputed through Function.from_dict; an
      expression has its components moved and its display recomputed through
      Expression.from_dict; a range fails with AttributeError (its ends are
      strings, which have no update); None fails with TypeError ("'function' in
      None"); operators and constants stay as they are. */
  function TranslateNode(n: Node, dc: int, dr: int): (r: Result<Node>)
    ensures r.Ok? ==> KindOf(r.value) == KindOf(n)
    ensures n.RangeNode? ==> r == Err(AttributeError)
    ensures n.OperatorNode? || n.ConstantNode? ==> r == Ok(n)
    decreases n, 1
  {
    match n
    case ReferenceNode(display, _, _, _, _) =>
      MoveReference(display, dc, dr)
    case FunctionNode(display, name, args) =>
      var moved :- TranslateAll(args, dc, dr);
      if moved == [] then Ok(FunctionNode(display, name, moved))
      else
        var f :- ModelsFunction.FromDict(FunctionNode(display, name, moved));
        Ok(FunctionNode(ModelsFunction.Format(f.name, f.args), name, moved))
    case ExpressionNode(_, cs) =>
      var moved :- TranslateAll(cs, dc, dr);
      var x :- ExpressionFromDict(moved);
      Ok(ExpressionNode(ModelsExpression.ExprString(x.components), moved))
    case RangeNode(_, _, _) => Err(AttributeError)
    case OperatorNode(_) => Ok(n)
    case ConstantNode(_) => Ok(n)
    case NoMatch => Err(TypeError)
  }

  /** [recurse_translate(item) for item in data]; the first failure stops the list. */
  function TranslateAll(ns: seq<Node>, dc: int, dr: int): (r: Result<seq<Node>>)
    ensures r.Ok? ==> |r.value| == |ns| && forall i {:trigger TranslateNode(ns[i], dc, dr)} :: 0 <= i < |ns| ==> TranslateNode(ns[i], dc, dr) == Ok(r.value[i])
    ensures r.Err? ==> exists i :: 0 <= i < |ns| && TranslateNode(ns[i], dc, dr).Err?
    decreases ns, 0
  {
    if ns == [] then Ok([])
    else
      var front := ns[..|ns| - 1];
      var init := TranslateAll(front, dc, dr);
      if init.Err? then
        assert exists i :: 0 <= i < |ns| && TranslateNode(ns[i], dc, dr).Err? by {
          var i :| 0 <= i < |front| && TranslateNode(front[i], dc, dr).Err?;
          assert front[i] == ns[i];
        }
        Err(init.error)
      else
        var last := TranslateNode(ns[|ns| - 1], dc, dr);
        if last.Err? then Err(last.error)
        else
          var r := init.value + [last.value];
          assert forall i :: 0 <= i < |ns| ==> TranslateNode(ns[i], dc, dr) == Ok(r[i]) by {
            forall i | 0 <= i < |ns|
              ensures TranslateNode(ns[i], dc, dr) == Ok(r[i])
            {
              if i < |front| {
                assert ns[i] == front[i] && r[i] == init.value[i];
              } else {
                assert r[i] == last.value;
              }
            }
          }
          Ok(r)
  }

  /** recurse_translate as the source runs it: every list is walked in order. */
  method RecurseTranslate(data: Node, dc: int, dr: int) returns (r: Result<Node>)
    ensures r == TranslateNode(data, dc, dr)
    decreases data, 2
  {
    match data
    case ReferenceNode(display, _, _, _, _) =>
      r := MoveReference(display, dc, dr);
    case FunctionNode(display, name, args) =>
      r := TranslateFunction(display, name, args, dc, dr);
    case ExpressionNode(display, cs) =>
      r := TranslateExpression(display, cs, dc, dr);
    case RangeNode(_, _, _) =>
      r := Err(AttributeError);
    case OperatorNode(_) =>
      r := Ok(data);
    case ConstantNode(_) =>
      r := Ok(data);
    case NoMatch =>
      r := Err(TypeError);
  }

  /** The function branch: arguments first, then from_dict and str when there are any. */
  method TranslateFunction(display: string, name: string, args: seq<Node>, dc: int, dr: int) returns (r: Result<Node>)
    ensures r == TranslateNode(FunctionNode(display, name, args), dc, dr)
    decreases FunctionNode(display, name, args), 1
  {
    var moved := TranslateEach(args, dc, dr);
    if moved.Err? {
      return Err(moved.error);
    }
    if moved.value == [] {
      return Ok(FunctionNode(display, name, []));
    }
    var f := ModelsFunction.FromDict(FunctionNode(display, name, moved.value));
    if f.Err? {
      return Err(f.error);
    }
    return Ok(FunctionNode(ModelsFunction.Format(f.value.name, f.value.args), name, moved.value));
  }

  /** The expression branch: components first, then Expression.from_dict and str. */
  method TranslateExpression(display: string, cs: seq<Node>, dc: int, dr: int) returns (r: Result<Node>)
    ensures r == TranslateNode(ExpressionNode(display, cs), dc, dr)
    decreases ExpressionNode(display, cs), 1
  {
    var moved := TranslateEach(cs, dc, dr);
    if moved.Err? {
      return Err(moved.error);
    }
    var x := ExpressionFromDict(moved.value);
    if x.Err? {
      return Err(x.error);
    }
    return Ok(ExpressionNode(ModelsExpression.ExprString(x.value.components), moved.value));
  }

  /** The list comprehension over items, in order. */
  method TranslateEach(ns: seq<Node>, dc: int, dr: int) returns (r: Result<seq<Node>>)
    ensures r == TranslateAll(ns, dc, dr)
    decreases ns, 0
  {
    var acc: seq<Node> := [];
    var k := 0;
    while k < |ns|
      invariant 0 <= k <= |ns|
      invariant TranslateAll(ns[..k], dc, dr) == Ok(acc)
    {
      assert ns[..k + 1][..k] == ns[..k];
      var item := RecurseTranslate(ns[k], dc, dr);
      if item.Err? {
        TranslateAllStops(ns, k, dc, dr);
        return Err(item.error);
      }
      acc := acc + [item.value];
      k := k + 1;
    }
    assert ns[..|ns|] == ns;
    return Ok(acc);
  }

  /** A failing item fails the whole list with its error when the items before it
      succeed. */
  lemma {:induction false} TranslateAllStops(ns: seq<Node>, k: nat, dc: int, dr: int)
    requires k < |ns| && TranslateAll(ns[..k], dc, dr).Ok? && TranslateNode(ns[k], dc, dr).Err?
    ensures TranslateAll(ns, dc, dr) == Err(TranslateNode(ns[k], dc, dr).error)
    decreases |ns|
  {
    var init := ns[..|ns| - 1];
    if k < |ns| - 1 {
      assert init[..k] == ns[..k] && init[k] == ns[k];
      TranslateAllStops(init, k, dc, dr);
    } else {
      assert init == ns[..k];
    }
  }

  // ---------------------------------------------------------------------------
  // Calls with plain arguments

  /** Plain argument texts are parsed one by one. */
  lemma ReparseTexts(texts: seq<string>, nodes: seq<Node>, bound: nat)
    requires |nodes| == |texts|
    requires forall i :: 0 <= i < |texts| ==> ArgBelow(ModelsFunction.TextArgs(texts)[i], bound)
    requires forall i :: 0 <= i < |texts| ==> ParseText(texts[i]) == Ok(nodes[i])
    ensures ReparseArgs(ModelsFunction.TextArgs(texts), bound) == Ok(nodes)
  {
    var args := ModelsFunction.TextArgs(texts);
    forall i | 0 <= i < |args|
      ensures ReparseArg(args[i], bound) == Ok(nodes[i])
    {
      assert args[i] == ModelsFunction.Text(texts[i]);
    }
    ReparseAll(args, nodes, bound);
  }

  /** Arguments that each re-parse to their node re-parse to the list of them. */
  lemma {:induction false} ReparseAll(args: seq<ModelsFunction.Arg>, nodes: seq<Node>, bound: nat)
    requires |nodes| == |args| && forall i :: 0 <= i < |args| ==> ArgBelow(args[i], bound)
    requires forall i :: 0 <= i < |args| ==> ReparseArg(args[i], bound) == Ok(nodes[i])
    ensures ReparseArgs(args, bound) == Ok(nodes)
    decreases |args|
  {
    if args != [] {
      ReparseTail(args, nodes, bound);
      ReparseAll(args[1..], nodes[1..], bound);
      ReparseCons(args, bound, nodes[0], nodes[1..]);
      assert [nodes[0]] + nodes[1..] == nodes;
    }
  }

  lemma ReparseTail(args: seq<ModelsFunction.Arg>, nodes: seq<Node>, bound: nat)
    requires args != [] && |nodes| == |args| && forall i :: 0 <= i < |args| ==> ArgBelow(args[i], bound)
    requires forall i :: 0 <= i < |args| ==> ReparseArg(args[i], bound) == Ok(nodes[i])
    ensures forall i :: 0 <= i < |args[1..]| ==> ArgBelow(args[1..][i], bound)
    ensures forall i :: 0 <= i < |args[1..]| ==> ReparseArg(args[1..][i], bound) == Ok(nodes[1..][i])
  {
    forall i | 0 <= i < |args[1..]|
      ensures ArgBelow(args[1..][i], bound) && ReparseArg(args[1..][i], bound) == Ok(nodes[1..][i])
    {
      assert args[1..][i] == args[i + 1] && nodes[1..][i] == nodes[i + 1];
    }
  }

  /** The first argument's node before the nodes of the rest. */
  lemma ReparseCons(args: seq<ModelsFunction.Arg>, bound: nat, first: Node, rest: seq<Node>)
    requires args != [] && forall i :: 0 <= i < |args| ==> ArgBelow(args[i], bound)
    requires ReparseArg(args[0], bound) == Ok(first) && ReparseArgs(args[1..], bound) == Ok(rest)
    ensures ReparseArgs(args, bound) == Ok([first] + rest)
  {
  }

  lemma TextArgsBelow(texts: seq<string>, bound: nat)
    requires forall i :: 0 <= i < |texts| ==> |texts[i]| < bound
    ensures forall i :: 0 <= i < |texts| ==> ArgBelow(ModelsFunction.TextArgs(texts)[i], bound)
  {
  }

  /** A call whose arguments are plain texts that parse becomes a function node
      with the call as its display and the parsed arguments in order. */
  lemma ParseCall(name: string, texts: seq<string>)
    requires ModelsFunction.IsName(name)
    requires forall i :: 0 <= i < |texts| ==> ModelsFunction.PlainArg(texts[i]) && ParseText(texts[i]).Ok?
    ensures var e := ModelsFunction.Format(name, ModelsFunction.TextArgs(texts));
            ParseText(e).Ok? && ParseText(e).value.FunctionNode?
            && ParseText(e).value.display == e && ParseText(e).value.name == name
            && |ParseText(e).value.arguments| == |texts|
            && forall i :: 0 <= i < |texts| ==> ParseText(e).value.arguments[i] == ParseText(texts[i]).value
  {
    var e := ModelsFunction.Format(name, ModelsFunction.TextArgs(texts));
    CallText(name, texts);
    TextArgsBelow(texts, |e|);
    var nodes := seq(|texts|, i requires 0 <= i < |texts| => ParseText(texts[i]).value);
    ReparseTexts(texts, nodes, |e|);
    assert ParseText(e) == FunctionText(e);
  }

  lemma CallText(name: string, texts: seq<string>)
    requires ModelsFunction.IsName(name)
    requires forall i :: 0 <= i < |texts| ==> ModelsFunction.PlainArg(texts[i])
    ensures var args := ModelsFunction.TextArgs(texts);
            var e := ModelsFunction.Format(name, args);
            Strip(e) == e && Classify(e) == FunctionKind
            && ModelsFunction.Parse(e) == Ok(ModelsFunction.FunctionValue(name, args))
            && forall i :: 0 <= i < |texts| ==> |texts[i]| < |e|
  {
    var args := ModelsFunction.TextArgs(texts);
    var e := ModelsFunction.Format(name, args);
    ModelsFunction.ParseFormatted(name, texts);
    assert e[0] == name[0] && e[|e| - 1] == ')';
    StripTrimmed(e);
    assert seq(|args|, i requires 0 <= i < |args| => ModelsFunction.FormatArg(args[i])) == texts;
    forall i | 0 <= i < |texts|
      ensures |texts[i]| < |e|
    {
      JoinLength(texts, ", ", i);
    }
  }

  /** Every part of a join is at most as long as the join. */
  lemma {:induction false} JoinLength(parts: seq<string>, sep: string, i: nat)
    requires i < |parts|
    ensures |parts[i]| <= |Join(parts, sep)|
    decreases |parts|
  {
    if i < |parts| - 1 {
      JoinLength(parts[..|parts| - 1], sep, i);
    }
  }

  // ---------------------------------------------------------------------------
  // The function display after a translation

  /** recurse_translate with the function display rebuilt from the printed
      arguments (json_to_string of each), the text json_to_string prints for the
      moved call; everything else as in TranslateNode. */
  function TranslateFixed(n: Node, dc: int, dr: int): (r: Result<Node>)
    ensures r.Ok? ==> KindOf(r.value) == KindOf(n)
    ensures r.Ok? && r.value.FunctionNode? && r.value.arguments != [] ==> JsonToString(r.value) == Ok(r.value.display)
    decreases n, 1
  {
    match n
    case ReferenceNode(display, _, _, _, _) =>
      MoveReference(display, dc, dr)
    case FunctionNode(display, name, args) =>
      var moved :- TranslateAllFixed(args, dc, dr);
      if moved == [] then Ok(FunctionNode(display, name, moved))
      else
        var parts :- PrintAll(moved);
        Ok(FunctionNode(name + "(" + Join(parts, ", ") + ")", name, moved))
    case ExpressionNode(_, cs) =>
      var moved :- TranslateAllFixed(cs, dc, dr);
      var x :- ExpressionFromDict(moved);
      Ok(ExpressionNode(ModelsExpression.ExprString(x.components), moved))
    case RangeNode(_, _, _) => Err(AttributeError)
    case OperatorNode(_) => Ok(n)
    case ConstantNode(_) => Ok(n)
    case NoMatch => Err(TypeError)
  }

  function TranslateAllFixed(ns: seq<Node>, dc: int, dr: int): (r: Result<seq<Node>>)
    ensures r.Ok? ==> |r.value| == |ns| && forall i {:trigger TranslateFixed(ns[i], dc, dr)} :: 0 <= i < |ns| ==> TranslateFixed(ns[i], dc, dr) == Ok(r.value[i])
    decreases ns, 0
  {
    if ns == [] then Ok([])
    else
      var init :- TranslateAllFixed(ns[..|ns| - 1], dc, dr);
      var last :- TranslateFixed(ns[|ns| - 1], dc, dr);
      Ok(init + [last])
  }

  lemma TranslateOne(n: Node, dc: int, dr: int)
    requires TranslateNode(n, dc, dr).Ok?
    ensures TranslateAll([n], dc, dr) == Ok([TranslateNode(n, dc, dr).value])
  {
    assert [n][..0] == [];
    assert TranslateAll([], dc, dr) == Ok([]);
    assert [n][|[n]| - 1] == n;
    var r := TranslateNode(n, dc, dr).value;
    assert [] + [r] == [r];
  }

  /** As written, Function.from_dict prints every argument that is not a function
      as a Python dictionary, so a call with a constant argument gets the
      dictionary text as its display after any translation; the fixed
      translation keeps the call as json_to_string prints it. */
  lemma TranslateConstantArgument(display: string, name: string, v: int, dc: int, dr: int)
    requires ModelsFunction.IsName(name)
    ensures TranslateNode(FunctionNode(display, name, [ConstantNode(v)]), dc, dr)
            == Ok(FunctionNode(name + "(" + Nodes.Repr(ConstantNode(v)) + ")", name, [ConstantNode(v)]))
    ensures TranslateFixed(FunctionNode(display, name, [ConstantNode(v)]), dc, dr)
            == Ok(FunctionNode(name + "(" + IntToString(v) + ")", name, [ConstantNode(v)]))
    ensures name + "(" + Nodes.Repr(ConstantNode(v)) + ")" != name + "(" + IntToString(v) + ")"
  {
    ConstantArgumentAsWritten(display, name, v, dc, dr);
    ConstantArgumentFixed(display, name, v, dc, dr);
    ConstantDisplaysDiffer(name, v);
  }

  /** The as-written half: the display becomes the call over the dictionary text. */
  lemma ConstantArgumentAsWritten(display: string, name: string, v: int, dc: int, dr: int)
    requires ModelsFunction.IsName(name)
    ensures TranslateNode(FunctionNode(display, name, [ConstantNode(v)]), dc, dr)
            == Ok(FunctionNode(name + "(" + Nodes.Repr(ConstantNode(v)) + ")", name, [ConstantNode(v)]))
  {
    var c := ConstantNode(v);
    var t := Nodes.Repr(c);
    TranslateOne(c, dc, dr);
    ModelsFunction.ConstantArgumentBecomesText(display, name, v);
    var args := [ModelsFunction.Text(t)];
    assert ModelsFunction.Format(name, args) == name + "(" + t + ")" by {
      assert seq(|args|, i requires 0 <= i < |args| => ModelsFunction.FormatArg(args[i])) == [t];
    }
  }

  /** The corrected half: the display is the call over the number. */
  lemma ConstantArgumentFixed(display: string, name: string, v: int, dc: int, dr: int)
    ensures TranslateFixed(FunctionNode(display, name, [ConstantNode(v)]), dc, dr)
            == Ok(FunctionNode(name + "(" + IntToString(v) + ")", name, [ConstantNode(v)]))
  {
    var c := ConstantNode(v);
    var x := IntToString(v);
    assert TranslateFixed(c, dc, dr) == Ok(c);
    TranslateAllFixedOne(c, c, dc, dr);
    assert JsonToString(c) == Ok(x);
    PrintOne(c, x);
    JoinOne(x, ", ");
    FixedCallOf(display, name, [c], [c], [x], dc, dr);
  }

  /** A function node whose arguments move and print is redisplayed from the printed arguments. */
  lemma FixedCallOf(display: string, name: string, args: seq<Node>, moved: seq<Node>, parts: seq<string>, dc: int, dr: int)
    requires TranslateAllFixed(args, dc, dr) == Ok(moved) && moved != [] && PrintAll(moved) == Ok(parts)
    ensures TranslateFixed(FunctionNode(display, name, args), dc, dr)
            == Ok(FunctionNode(name + "(" + Join(parts, ", ") + ")", name, moved))
  {
  }

  lemma PrintOne(c: Node, x: string)
    requires JsonToString(c) == Ok(x)
    ensures PrintAll([c]) == Ok([x])
  {
    assert [c][1..] == [] && [c][0] == c;
    assert [x] + [] == [x];
  }

  lemma JoinOne(x: string, sep: string)
    ensures Join([x], sep) == x
  {
    JoinSnoc([], x, sep);
    assert [] + [x] == [x];
  }

  /** The two displays differ at the character after "(": a brace against a digit or sign. */
  lemma ConstantDisplaysDiffer(name: string, v: int)
    ensures name + "(" + Nodes.Repr(ConstantNode(v)) + ")" != name + "(" + IntToString(v) + ")"
  {
    var t := Nodes.Repr(ConstantNode(v));
    var bad := name + "(" + t + ")";
    var good := name + "(" + IntToString(v) + ")";
    assert bad[|name| + 1] == t[0] == '{';
    assert good[|name| + 1] == IntToString(v)[0];
  }

  // ---------------------------------------------------------------------------
  // Moving "=SUM(A1, B2)" from A1 to C3

  /** The dictionary of a reference without a sheet. */
  function CellNode(letters: string, row: int, column: int): Node {
    ModelsReference.RefToDict(ModelsReference.RefValue(None, letters, row, column))
  }

  /** A reference without a sheet round-trips through its text. */
  lemma CellRoundTrip(letters: string, row: int, column: int, t: string)
    requires letters != [] && AllUpper(letters) && row >= 1 && column == Columns.ColumnIndex(letters)
    requires t == letters + NatToString(row)
    ensures JsonToString(CellNode(letters, row, column)) == Ok(t)
    ensures ParseText(t) == Ok(CellNode(letters, row, column))
  {
    var v := ModelsReference.RefValue(None, letters, row, column);
    assert ModelsReference.RefText(None, letters, row) == t;
    ReferenceRoundTrip(v);
  }

  /** A call of two plain arguments that parse is a function node of the two
      parsed arguments. */
  lemma ParsePair(name: string, a: string, b: string)
    requires ModelsFunction.IsName(name)
    requires ModelsFunction.PlainArg(a) && ParseText(a).Ok?
    requires ModelsFunction.PlainArg(b) && ParseText(b).Ok?
    ensures ParseText(name + "(" + a + ", " + b + ")")
            == Ok(FunctionNode(name + "(" + a + ", " + b + ")", name, [ParseText(a).value, ParseText(b).value]))
  {
    var texts := [a, b];
    var e := name + "(" + a + ", " + b + ")";
    ModelsFunction.FormatPair(name, a, b);
    PairTexts(a, b);
    ParseCall(name, texts);
    PairNode(ParseText(e).value, e, name, texts, ParseText(a).value, ParseText(b).value);
  }

  lemma PairTexts(a: string, b: string)
    requires ModelsFunction.PlainArg(a) && ParseText(a).Ok?
    requires ModelsFunction.PlainArg(b) && ParseText(b).Ok?
    ensures forall i :: 0 <= i < |[a, b]| ==> ModelsFunction.PlainArg([a, b][i]) && ParseText([a, b][i]).Ok?
  {
    BothOfPair(t => ModelsFunction.PlainArg(t) && ParseText(t).Ok?, a, b);
  }

  lemma BothOfPair(p: string -> bool, a: string, b: string)
    requires p(a) && p(b)
    ensures forall i :: 0 <= i < |[a, b]| ==> p([a, b][i])
  {
    var texts := [a, b];
    assert texts[0] == a && texts[1] == b;
  }

  /** A function node read from two argument texts is the node of the two parses. */
  lemma PairNode(n: Node, e: string, name: string, texts: seq<string>, x: Node, y: Node)
    requires |texts| == 2 && ParseText(texts[0]) == Ok(x) && ParseText(texts[1]) == Ok(y)
    requires n.FunctionNode? && n.display == e && n.name == name && |n.arguments| == |texts|
    requires forall i :: 0 <= i < |texts| ==> ParseText(texts[i]).Ok? && n.arguments[i] == ParseText(texts[i]).value
    ensures n == FunctionNode(e, name, [x, y])
  {
    var args := n.arguments;
    assert args[0] == x by { assert 0 < |texts|; }
    assert args[1] == y by { assert 1 < |texts|; }
    PairOf(args, x, y);
  }

  lemma PairOf(s: seq<Node>, x: Node, y: Node)
    requires |s| == 2 && s[0] == x && s[1] == y
    ensures s == [x, y]
  {
  }

  /** "SUM(A1, B2)" parses to SUM of the two references, in order. */
  lemma ParseSum()
    ensures ParseText("SUM(A1, B2)")
            == Ok(FunctionNode("SUM(A1, B2)", "SUM", [CellNode("A", 1, 1), CellNode("B", 2, 2)]))
  {
    SumCellsParse();
    SumArguments();
    ParsePair("SUM", "A1", "B2");
    SumDisplays();
  }

  lemma SumCellsParse()
    ensures ParseText("A1") == Ok(CellNode("A", 1, 1))
    ensures ParseText("B2") == Ok(CellNode("B", 2, 2))
  {
    ParseCellA1();
    ParseCellB2();
  }

  lemma ParseCellA1()
    ensures ParseText("A1") == Ok(CellNode("A", 1, 1))
  {
    SumCellTexts();
    CellRoundTrip("A", 1, 1, "A1");
  }

  lemma ParseCellB2()
    ensures ParseText("B2") == Ok(CellNode("B", 2, 2))
  {
    SumCellTexts();
    CellRoundTrip("B", 2, 2, "B2");
  }

  lemma SumCellTexts()
    ensures "A1" == "A" + NatToString(1) && "B2" == "B" + NatToString(2)
    ensures "C3" == "C" + NatToString(3) && "D4" == "D" + NatToString(4)
    ensures Columns.ColumnIndex("A") == 1 && Columns.ColumnIndex("B") == 2
    ensures Columns.ColumnIndex("C") == 3 && Columns.ColumnIndex("D") == 4
  {
  }

  lemma SumArguments()
    ensures ModelsFunction.IsName("SUM") && ModelsFunction.PlainArg("A1") && ModelsFunction.PlainArg("B2")
  {
  }

  lemma SumDisplays()
    ensures "SUM" + "(" + "A1" + ", " + "B2" + ")" == "SUM(A1, B2)"
    ensures "SUM" + "(" + "C3" + ", " + "D4" + ")" == "SUM(C3, D4)"
  {
  }

  /** A reference without a sheet moved by (dc, dr). */
  lemma MoveCell(letters: string, row: int, column: int, dc: int, dr: int, moved: string)
    requires letters != [] && AllUpper(letters) && row >= 1 && column == Columns.ColumnIndex(letters)
    requires column + dc >= 1 && row + dr >= 1 && moved == Columns.ColumnLetters(column + dc)
    ensures TranslateFixed(CellNode(letters, row, column), dc, dr) == Ok(CellNode(moved, row + dr, column + dc))
    ensures TranslateNode(CellNode(letters, row, column), dc, dr) == Ok(CellNode(moved, row + dr, column + dc))
  {
    var n := CellNode(letters, row, column);
    MoveCellText(letters, row, column, dc, dr, moved);
    assert TranslateFixed(n, dc, dr) == MoveReference(n.display, dc, dr);
    assert TranslateNode(n, dc, dr) == MoveReference(n.display, dc, dr);
  }

  lemma MoveCellText(letters: string, row: int, column: int, dc: int, dr: int, moved: string)
    requires letters != [] && AllUpper(letters) && row >= 1 && column == Columns.ColumnIndex(letters)
    requires column + dc >= 1 && row + dr >= 1 && moved == Columns.ColumnLetters(column + dc)
    ensures MoveReference(ModelsReference.RefText(None, letters, row), dc, dr) == Ok(CellNode(moved, row + dr, column + dc))
  {
    var v := ModelsReference.RefValue(None, letters, row, column);
    var w := ModelsReference.RefValue(None, moved, row + dr, column + dc);
    ShiftCell(v, dc, dr, w);
    MoveCellValue(v, w, dc, dr);
  }

  lemma MoveCellValue(v: ModelsReference.RefValue, w: ModelsReference.RefValue, dc: int, dr: int)
    requires ModelsReference.IsCellValue(v) && v.sheet.None? && Shift(v, dc, dr) == Ok(w)
    ensures MoveReference(ModelsReference.RefText(None, v.letters, v.row), dc, dr) == Ok(ModelsReference.RefToDict(w))
  {
    ModelsReference.ParsePrinted(v);
    MoveParsedValue(ModelsReference.RefText(None, v.letters, v.row), v, w, dc, dr);
  }

  lemma ShiftCell(v: ModelsReference.RefValue, dc: int, dr: int, w: ModelsReference.RefValue)
    requires v.column + dc >= 1 && v.row + dr >= 1
    requires w == v.(column := v.column + dc, letters := Columns.ColumnLetters(v.column + dc), row := v.row + dr)
    ensures Shift(v, dc, dr) == Ok(w)
  {
  }

  lemma MoveParsedValue(display: string, v: ModelsReference.RefValue, w: ModelsReference.RefValue, dc: int, dr: int)
    requires ModelsReference.ParseReference(display) == Ok(v) && Shift(v, dc, dr) == Ok(w)
    ensures MoveReference(display, dc, dr) == Ok(ModelsReference.RefToDict(w))
  {
  }

  /** A call of two arguments that both move and print: the fixed translation
      moves both and prints the call from them. */
  lemma TranslatePairFixed(display: string, name: string, a: Node, b: Node, dc: int, dr: int, x: string, y: string)
    requires TranslateFixed(a, dc, dr).Ok? && TranslateFixed(b, dc, dr).Ok?
    requires JsonToString(TranslateFixed(a, dc, dr).value) == Ok(x)
    requires JsonToString(TranslateFixed(b, dc, dr).value) == Ok(y)
    ensures TranslateFixed(FunctionNode(display, name, [a, b]), dc, dr)
            == Ok(FunctionNode(name + "(" + x + ", " + y + ")", name,
                               [TranslateFixed(a, dc, dr).value, TranslateFixed(b, dc, dr).value]))
  {
    var c := TranslateFixed(a, dc, dr).value;
    var d := TranslateFixed(b, dc, dr).value;
    TranslateAllPair(a, b, c, d, dc, dr);
    PrintPair(c, d, x, y);
    JoinPair(x, y, ", ");
    var n := FunctionNode(display, name, [a, b]);
    assert TranslateFixed(n, dc, dr) == Ok(FunctionNode(name + "(" + Join([x, y], ", ") + ")", name, [c, d]));
    CallParts(name, x, y);
  }

  lemma TranslateAllPair(a: Node, b: Node, c: Node, d: Node, dc: int, dr: int)
    requires TranslateFixed(a, dc, dr) == Ok(c) && TranslateFixed(b, dc, dr) == Ok(d)
    ensures TranslateAllFixed([a, b], dc, dr) == Ok([c, d])
  {
    TranslateAllFixedOne(a, c, dc, dr);
    TranslateAllFixedSnoc([a], b, [c], d, dc, dr);
    assert [a] + [b] == [a, b] && [c] + [d] == [c, d];
  }

  lemma TranslateAllFixedOne(a: Node, c: Node, dc: int, dr: int)
    requires TranslateFixed(a, dc, dr) == Ok(c)
    ensures TranslateAllFixed([a], dc, dr) == Ok([c])
  {
    var none: seq<Node> := [];
    assert TranslateAllFixed(none, dc, dr) == Ok([]);
    TranslateAllFixedSnoc(none, a, [], c, dc, dr);
    assert none + [a] == [a] && [] + [c] == [c];
  }

  /** One more node translates to one more result. */
  lemma TranslateAllFixedSnoc(ns: seq<Node>, n: Node, xs: seq<Node>, x: Node, dc: int, dr: int)
    requires TranslateAllFixed(ns, dc, dr) == Ok(xs) && TranslateFixed(n, dc, dr) == Ok(x)
    ensures TranslateAllFixed(ns + [n], dc, dr) == Ok(xs + [x])
  {
    assert (ns + [n])[..|ns|] == ns && (ns + [n])[|ns|] == n;
  }

  lemma PrintPair(c: Node, d: Node, x: string, y: string)
    requires JsonToString(c) == Ok(x) && JsonToString(d) == Ok(y)
    ensures PrintAll([c, d]) == Ok([x, y])
  {
    assert PrintAll([d]) == Ok([y]) by {
      assert [d][1..] == [];
      assert [y] + [] == [y];
    }
    assert [c, d][1..] == [d];
    assert [x] + [y] == [x, y];
  }

  lemma CallParts(name: string, x: string, y: string)
    ensures name + "(" + (x + ", " + y) + ")" == name + "(" + x + ", " + y + ")"
  {
  }

  /** Moving the parse of "SUM(A1, B2)" by two columns and two rows, with the
      display rebuilt from the moved arguments, gives the expected output
      SUM(C3, D4) with references C3 (column 3, row 3) and D4 (column 4, row 4). */
  lemma TranslateSumFixed()
    ensures TranslateFixed(FunctionNode("SUM(A1, B2)", "SUM", [CellNode("A", 1, 1), CellNode("B", 2, 2)]), 2, 2)
            == Ok(FunctionNode("SUM(C3, D4)", "SUM", [CellNode("C", 3, 3), CellNode("D", 4, 4)]))
  {
    SumCellsMove();
    SumCellsPrint();
    TranslatePairFixed("SUM(A1, B2)", "SUM", CellNode("A", 1, 1), CellNode("B", 2, 2), 2, 2, "C3", "D4");
    SumDisplays();
  }

  lemma SumCellsMove()
    ensures TranslateFixed(CellNode("A", 1, 1), 2, 2) == Ok(CellNode("C", 3, 3))
    ensures TranslateFixed(CellNode("B", 2, 2), 2, 2) == Ok(CellNode("D", 4, 4))
  {
    MoveCellA1();
    MoveCellB2();
  }

  lemma MoveCellA1()
    ensures TranslateFixed(CellNode("A", 1, 1), 2, 2) == Ok(CellNode("C", 3, 3))
    ensures TranslateNode(CellNode("A", 1, 1), 2, 2) == Ok(CellNode("C", 3, 3))
  {
    SumCellTexts();
    MoveCell("A", 1, 1, 2, 2, "C");
  }

  lemma MoveCellB2()
    ensures TranslateFixed(CellNode("B", 2, 2), 2, 2) == Ok(CellNode("D", 4, 4))
    ensures TranslateNode(CellNode("B", 2, 2), 2, 2) == Ok(CellNode("D", 4, 4))
  {
    SumCellTexts();
    MoveCell("B", 2, 2, 2, 2, "D");
  }

  lemma SumCellsPrint()
    ensures JsonToString(CellNode("C", 3, 3)) == Ok("C3")
    ensures JsonToString(CellNode("D", 4, 4)) == Ok("D4")
  {
    PrintCellC3();
    PrintCellD4();
  }

  lemma PrintCellC3()
    ensures JsonToString(CellNode("C", 3, 3)) == Ok("C3")
  {
    SumCellTexts();
    CellRoundTrip("C", 3, 3, "C3");
  }

  lemma PrintCellD4()
    ensures JsonToString(CellNode("D", 4, 4)) == Ok("D4")
  {
    SumCellTexts();
    CellRoundTrip("D", 4, 4, "D4");
  }

  // ---------------------------------------------------------------------------
  // Counting keys: get_all_keys_with_counts

  /** The dictionary a node stands for, as the key traversal sees it: the kind
      key, and a "components" dictionary or list; None is no dictionary. */
  function ToValue(n: Node): (v: DictKeys.Value)
    ensures v.Dict? <==> !n.NoMatch?
    decreases n, 1
  {
    match n
    case FunctionNode(_, _, args) =>
      DictKeys.Dict([DictKeys.Entry("function", DictKeys.Scalar),
                     DictKeys.Entry("components", DictKeys.Dict([DictKeys.Entry("name", DictKeys.Scalar),
                                                                 DictKeys.Entry("arguments", DictKeys.List(ToValues(args)))]))])
    case ReferenceNode(_, _, _, _, _) =>
      DictKeys.Dict([DictKeys.Entry("reference", DictKeys.Scalar),
                     DictKeys.Entry("components", DictKeys.Dict(DictKeys.Flat(ReferenceComponentKeys)))])
    case RangeNode(_, _, _) =>
      DictKeys.Dict([DictKeys.Entry("range", DictKeys.Scalar),
                     DictKeys.Entry("components", DictKeys.Dict(DictKeys.Flat(["start", "end"])))])
    case ExpressionNode(_, cs) =>
      DictKeys.Dict([DictKeys.Entry("expression", DictKeys.Scalar), DictKeys.Entry("components", DictKeys.List(ToValues(cs)))])
    case OperatorNode(_) => DictKeys.Dict(DictKeys.Flat(["operator"]))
    case ConstantNode(_) => DictKeys.Dict(DictKeys.Flat(["constant"]))
    case NoMatch => DictKeys.Scalar
  }

  const ReferenceComponentKeys: seq<string> := ["sheet_name", "column_letter", "row_number", "column_number"]

  function ToValues(ns: seq<Node>): (vs: seq<DictKeys.Value>)
    ensures |vs| == |ns|
    decreases ns, 0
  {
    if ns == [] then [] else ToValues(ns[..|ns| - 1]) + [ToValue(ns[|ns| - 1])]
  }

  /** The acceptable keys: the node kinds and "arguments", or the label alone
      when one is given (an empty label counts as none). */
  function Acceptable(tag: Option<string>): (keys: set<string>)
    ensures tag.Some? && tag.value != [] ==> keys == {tag.value}
    ensures tag.None? || tag.value == [] ==> "arguments" in keys && "components" !in keys
  {
    if tag.Some? && tag.value != [] then {tag.value}
    else {"function", "arguments", "expression", "range", "reference", "constant", "operator"}
  }

  /** Parser.get_all_keys_with_counts(d, keys_count, label). */
  method GetAllKeysWithCounts(d: Node, keysCount: Option<map<string, int>>, tag: Option<string>)
    returns (r: Result<map<string, int>>)
    ensures d.NoMatch? ==> r == Err(AttributeError)
    ensures !d.NoMatch? ==> r == Ok(DictKeys.KeyCounts(if keysCount.Some? then keysCount.value else map[],
                                                       Acceptable(tag), DictKeys.Keys(ToValue(d))))
  {
    r := DictKeys.CountAll(ToValue(d), keysCount, Acceptable(tag));
  }

  lemma ToValuesInit(ns: seq<Node>)
    requires ns != []
    ensures ToValues(ns)[..|ns| - 1] == ToValues(ns[..|ns| - 1])
    ensures ToValues(ns)[|ns| - 1] == ToValue(ns[|ns| - 1])
  {
  }

  /** Every function dictionary holds exactly one "arguments" key, so the two
      counts agree in every tree. */
  lemma {:induction false} ArgumentsPerFunction(n: Node)
    ensures DictKeys.Keys(ToValue(n))["arguments"] == DictKeys.Keys(ToValue(n))["function"]
    decreases n, 1
  {
    match n
    case FunctionNode(_, _, args) =>
      ArgumentsPerFunctionAll(args);
      assert DictKeys.Keys(ToValue(n)) == multiset{"function", "components", "name", "arguments"} + DictKeys.ItemKeys(ToValues(args)) by {
        ReduceFunctionKeys(n);
      }
    case ExpressionNode(_, cs) =>
      ArgumentsPerFunctionAll(cs);
      assert DictKeys.Keys(ToValue(n)) == multiset{"expression", "components"} + DictKeys.ItemKeys(ToValues(cs)) by {
        ReduceExpressionKeys(n);
      }
    case _ =>
      LeafKeys(n);
  }

  lemma {:induction false} ArgumentsPerFunctionAll(ns: seq<Node>)
    ensures DictKeys.ItemKeys(ToValues(ns))["arguments"] == DictKeys.ItemKeys(ToValues(ns))["function"]
    decreases ns, 0
  {
    if ns != [] {
      ToValuesInit(ns);
      ArgumentsPerFunctionAll(ns[..|ns| - 1]);
      ArgumentsPerFunction(ns[|ns| - 1]);
    }
  }

  lemma ReduceFunctionKeys(n: Node)
    requires n.FunctionNode?
    ensures DictKeys.Keys(ToValue(n)) == multiset{"function", "components", "name", "arguments"} + DictKeys.ItemKeys(ToValues(n.arguments))
  {
    var inner := ToValue(n).entries[1].value.entries;
    DictKeys.PairKeys(inner[0], inner[1]);
    DictKeys.PairKeys(ToValue(n).entries[0], ToValue(n).entries[1]);
  }

  lemma ReduceExpressionKeys(n: Node)
    requires n.ExpressionNode?
    ensures DictKeys.Keys(ToValue(n)) == multiset{"expression", "components"} + DictKeys.ItemKeys(ToValues(n.components))
  {
    DictKeys.PairKeys(ToValue(n).entries[0], ToValue(n).entries[1]);
  }

  /** A leaf holds no "function" and no "arguments" key. */
  lemma LeafKeys(n: Node)
    requires !n.FunctionNode? && !n.ExpressionNode?
    ensures DictKeys.Keys(ToValue(n))["arguments"] == 0 && DictKeys.Keys(ToValue(n))["function"] == 0
  {
    match n
    case ReferenceNode(_, _, _, _, _) =>
      ReferenceKeys(n);
    case RangeNode(_, _, _) =>
      RangeKeys(n);
    case OperatorNode(_) =>
      OperatorKeys(n);
    case ConstantNode(_) =>
      ConstantKeys(n);
    case NoMatch =>
  }

  lemma ReferenceKeys(n: Node)
    requires n.ReferenceNode?
    ensures DictKeys.Keys(ToValue(n)) == multiset{"reference", "components"} + multiset(ReferenceComponentKeys)
    ensures DictKeys.Keys(ToValue(n))["arguments"] == 0 && DictKeys.Keys(ToValue(n))["function"] == 0
  {
    DictKeys.TaggedFlatKeys("reference", ReferenceComponentKeys);
    ReferenceKeyNames();
  }

  lemma ReferenceKeyNames()
    ensures (multiset{"reference", "components"} + multiset(ReferenceComponentKeys))["arguments"] == 0
    ensures (multiset{"reference", "components"} + multiset(ReferenceComponentKeys))["function"] == 0
  {
    assert "arguments"[0] != "reference"[0];
    assert "arguments" !in ReferenceComponentKeys && "function" !in ReferenceComponentKeys;
  }

  lemma RangeKeys(n: Node)
    requires n.RangeNode?
    ensures DictKeys.Keys(ToValue(n)) == multiset{"range", "components", "start", "end"}
    ensures DictKeys.Keys(ToValue(n))["arguments"] == 0 && DictKeys.Keys(ToValue(n))["function"] == 0
  {
    DictKeys.TaggedFlatKeys("range", ["start", "end"]);
    RangeKeyNames();
  }

  lemma RangeKeyNames()
    ensures multiset{"range", "components"} + multiset(["start", "end"]) == multiset{"range", "components", "start", "end"}
    ensures multiset{"range", "components", "start", "end"}["arguments"] == 0
    ensures multiset{"range", "components", "start", "end"}["function"] == 0
  {
    assert "arguments"[0] != "range"[0] && "arguments"[0] != "components"[0];
    assert "arguments"[0] != "start"[0] && "arguments"[0] != "end"[0];
  }

  lemma OperatorKeys(n: Node)
    requires n.OperatorNode?
    ensures DictKeys.Keys(ToValue(n))["arguments"] == 0 && DictKeys.Keys(ToValue(n))["function"] == 0
  {
    DictKeys.FlatKeys(["operator"]);
    assert "function"[0] != "operator"[0];
  }

  lemma ConstantKeys(n: Node)
    requires n.ConstantNode?
    ensures DictKeys.Keys(ToValue(n))["arguments"] == 0 && DictKeys.Keys(ToValue(n))["function"] == 0
  {
    DictKeys.FlatKeys(["constant"]);
    assert "function"[0] != "constant"[0];
  }

  /** The keys of a function node of two arguments. */
  lemma CallOfTwoKeys(d: string, name: string, x: Node, y: Node)
    requires !x.NoMatch? && !y.NoMatch?
    ensures DictKeys.Keys(ToValue(FunctionNode(d, name, [x, y])))
            == multiset{"function", "components", "name", "arguments"} + DictKeys.Keys(ToValue(x)) + DictKeys.Keys(ToValue(y))
  {
    var n := FunctionNode(d, name, [x, y]);
    ReduceFunctionKeys(n);
    ToValuesPair(x, y);
    DictKeys.ItemPairKeys(ToValue(x), ToValue(y));
  }

  lemma ToValuesPair(x: Node, y: Node)
    ensures ToValues([x, y]) == [ToValue(x), ToValue(y)]
  {
    assert [x, y][..1] == [x];
    assert [x][..0] == [];
  }

  /** The keys met in SUM(A1, MAX(B1, C1)): two function dictionaries, each with
      its "arguments", and three references. */
  lemma SumMaxKeys(d1: string, d2: string, a: Node, b: Node, c: Node)
    requires a.ReferenceNode? && b.ReferenceNode? && c.ReferenceNode?
    ensures var f := multiset{"function", "components", "name", "arguments"};
            var r := multiset{"reference", "components"} + multiset(ReferenceComponentKeys);
            DictKeys.Keys(ToValue(FunctionNode(d1, "SUM", [a, FunctionNode(d2, "MAX", [b, c])])))
            == f + r + (f + r + r)
  {
    ReferenceKeys(a);
    ReferenceKeys(b);
    ReferenceKeys(c);
    CallOfTwoKeys(d2, "MAX", b, c);
    CallOfTwoKeys(d1, "SUM", a, FunctionNode(d2, "MAX", [b, c]));
  }

  /** get_all_keys_with_counts on the parse of =SUM(A1, MAX(B1, C1)) gives
      {'function': 2, 'arguments': 2, 'reference': 3}. */
  lemma SumMaxKeyCounts(d1: string, d2: string, a: Node, b: Node, c: Node)
    requires a.ReferenceNode? && b.ReferenceNode? && c.ReferenceNode?
    ensures DictKeys.KeyCounts(map[], Acceptable(None),
                               DictKeys.Keys(ToValue(FunctionNode(d1, "SUM", [a, FunctionNode(d2, "MAX", [b, c])]))))
            == map["function" := 2, "arguments" := 2, "reference" := 3]
  {
    SumMaxKeys(d1, d2, a, b, c);
    DefaultCounts();
  }

  lemma DefaultCounts()
    ensures var f := multiset{"function", "components", "name", "arguments"};
            var r := multiset{"reference", "components"} + multiset(ReferenceComponentKeys);
            DictKeys.KeyCounts(map[], Acceptable(None), f + r + (f + r + r))
            == map["function" := 2, "arguments" := 2, "reference" := 3]
  {
    var f := multiset{"function", "components", "name", "arguments"};
    var r := multiset{"reference", "components"} + multiset(ReferenceComponentKeys);
    var found := f + r + (f + r + r);
    FoundCounts(f, r);
    CountsOfFound(found);
  }

  lemma FoundCounts(f: multiset<string>, r: multiset<string>)
    requires f == multiset{"function", "components", "name", "arguments"}
    requires r == multiset{"reference", "components"} + multiset(ReferenceComponentKeys)
    ensures f["function"] == 1 && f["arguments"] == 1 && f["reference"] == 0
    ensures f["expression"] == 0 && f["range"] == 0 && f["constant"] == 0 && f["operator"] == 0
    ensures r["function"] == 0 && r["arguments"] == 0 && r["reference"] == 1
    ensures r["expression"] == 0 && r["range"] == 0 && r["constant"] == 0 && r["operator"] == 0
  {
    assert "arguments"[0] != "reference"[0];
    assert "function"[0] != "constant"[0] && "function"[0] != "operator"[0];
  }

  lemma CountsOfFound(found: multiset<string>)
    requires found["function"] == 2 && found["arguments"] == 2 && found["reference"] == 3
    requires found["expression"] == 0 && found["range"] == 0 && found["constant"] == 0 && found["operator"] == 0
    ensures DictKeys.KeyCounts(map[], Acceptable(None), found) == map["function" := 2, "arguments" := 2, "reference" := 3]
  {
    var m := DictKeys.KeyCounts(map[], Acceptable(None), found);
    var want := map["function" := 2, "arguments" := 2, "reference" := 3];
    assert m.Keys == want.Keys;
  }

  // ---------------------------------------------------------------------------
  // Two references around an operator: "=A1 + B1"

  /** The text of a reference without a sheet: letters, then row digits. */
  lemma CellOperand(v: ModelsReference.RefValue)
    requires ModelsReference.IsCellValue(v) && v.sheet.None?
    ensures var t := ModelsReference.RefText(None, v.letters, v.row);
            t == v.letters + NatToString(v.row) && IsUpper(t[0]) && IsDigit(t[|t| - 1])
            && ModelsExpression.IsOperandToken(ModelsExpression.Token(t))
            && forall i :: 0 <= i < |t| ==> IsUpper(t[i]) || IsDigit(t[i])
  {
    var d := NatToString(v.row);
    var t := ModelsReference.RefText(None, v.letters, v.row);
    assert t == v.letters + d;
    forall i | 0 <= i < |t|
      ensures IsUpper(t[i]) || IsDigit(t[i])
    {
      if i < |v.letters| {
        assert t[i] == v.letters[i];
      } else {
        assert t[i] == d[i - |v.letters|];
      }
    }
    assert t[0] == v.letters[0];
    assert t[|t| - 1] == d[|d| - 1];
  }

  /** "x o y" for two references x and y without sheets. */
  function BinaryText(a: ModelsReference.RefValue, o: char, b: ModelsReference.RefValue): string {
    ModelsReference.RefText(None, a.letters, a.row) + " " + [o] + " " + ModelsReference.RefText(None, b.letters, b.row)
  }

  /** Only the expression check accepts "x o y": it is no call, no range (a space
      follows the first reference), no reference and no number. */
  lemma BinaryClassify(a: ModelsReference.RefValue, o: char, b: ModelsReference.RefValue)
    requires ModelsReference.IsCellValue(a) && a.sheet.None? && ModelsReference.IsCellValue(b) && b.sheet.None?
    requires ModelsExpression.IsOperatorChar(o)
    ensures var t := BinaryText(a, o, b); Strip(t) == t && Classify(t) == ExpressionKind
  {
    var x := ModelsReference.RefText(None, a.letters, a.row);
    var y := ModelsReference.RefText(None, b.letters, b.row);
    var t := BinaryText(a, o, b);
    CellOperand(a);
    CellOperand(b);
    var rest := " " + [o] + " " + y;
    assert t == x + rest;
    assert t[0] == x[0] && t[|t| - 1] == y[|y| - 1];
    EndsInDigit(t);
    BinaryNoRange(a, x, rest);
    BinaryNoReference(a, x, rest);
    BinaryValid(x, o, y);
  }

  lemma BinaryNoRange(a: ModelsReference.RefValue, x: string, rest: string)
    requires ModelsReference.IsCellValue(a) && x == a.letters + NatToString(a.row)
    requires rest != [] && rest[0] == ' '
    ensures !ModelsRange.IsValidRange(x + rest)
  {
    var t := x + rest;
    assert t == a.letters + NatToString(a.row) + rest;
    ModelsRange.CellPrefixOf(a.letters, NatToString(a.row), rest);
    assert t[|x|] == ' ';
  }

  lemma BinaryNoReference(a: ModelsReference.RefValue, x: string, rest: string)
    requires ModelsReference.IsCellValue(a) && x == a.letters + NatToString(a.row)
    requires rest != [] && rest[0] == ' ' && rest[|rest| - 1] != '\n'
    ensures !ModelsReference.IsValidReference(x + rest)
  {
    var t := x + rest;
    var d := NatToString(a.row);
    assert t[|t| - 1] == rest[|rest| - 1];
    assert t[0] == a.letters[0];
    assert t == a.letters + (d + rest);
    CellThenSpace(a.letters, d + rest, |d|);
  }

  /** Letters, then digits and a space, are no cell. */
  lemma CellThenSpace(letters: string, tail: string, k: nat)
    requires letters != [] && AllUpper(letters) && tail != [] && IsDigit(tail[0])
    requires k < |tail| && tail[k] == ' '
    ensures ModelsReference.MatchCell(letters + tail) == None
  {
    var t := letters + tail;
    ModelsReference.UpperRunConcat(letters, tail);
    assert t[|letters|..] == tail;
    assert !IsDigit(tail[k]);
  }

  lemma BinaryValid(x: string, o: char, y: string)
    requires ModelsExpression.IsOperatorChar(o) && x != [] && y != []
    requires forall i :: 0 <= i < |x| ==> IsUpper(x[i]) || IsDigit(x[i])
    requires forall i :: 0 <= i < |y| ==> IsUpper(y[i]) || IsDigit(y[i])
    ensures ModelsExpression.IsValidExpression(x + " " + [o] + " " + y)
  {
    var l := x + " ";
    var r := " " + y;
    assert x + " " + [o] + " " + y == l + [o] + r;
    assert l[0] == x[0] && r[1] == y[0];
    ModelsFunction.NoParenBalance(l);
    ModelsFunction.NoParenBalance(r);
    ModelsExpression.ValidBinary(l, o, r);
  }

  /** parse_expression on "x o y": an expression node displayed as the text, whose
      components are the two reference nodes around the operator node. */
  lemma ParseBinary(a: ModelsReference.RefValue, o: char, b: ModelsReference.RefValue)
    requires ModelsReference.IsCellValue(a) && a.sheet.None? && ModelsReference.IsCellValue(b) && b.sheet.None?
    requires ModelsExpression.IsOperatorChar(o)
    ensures ParseText(BinaryText(a, o, b))
            == Ok(ExpressionNode(BinaryText(a, o, b), [ModelsReference.RefToDict(a), OperatorNode([o]), ModelsReference.RefToDict(b)]))
  {
    var x := ModelsReference.RefText(None, a.letters, a.row);
    var y := ModelsReference.RefText(None, b.letters, b.row);
    var t := BinaryText(a, o, b);
    var cs := [ModelsExpression.Token(x), ModelsExpression.Token([o]), ModelsExpression.Token(y)];
    BinaryClassify(a, o, b);
    ExpressionParse(t);
    CellOperand(a);
    CellOperand(b);
    ModelsExpression.ScanBinary(x, o, y);
    BinaryParts(a, o, b, x, y);
    assert ModelsExpression.ExprString(cs) == t;
    ExpressionTextOf(t, cs, [ModelsReference.RefToDict(a), OperatorNode([o]), ModelsReference.RefToDict(b)]);
  }

  lemma BinaryParts(a: ModelsReference.RefValue, o: char, b: ModelsReference.RefValue, x: string, y: string)
    requires ModelsReference.IsCellValue(a) && a.sheet.None? && ModelsReference.IsCellValue(b) && b.sheet.None?
    requires ModelsExpression.IsOperatorChar(o)
    requires x == ModelsReference.RefText(None, a.letters, a.row) && y == ModelsReference.RefText(None, b.letters, b.row)
    ensures ParseComponents([ModelsExpression.Token(x), ModelsExpression.Token([o]), ModelsExpression.Token(y)], |BinaryText(a, o, b)|)
            == Ok([ModelsReference.RefToDict(a), OperatorNode([o]), ModelsReference.RefToDict(b)])
  {
    ReferenceRoundTrip(a);
    OperatorRoundTrip(o);
    ReferenceRoundTrip(b);
    var cs := [ModelsExpression.Token(x), ModelsExpression.Token([o]), ModelsExpression.Token(y)];
    ModelsExpression.ThreeTokensBelow(x, [o], y, |BinaryText(a, o, b)|);
    ParseThree(cs, x, [o], y, |BinaryText(a, o, b)|, ModelsReference.RefToDict(a), OperatorNode([o]), ModelsReference.RefToDict(b));
  }

  /** Text that is its own strip and that only the expression check accepts is
      parsed by the expression branch. */
  lemma ExpressionParse(t: string)
    requires Strip(t) == t && Classify(t) == ExpressionKind
    ensures ModelsExpression.IsValidExpression(t) && ParseText(t) == ExpressionText(t)
  {
  }

  /** The expression branch on a valid text whose components all parse. */
  lemma ExpressionTextOf(t: string, cs: seq<ModelsExpression.Component>, parts: seq<Node>)
    requires ModelsExpression.IsValidExpression(t) && Strip(t) == t && ModelsExpression.Scan(t) == cs
    requires forall i :: 0 <= i < |cs| && cs[i].Token? ==> |cs[i].text| < |t|
    requires ParseComponents(cs, |t|) == Ok(parts)
    ensures ExpressionText(t) == Ok(ExpressionNode(ModelsExpression.ExprString(cs), parts))
  {
  }

  /** Three tokens parse one after the other. */
  lemma ParseThree(cs: seq<ModelsExpression.Component>, x: string, y: string, z: string, bound: nat, p: Node, q: Node, r: Node)
    requires |x| < bound && |y| < bound && |z| < bound
    requires cs == [ModelsExpression.Token(x), ModelsExpression.Token(y), ModelsExpression.Token(z)]
    requires forall i :: 0 <= i < |cs| && cs[i].Token? ==> |cs[i].text| < bound
    requires ParseText(x) == Ok(p) && ParseText(y) == Ok(q) && ParseText(z) == Ok(r)
    ensures ParseComponents(cs, bound) == Ok([p, q, r])
  {
    ModelsExpression.ThreeTails(cs, x, y, z);
    ConsThree(p, q, r);
    ParseComponentsCons(cs[2..], bound, r, []);
    ParseComponentsCons(cs[1..], bound, q, [r]);
    ParseComponentsCons(cs, bound, p, [q, r]);
  }

  /** The first token's node before the nodes of the rest. */
  lemma ParseComponentsCons(cs: seq<ModelsExpression.Component>, bound: nat, n: Node, ns: seq<Node>)
    requires cs != [] && cs[0].Token? && forall i :: 0 <= i < |cs| && cs[i].Token? ==> |cs[i].text| < bound
    requires ParseText(cs[0].text) == Ok(n) && ParseComponents(cs[1..], bound) == Ok(ns)
    ensures ParseComponents(cs, bound) == Ok([n] + ns)
  {
  }

  /** json_to_string on the parsed "x o y" wraps the text in parentheses. */
  lemma PrintBinary(a: ModelsReference.RefValue, o: char, b: ModelsReference.RefValue)
    requires ModelsReference.IsCellValue(a) && a.sheet.None? && ModelsReference.IsCellValue(b) && b.sheet.None?
    requires ModelsExpression.IsOperatorChar(o)
    ensures JsonToString(ExpressionNode(BinaryText(a, o, b), [ModelsReference.RefToDict(a), OperatorNode([o]), ModelsReference.RefToDict(b)]))
            == Ok("(" + BinaryText(a, o, b) + ")")
  {
    var x := ModelsReference.RefText(None, a.letters, a.row);
    var y := ModelsReference.RefText(None, b.letters, b.row);
    PrintCell(a);
    PrintCell(b);
    assert JsonToString(OperatorNode([o])) == Ok([o]);
    assert "(" + BinaryText(a, o, b) + ")" == "(" + x + " " + [o] + " " + y + ")";
    PrintThree(BinaryText(a, o, b), ModelsReference.RefToDict(a), OperatorNode([o]), ModelsReference.RefToDict(b), x, [o], y);
  }

  lemma PrintCell(v: ModelsReference.RefValue)
    requires ModelsReference.IsCellValue(v)
    ensures JsonToString(ModelsReference.RefToDict(v)) == Ok(ModelsReference.RefText(v.sheet, v.letters, v.row))
  {
    ReferenceRoundTrip(v);
  }

  /** An expression of three printable parts prints as the three texts joined by
      spaces inside parentheses. */
  lemma PrintThree(d: string, p: Node, q: Node, r: Node, x: string, y: string, z: string)
    requires JsonToString(p) == Ok(x) && JsonToString(q) == Ok(y) && JsonToString(r) == Ok(z)
    ensures JsonToString(ExpressionNode(d, [p, q, r])) == Ok("(" + x + " " + y + " " + z + ")")
  {
    PrintAllThree(p, q, r, x, y, z);
    PrintExpressionOf(d, [p, q, r], [x, y, z]);
    JoinThree(x, y, z, " ");
    ThreeInParens(x, y, z);
  }

  lemma ThreeInParens(x: string, y: string, z: string)
    ensures "(" + (x + " " + y + " " + z) + ")" == "(" + x + " " + y + " " + z + ")"
  {
  }

  lemma PrintAllThree(p: Node, q: Node, r: Node, x: string, y: string, z: string)
    requires JsonToString(p) == Ok(x) && JsonToString(q) == Ok(y) && JsonToString(r) == Ok(z)
    ensures PrintAll([p, q, r]) == Ok([x, y, z])
  {
    var e: seq<Node> := [];
    var none: seq<string> := [];
    ConsThree(p, q, r);
    ConsThree(x, y, z);
    PrintAllCons(r, e, z, none);
    PrintAllCons(q, [r], y, [z]);
    PrintAllCons(p, [q, r], x, [y, z]);
  }

  lemma PrintAllCons(n: Node, rest: seq<Node>, s: string, ss: seq<string>)
    requires JsonToString(n) == Ok(s) && PrintAll(rest) == Ok(ss)
    ensures PrintAll([n] + rest) == Ok([s] + ss)
  {
    assert ([n] + rest)[0] == n && ([n] + rest)[1..] == rest;
  }

  lemma PrintExpressionOf(d: string, cs: seq<Node>, parts: seq<string>)
    requires PrintAll(cs) == Ok(parts)
    ensures JsonToString(ExpressionNode(d, cs)) == Ok("(" + Join(parts, " ") + ")")
  {
  }

  /** reconstructed_formula of "=x o y" is "=(x o y)", and once every parenthesis
      is removed it is the formula again. */
  lemma ReconstructBinary(a: ModelsReference.RefValue, o: char, b: ModelsReference.RefValue)
    requires ModelsReference.IsCellValue(a) && a.sheet.None? && ModelsReference.IsCellValue(b) && b.sheet.None?
    requires ModelsExpression.IsOperatorChar(o)
    ensures Reconstructed(BinaryText(a, o, b)) == Ok("=(" + BinaryText(a, o, b) + ")")
    ensures WithoutParens("=(" + BinaryText(a, o, b) + ")") == WithoutParens("=" + BinaryText(a, o, b))
  {
    var t := BinaryText(a, o, b);
    var n := ExpressionNode(t, [ModelsReference.RefToDict(a), OperatorNode([o]), ModelsReference.RefToDict(b)]);
    ParseBinary(a, o, b);
    PrintBinary(a, o, b);
    ReconstructedOf(t, n, "(" + t + ")");
    WrappedWithoutParens(t);
  }

  lemma ReconstructedOf(t: string, n: Node, s: string)
    requires ParseText(t) == Ok(n) && JsonToString(n) == Ok(s)
    ensures Reconstructed(t) == Ok("=" + s)
  {
  }

  /** "A1 + B1" parses to [reference A1 (column 1), operator +, reference B1
      (column 2)] displayed as "A1 + B1", and "=A1 + B1" comes back as "=(A1 + B1)". */
  lemma AddExample()
    ensures ParseText("A1 + B1") == Ok(ExpressionNode("A1 + B1", [CellNode("A", 1, 1), OperatorNode("+"), CellNode("B", 1, 2)]))
    ensures Reconstructed("A1 + B1") == Ok("=(A1 + B1)")
  {
    var a := ModelsReference.RefValue(None, "A", 1, 1);
    var b := ModelsReference.RefValue(None, "B", 1, 2);
    AddTexts();
    ParseBinary(a, '+', b);
    ReconstructBinary(a, '+', b);
  }

  lemma AddTexts()
    ensures BinaryText(ModelsReference.RefValue(None, "A", 1, 1), '+', ModelsReference.RefValue(None, "B", 1, 2)) == "A1 + B1"
    ensures "=(" + "A1 + B1" + ")" == "=(A1 + B1)" && ['+'] == "+"
    ensures ModelsReference.IsCellValue(ModelsReference.RefValue(None, "A", 1, 1))
    ensures ModelsReference.IsCellValue(ModelsReference.RefValue(None, "B", 1, 2))
  {
    SumCellTexts();
    assert NatToString(1) == "1";
  }

  // ---------------------------------------------------------------------------
  // translate on the formula, and the Parser object

  /** A reference moves by the shift, and moving it back restores it. */
  lemma TranslateReferenceBack(v: ModelsReference.RefValue, dc: int, dr: int)
    requires ModelsReference.IsCellValue(v) && Shift(v, dc, dr).Ok?
    ensures TranslateNode(ModelsReference.RefToDict(v), dc, dr) == Ok(ModelsReference.RefToDict(Shift(v, dc, dr).value))
    ensures TranslateNode(ModelsReference.RefToDict(Shift(v, dc, dr).value), -dc, -dr) == Ok(ModelsReference.RefToDict(v))
  {
    var w := Shift(v, dc, dr).value;
    ModelsReference.ParsePrinted(v);
    ModelsReference.ParsePrinted(w);
    ShiftBack(v, dc, dr);
  }

  /** Parser.translate(from_cell, to_cell) on the formula text after "=": both
      cells are read as references (ValueError otherwise), the formula is parsed
      afresh and every reference in it is moved by the column and row
      differences of the two cells. */
  function TranslateText(formula: string, fromCell: string, toCell: string): (r: Result<Node>)
    ensures !ModelsReference.IsValidReference(fromCell) || !ModelsReference.IsValidReference(toCell) ==> r == Err(ValueError)
    ensures r.Ok? ==> ParseText(formula).Ok? && KindOf(r.value) == KindOf(ParseText(formula).value)
  {
    var shift := CellShift(fromCell, toCell);
    if shift.Err? then Err(shift.error) else MoveParsed(formula, shift.value.0, shift.value.1)
  }

  /** The column and row differences from one cell to the other, or ValueError
      when either is not a reference. */
  function CellShift(fromCell: string, toCell: string): (r: Result<(int, int)>)
    ensures r.Ok? <==> ModelsReference.IsValidReference(fromCell) && ModelsReference.IsValidReference(toCell)
    ensures r.Err? ==> r.error == ValueError
  {
    var f := ModelsReference.ParseReference(fromCell);
    var t := ModelsReference.ParseReference(toCell);
    if f.Err? || t.Err? then Err(ValueError)
    else Ok((t.value.column - f.value.column, t.value.row - f.value.row))
  }

  lemma CellShiftOf(fromCell: string, toCell: string, f: ModelsReference.RefValue, t: ModelsReference.RefValue)
    requires ModelsReference.ParseReference(fromCell) == Ok(f) && ModelsReference.ParseReference(toCell) == Ok(t)
    ensures CellShift(fromCell, toCell) == Ok((t.column - f.column, t.row - f.row))
  {
  }

  /** The formula parsed afresh, and every reference in it moved. */
  function MoveParsed(formula: string, dc: int, dr: int): (r: Result<Node>)
    ensures r.Ok? ==> ParseText(formula).Ok? && KindOf(r.value) == KindOf(ParseText(formula).value)
  {
    var tree := ParseText(formula);
    if tree.Err? then Err(tree.error) else TranslateNode(tree.value, dc, dr)
  }

  /** TranslateText, step by step as Parser.translate takes it. */
  lemma TranslateTextSteps(formula: string, fromCell: string, toCell: string, dc: int, dr: int)
    requires CellShift(fromCell, toCell) == Ok((dc, dr))
    ensures TranslateText(formula, fromCell, toCell) == MoveParsed(formula, dc, dr)
  {
  }

  /** The steps of Parser.translate that compute the new tree: two Reference
      objects for the cells, their column and row differences, a fresh parse of
      the formula and recurse_translate over it. */
  method TranslateFormula(formula: string, fromCell: string, toCell: string) returns (r: Result<Node>)
    ensures r == TranslateText(formula, fromCell, toCell)
  {
    var shift := CellShiftOfCells(fromCell, toCell);
    if shift.Err? {
      return Err(shift.error);
    }
    var (dc, dr) := shift.value;
    TranslateTextSteps(formula, fromCell, toCell, dc, dr);
    r := TranslateParsed(formula, dc, dr);
  }

  /** The two Reference objects for the cells and their column and row differences. */
  method CellShiftOfCells(fromCell: string, toCell: string) returns (r: Result<(int, int)>)
    ensures r == CellShift(fromCell, toCell)
  {
    var fromRef := ModelsReference.Reference.New(fromCell);
    if fromRef.Err? {
      return Err(fromRef.error);
    }
    var from := fromRef.value.Value();
    var toRef := ModelsReference.Reference.New(toCell);
    if toRef.Err? {
      return Err(toRef.error);
    }
    var to := toRef.value.Value();
    CellShiftOf(fromCell, toCell, from, to);
    r := Ok((to.column - from.column, to.row - from.row));
  }

  /** The fresh parse of the formula, then recurse_translate over it. */
  method TranslateParsed(formula: string, dc: int, dr: int) returns (r: Result<Node>)
    ensures r == MoveParsed(formula, dc, dr)
  {
    var tree := ParseText(formula);
    if tree.Err? {
      return Err(tree.error);
    }
    r := RecurseTranslate(tree.value, dc, dr);
  }

  /** Moving a formula from a cell to the same cell changes no reference in it. */
  lemma TranslateReferenceInPlace(v: ModelsReference.RefValue, cell: string)
    requires ModelsReference.IsCellValue(v) && ModelsReference.IsValidReference(cell)
    ensures TranslateText(ModelsReference.RefText(v.sheet, v.letters, v.row), cell, cell) == Ok(ModelsReference.RefToDict(v))
  {
    ReferenceRoundTrip(v);
    ShiftZero(v);
    TranslateReferenceBack(v, 0, 0);
  }

  /** The Parser object (src/Models/parser.py, class Parser). */
  class Parser {
    var formula: string
    var fullFormula: string
    var parsedFormula: Node

    /** What the constructor checked: the text starts with "=", its parentheses
        balance, and formula is the text after the "=". */
    ghost predicate Valid()
      reads this
    {
      fullFormula != [] && fullFormula[0] == '=' && formula == fullFormula[1..]
      && Count('(', fullFormula) == Count(')', fullFormula)
    }

    constructor (formulaStr: string)
      requires formulaStr != [] && formulaStr[0] == '=' && Count('(', formulaStr) == Count(')', formulaStr)
      requires ParseText(formulaStr[1..]).Ok?
      ensures Valid() && fullFormula == formulaStr && parsedFormula == ParseText(formulaStr[1..]).value
    {
      formula := formulaStr[1..];
      fullFormula := formulaStr;
      parsedFormula := ParseText(formulaStr[1..]).value;
    }

    /** Parser.__init__: ValueError without the leading "=" or with unequal
        counts of "(" and ")"; an error of the parse propagates. */
    static method New(formulaStr: string) returns (r: Result<Parser>)
      ensures formulaStr == [] || formulaStr[0] != '=' ==> r == Err(ValueError)
      ensures formulaStr != [] && formulaStr[0] == '=' && Count('(', formulaStr) != Count(')', formulaStr) ==> r == Err(ValueError)
      ensures r.Ok? <==> formulaStr != [] && formulaStr[0] == '=' && Count('(', formulaStr) == Count(')', formulaStr)
                         && ParseText(formulaStr[1..]).Ok?
      ensures r.Ok? ==> fresh(r.value) && r.value.Valid() && r.value.fullFormula == formulaStr
                        && r.value.parsedFormula == ParseText(formulaStr[1..]).value
      ensures r.Err? && formulaStr != [] && formulaStr[0] == '=' && Count('(', formulaStr) == Count(')', formulaStr)
              ==> r.error == ParseText(formulaStr[1..]).error
    {
      if formulaStr == [] || formulaStr[0] != '=' {
        return Err(ValueError);
      }
      var balanced := ModelsExpression.HasBalancedParentheses(formulaStr);
      if !balanced {
        return Err(ValueError);
      }
      var tree := ParseText(formulaStr[1..]);
      if tree.Err? {
        return Err(tree.error);
      }
      var p := new Parser(formulaStr);
      return Ok(p);
    }

    /** Parser.reconstructed_formula: a fresh parse printed after "=". */
    function ReconstructedFormula(): (r: Result<string>)
      reads this
      ensures r.Ok? <==> ParseText(formula).Ok? && JsonToString(ParseText(formula).value).Ok?
      ensures r.Ok? ==> |r.value| >= 1 && r.value[0] == '=' && JsonToString(ParseText(formula).value) == Ok(r.value[1..])
    {
      var s := Reconstructed(formula);
      assert s.Ok? ==> s.value[1..] == JsonToString(ParseText(formula).value).value;
      s
    }

    /** Parser.translate: the stored tree becomes the fresh parse of the formula
        with every reference moved; on any error it keeps its previous value, and
        since each call starts from the formula text, calls do not accumulate. */
    method Translate(fromCell: string, toCell: string) returns (r: Result<()>)
      requires Valid()
      modifies this
      ensures Valid() && formula == old(formula) && fullFormula == old(fullFormula)
      ensures r.Ok? <==> TranslateText(formula, fromCell, toCell).Ok?
      ensures r.Ok? ==> parsedFormula == TranslateText(formula, fromCell, toCell).value
      ensures r.Err? ==> r.error == TranslateText(formula, fromCell, toCell).error && parsedFormula == old(parsedFormula)
    {
      var moved := TranslateFormula(formula, fromCell, toCell);
      if moved.Err? {
        return Err(moved.error);
      }
      parsedFormula := moved.value;
      return Ok(());
    }
  }
}
