/** Arithmetic and comparison expressions such as A1 + B1 * (C1 - 2)
    (src/Models/expression.py, class Expression). */
module ModelsExpression {
  import opened Results
  import opened Text

  /** The characters the scanner treats as operators: the one-character entries of
      Expression.operators. The two-character entries begin with one of them. */
  predicate IsOperatorChar(c: char) {
    c == '+' || c == '-' || c == '*' || c == '/' || c == '>' || c == '<' || c == '='
  }

  /** Expression.has_balanced_parentheses: only the final counts are compared, so
      ")(" passes. */
  method HasBalancedParentheses(expr: string) returns (b: bool)
    ensures b <==> Count('(', expr) == Count(')', expr)
  {
    var balance := 0;
    for i := 0 to |expr|
      invariant balance == Balance(expr[..i])
    {
      assert expr[..i + 1][..i] == expr[..i];
      if expr[i] == '(' {
        balance := balance + 1;
      } else if expr[i] == ')' {
        balance := balance - 1;
      }
    }
    assert expr[..|expr|] == expr;
    b := balance == 0;
  }

  /** No prefix check: a closing parenthesis may come first. */
  lemma BalancedWithoutPrefixCheck()
    ensures Balance(")(") == 0
  {
    assert ")("[..1] == ")";
    assert ")"[..0] == [];
  }

  // ---------------------------------------------------------------------------
  // Validity

  /** Some operator occurs in the text (any(op in expr for op in operators)). */
  predicate HasOperator(s: string) {
    exists i :: 0 <= i < |s| && IsOperatorChar(s[i])
  }

  /** re.split(operator_pattern, s). At every position the alternation tries the
      one-character operators first, so the text is cut at every operator character
      and a two-character operator leaves an empty part between its characters. */
  function SplitOps(s: string): (parts: seq<string>)
    ensures |parts| >= 1
  {
    if s == [] then [""]
    else
      var parts := SplitOps(s[..|s| - 1]);
      var c := s[|s| - 1];
      if IsOperatorChar(c) then parts + [""]
      else parts[..|parts| - 1] + [parts[|parts| - 1] + [c]]
  }

  /** Expression.is_valid_expression: not empty, some operator, as many "(" as ")",
      and no part between operators that strips to nothing. */
  predicate IsValidExpression(s: string) {
    s != [] && HasOperator(s) && Balance(s) == 0
    && forall p :: p in SplitOps(s) ==> !IsBlank(p)
  }

  /** The parts of a prefix, except the unfinished last one, are parts of the text. */
  lemma {:induction false} SplitOpsPrefix(s: string, k: nat)
    requires k <= |s|
    ensures |SplitOps(s[..k])| <= |SplitOps(s)|
    ensures forall j :: 0 <= j < |SplitOps(s[..k])| - 1 ==> SplitOps(s)[j] == SplitOps(s[..k])[j]
  {
    if k < |s| {
      var t := s[..|s| - 1];
      assert t[..k] == s[..k];
      SplitOpsPrefix(t, k);
    } else {
      assert s[..k] == s;
    }
  }

  /** Two operator characters in a row leave an empty part, so the text is invalid. */
  lemma AdjacentOperatorsInvalid(s: string, i: nat)
    requires i + 1 < |s| && IsOperatorChar(s[i]) && IsOperatorChar(s[i + 1])
    ensures !IsValidExpression(s)
  {
    var p := s[..i + 2];
    assert p[..|p| - 1] == s[..i + 1];
    assert s[..i + 1][..i] == s[..i];
    var q := s[..i + 1];
    assert q[|q| - 1] == s[i] && p[|p| - 1] == s[i + 1];
    var inner := SplitOps(q);
    assert inner == SplitOps(s[..i]) + [""];
    var parts := SplitOps(p);
    assert parts == inner + [""];
    assert parts[|parts| - 2] == "";
    SplitOpsPrefix(s, i + 2);
    assert SplitOps(s)[|parts| - 2] == "";
    assert IsBlank("");
  }

  /** ">=", "<=" and "<>" can never occur in a valid expression. */
  lemma TwoCharacterOperatorsRejected(s: string, i: nat)
    requires i + 1 < |s| && (s[i..i + 2] == ">=" || s[i..i + 2] == "<=" || s[i..i + 2] == "<>")
    ensures !IsValidExpression(s)
  {
    assert s[i] == s[i..i + 2][0] && s[i + 1] == s[i..i + 2][1];
    AdjacentOperatorsInvalid(s, i);
  }

  /** A valid expression has at least two characters. */
  lemma ValidIsLong(s: string)
    requires IsValidExpression(s)
    ensures |s| >= 2
  {
    if |s| == 1 {
      assert IsOperatorChar(s[0]);
      assert s[..0] == [];
      assert SplitOps(s) == [""] + [""];
      assert "" in SplitOps(s) && IsBlank("");
    }
  }

  /** Text without operators extends the last part. */
  lemma {:induction false} SplitOpsPlain(s: string, x: string)
    requires forall i :: 0 <= i < |x| ==> !IsOperatorChar(x[i])
    ensures var p := SplitOps(s); SplitOps(s + x) == p[..|p| - 1] + [p[|p| - 1] + x]
  {
    var p := SplitOps(s);
    if x == [] {
      assert s + x == s;
      assert p[|p| - 1] + x == p[|p| - 1];
      assert p == p[..|p| - 1] + [p[|p| - 1]];
    } else {
      var y := x[..|x| - 1];
      SplitOpsPlain(s, y);
      assert (s + x)[..|s + x| - 1] == s + y;
      assert p[|p| - 1] + y + [x[|x| - 1]] == p[|p| - 1] + x;
    }
  }

  /** One operator between two operator-free texts splits the text into them. */
  lemma SplitBinary(x: string, o: char, y: string)
    requires IsOperatorChar(o)
    requires forall i :: 0 <= i < |x| ==> !IsOperatorChar(x[i])
    requires forall i :: 0 <= i < |y| ==> !IsOperatorChar(y[i])
    ensures SplitOps(x + [o] + y) == [x, y]
  {
    var e: string := [];
    SplitOpsPlain(e, x);
    assert e + x == x;
    assert SplitOps(e) == [e];
    assert SplitOps(x) == [e + x];
    var xo := x + [o];
    assert xo[..|xo| - 1] == x && xo[|xo| - 1] == o;
    assert SplitOps(xo) == [x] + [e];
    SplitOpsPlain(xo, y);
    var p := SplitOps(xo);
    assert p[..|p| - 1] == [x] && p[|p| - 1] + y == y;
  }

  /** An operator between two operands that are not blank and hold no operator
      and balanced parentheses is a valid expression. */
  lemma ValidBinary(x: string, o: char, y: string)
    requires IsOperatorChar(o) && !IsBlank(x) && !IsBlank(y) && Balance(x) == 0 && Balance(y) == 0
    requires forall i :: 0 <= i < |x| ==> !IsOperatorChar(x[i])
    requires forall i :: 0 <= i < |y| ==> !IsOperatorChar(y[i])
    ensures IsValidExpression(x + [o] + y)
  {
    var t := x + [o] + y;
    SplitBinary(x, o, y);
    assert t[|x|] == o;
    BalanceConcat(x + [o], y);
    BalanceConcat(x, [o]);
    assert [o][..0] == [];
  }

  // ---------------------------------------------------------------------------
  // Scanning

  /** A scanned component: operand or operator text, or a parenthesised group
      ({'expression': [...]}). */
  datatype Component = Token(text: string) | Group(parts: seq<Component>)

  /** A component whose group text has not been scanned yet. */
  datatype Piece = Word(text: string) | Sub(chars: string)

  /** parse_recursive part way through: the components so far, the pending
      characters and the parenthesis depth. */
  datatype State = State(pieces: seq<Piece>, current: string, depth: int)

  /** Adds the pending text, stripped, when it is not blank, and empties it. */
  function Flush(st: State): State {
    if st.current != [] && Strip(st.current) != [] then State(st.pieces + [Word(Strip(st.current))], [], st.depth)
    else st.(current := [])
  }

  /** One character of parse_recursive's loop. */
  function Step(st: State, c: char): State {
    if c == '(' then
      (if st.depth == 0 then Flush(st) else st).(depth := st.depth + 1)
    else if c == ')' then
      if st.depth == 1 then
        State(if st.current != [] && Strip(st.current) != [] then st.pieces + [Sub(st.current)] else st.pieces, [], 0)
      else st.(current := st.current + [c], depth := st.depth - 1)
    else if st.depth == 0 && IsOperatorChar(c) then
      var f := Flush(st);
      f.(pieces := f.pieces + [Word([c])])
    else if c != ' ' then st.(current := st.current + [c])
    else st
  }

  function RunFrom(st: State, s: string): State {
    if s == [] then st else Step(RunFrom(st, s[..|s| - 1]), s[|s| - 1])
  }

  const Start := State([], [], 0)

  function Run(s: string): State {
    RunFrom(Start, s)
  }

  /** The pieces parse_recursive collects, including the text pending at the end. */
  function Pieces(s: string): seq<Piece> {
    Flush(Run(s)).pieces
  }

  lemma {:induction false} RunFromConcat(st: State, a: string, b: string)
    ensures RunFrom(st, a + b) == RunFrom(RunFrom(st, a), b)
  {
    if b == [] {
      assert a + b == a;
    } else {
      assert (a + b)[..|a + b| - 1] == a + b[..|b| - 1];
      RunFromConcat(st, a, b[..|b| - 1]);
    }
  }

  /** The depth counter is the balance of the text read. */
  lemma {:induction false} RunDepth(s: string)
    ensures Run(s).depth == Balance(s)
  {
    if s != [] {
      RunDepth(s[..|s| - 1]);
    }
  }

  /** The pending text and every group are shorter than the text read, strictly
      so for the pending text inside a group. */
  lemma {:induction false} RunLengths(s: string)
    ensures var st := Run(s);
            |st.current| <= |s| && (st.depth >= 1 ==> |st.current| < |s|)
            && forall i :: 0 <= i < |st.pieces| && st.pieces[i].Sub? ==> |st.pieces[i].chars| < |s|
  {
    if s != [] {
      RunLengths(s[..|s| - 1]);
    }
  }

  lemma PiecesShorter(s: string)
    ensures forall i :: 0 <= i < |Pieces(s)| && Pieces(s)[i].Sub? ==> |Pieces(s)[i].chars| < |s|
  {
    RunLengths(s);
  }

  /** The components for a list of pieces, scanning every group's text. */
  function Components(ps: seq<Piece>, bound: nat): (cs: seq<Component>)
    requires forall i :: 0 <= i < |ps| && ps[i].Sub? ==> |ps[i].chars| < bound
    ensures |cs| == |ps|
    decreases bound, 0
  {
    seq(|ps|, i requires 0 <= i < |ps| =>
      match ps[i]
      case Word(t) => Token(t)
      case Sub(chars) => Group(Scan(chars)))
  }

  /** parse_recursive(list(s))[0]: the components of s. */
  function Scan(s: string): seq<Component>
    decreases |s|, 1
  {
    PiecesShorter(s);
    Components(Pieces(s), |s|)
  }

  lemma ComponentsSnoc(ps: seq<Piece>, p: Piece, bound: nat)
    requires forall i :: 0 <= i < |ps| && ps[i].Sub? ==> |ps[i].chars| < bound
    requires p.Sub? ==> |p.chars| < bound
    ensures Components(ps + [p], bound)
            == Components(ps, bound) + [match p case Word(t) => Token(t) case Sub(chars) => Group(Scan(chars))]
  {
    var qs := ps + [p];
    assert forall i :: 0 <= i < |ps| ==> qs[i] == ps[i];
  }

  /** The components of the pieces the first i characters make. */
  ghost function ScannedSoFar(chars: string, i: nat): seq<Component>
    requires i <= |chars|
  {
    RunLengths(chars[..i]);
    Components(Run(chars[..i]).pieces, |chars|)
  }

  /** parse_recursive: the loop over the characters, with a recursive call for the
      text of every group that closes back to depth 0. */
  method ParseRecursive(chars: string) returns (components: seq<Component>, i: int)
    ensures components == Scan(chars) && i == |chars|
    decreases |chars|
  {
    components := [];
    var current: string := [];
    var depth := 0;
    i := 0;
    while i < |chars|
      invariant 0 <= i <= |chars|
      invariant Run(chars[..i]).current == current && Run(chars[..i]).depth == depth
      invariant components == ScannedSoFar(chars, i)
    {
      var c := chars[i];
      ghost var st := Run(chars[..i]);
      assert chars[..i + 1][..i] == chars[..i];
      assert Run(chars[..i + 1]) == Step(st, c);
      RunLengths(chars[..i]);
      if c == '(' {
        if depth == 0 && current != [] {
          var component := Strip(current);
          if component != [] {
            ComponentsSnoc(st.pieces, Word(component), |chars|);
            components := components + [Token(component)];
          }
          current := [];
        }
        depth := depth + 1;
      } else if c == ')' {
        if depth == 1 {
          if current != [] {
            var component := Strip(current);
            if component != [] {
              var sub, _ := ParseRecursive(current);
              ComponentsSnoc(st.pieces, Sub(current), |chars|);
              components := components + [Group(sub)];
            }
          }
          current := [];
          depth := depth - 1;
        } else {
          current := current + [c];
          depth := depth - 1;
        }
      } else if depth == 0 && IsOperatorChar(c) {
        if current != [] {
          var component := Strip(current);
          if component != [] {
            ComponentsSnoc(st.pieces, Word(component), |chars|);
            components := components + [Token(component)];
          }
          current := [];
        }
        ghost var f := Flush(st);
        ComponentsSnoc(f.pieces, Word([c]), |chars|);
        components := components + [Token([c])];
      } else if c != ' ' {
        current := current + [c];
      }
      i := i + 1;
    }
    assert chars[..i] == chars;
    RunLengths(chars);
    PiecesShorter(chars);
    if current != [] {
      var component := Strip(current);
      if component != [] {
        ComponentsSnoc(Run(chars).pieces, Word(component), |chars|);
        components := components + [Token(component)];
      }
    }
  }

  // ---------------------------------------------------------------------------
  // Lengths of the scanned parts

  function Weight(p: Piece): nat {
    match p
    case Word(t) => |t|
    case Sub(chars) => |chars| + 1
  }

  function TotalWeight(ps: seq<Piece>): nat {
    if ps == [] then 0 else TotalWeight(ps[..|ps| - 1]) + Weight(ps[|ps| - 1])
  }

  lemma TotalWeightSnoc(ps: seq<Piece>, p: Piece)
    ensures TotalWeight(ps + [p]) == TotalWeight(ps) + Weight(p)
  {
    assert (ps + [p])[..|ps|] == ps;
  }

  /** Two different pieces together weigh no more than the whole list. */
  lemma {:induction false} TotalWeightTwo(ps: seq<Piece>, i: nat, j: nat)
    requires i < |ps| && j < |ps|
    ensures TotalWeight(ps) >= Weight(ps[i])
    ensures i != j ==> TotalWeight(ps) >= Weight(ps[i]) + Weight(ps[j])
  {
    var n := |ps| - 1;
    var init := ps[..n];
    if i < n && j < n {
      TotalWeightTwo(init, i, j);
    } else if i < n {
      TotalWeightTwo(init, i, i);
    } else if j < n {
      TotalWeightTwo(init, j, j);
    }
  }

  /** A step only appends pieces. */
  lemma StepGrows(st: State, c: char)
    ensures |Step(st, c).pieces| >= |st.pieces|
    ensures forall j :: 0 <= j < |st.pieces| ==> Step(st, c).pieces[j] == st.pieces[j]
  {
  }

  lemma FlushWeight(st: State)
    ensures TotalWeight(Flush(st).pieces) + |Flush(st).current| <= TotalWeight(st.pieces) + |st.current|
    ensures (forall j :: 0 <= j < |st.pieces| && st.pieces[j].Word? ==> st.pieces[j].text != [])
            ==> forall j :: 0 <= j < |Flush(st).pieces| && Flush(st).pieces[j].Word? ==> Flush(st).pieces[j].text != []
    ensures Flush(st).depth == st.depth
    ensures |Flush(st).pieces| >= |st.pieces|
    ensures forall j :: 0 <= j < |st.pieces| ==> Flush(st).pieces[j] == st.pieces[j]
  {
    if st.current != [] && Strip(st.current) != [] {
      TotalWeightSnoc(st.pieces, Word(Strip(st.current)));
    }
  }

  predicate WordsNonEmpty(ps: seq<Piece>) {
    forall j :: 0 <= j < |ps| && ps[j].Word? ==> ps[j].text != []
  }

  /** What a state holds of the text read: its pieces and the pending text. */
  function Load(st: State): nat {
    TotalWeight(st.pieces) + |st.current|
  }

  /** One character adds at most one to the load, and an opening parenthesis nothing. */
  lemma StepWeight(st: State, c: char)
    requires WordsNonEmpty(st.pieces)
    ensures Load(Step(st, c)) + (if c == '(' then 1 else 0) <= Load(st) + 1
    ensures WordsNonEmpty(Step(st, c).pieces)
  {
    FlushWeight(st);
    if c == ')' && st.depth == 1 && st.current != [] && Strip(st.current) != [] {
      TotalWeightSnoc(st.pieces, Sub(st.current));
    } else if c != '(' && c != ')' && st.depth == 0 && IsOperatorChar(c) {
      TotalWeightSnoc(Flush(st).pieces, Word([c]));
    }
  }

  /** Every character read is kept at most once: in a word, in a group (whose
      closing parenthesis also counts), in the pending text, or it is an opening
      parenthesis. Words are never empty. */
  lemma {:induction false} RunWeight(s: string)
    ensures Load(Run(s)) + Count('(', s) <= |s|
    ensures WordsNonEmpty(Run(s).pieces)
  {
    if s != [] {
      var t := s[..|s| - 1];
      var c := s[|s| - 1];
      RunWeight(t);
      assert Run(s) == Step(Run(t), c);
      StepWeight(Run(t), c);
    }
  }

  predicate HasUnitWord(ps: seq<Piece>) {
    exists j :: 0 <= j < |ps| && ps[j].Word? && |ps[j].text| == 1
  }

  /** Without parentheses every operator character is read at depth 0 and becomes
      a word of its own. */
  lemma {:induction false} RunUnit(s: string)
    requires Count('(', s) == 0 && Count(')', s) == 0 && HasOperator(s)
    ensures HasUnitWord(Run(s).pieces)
  {
    var t := s[..|s| - 1];
    var c := s[|s| - 1];
    var st := Run(t);
    assert Run(s) == Step(st, c);
    StepGrows(st, c);
    if HasOperator(t) {
      RunUnit(t);
      var j :| 0 <= j < |st.pieces| && st.pieces[j].Word? && |st.pieces[j].text| == 1;
      assert Run(s).pieces[j] == st.pieces[j];
    } else {
      assert s == t + [c];
      assert IsOperatorChar(c);
      RunDepth(t);
      FlushWeight(st);
      var f := Flush(st);
      assert Run(s).pieces == f.pieces + [Word([c])];
      assert Run(s).pieces[|f.pieces|] == Word([c]);
    }
  }

  /** Every word of a valid expression is shorter than the expression, so the
      parser's recursion on the words terminates. */
  lemma ValidWordsShorter(s: string)
    requires IsValidExpression(s)
    ensures forall i :: 0 <= i < |Pieces(s)| && Pieces(s)[i].Word? ==> |Pieces(s)[i].text| < |s|
  {
    RunWeight(s);
    var st := Run(s);
    FlushWeight(st);
    var ps := Pieces(s);
    ValidIsLong(s);
    forall i | 0 <= i < |ps| && ps[i].Word?
      ensures |ps[i].text| < |s|
    {
      if Count('(', s) == 0 {
        assert Count(')', s) == 0;
        RunUnit(s);
        var j :| 0 <= j < |st.pieces| && st.pieces[j].Word? && |st.pieces[j].text| == 1;
        assert ps[j] == st.pieces[j];
        TotalWeightTwo(ps, i, j);
      } else {
        TotalWeightTwo(ps, i, i);
      }
    }
  }

  /** The scanned tokens of a valid expression are shorter than it. */
  lemma ValidTokensShorter(s: string)
    requires IsValidExpression(s)
    ensures forall i :: 0 <= i < |Scan(s)| && Scan(s)[i].Token? ==> |Scan(s)[i].text| < |s|
  {
    ValidWordsShorter(s);
  }

  // ---------------------------------------------------------------------------
  // Printing: Expression.__str__

  function Render(c: Component): string
    decreases c, 2
  {
    match c
    case Token(t) => t
    case Group(parts) => "(" + ExprString(parts) + ")"
  }

  function RenderAll(cs: seq<Component>): (r: seq<string>)
    ensures |r| == |cs|
    decreases cs, 0
  {
    seq(|cs|, i requires 0 <= i < |cs| => Render(cs[i]))
  }

  /** build_expression_string: the texts of the components joined by single
      spaces, each group in parentheses. */
  function ExprString(cs: seq<Component>): string
    decreases cs, 1
  {
    Join(RenderAll(cs), " ")
  }

  /** The text with its spaces dropped. */
  function Despace(s: string): string {
    if s == [] then [] else Despace(s[..|s| - 1]) + (if s[|s| - 1] == ' ' then [] else [s[|s| - 1]])
  }

  lemma {:induction false} DespaceConcat(a: string, b: string)
    ensures Despace(a + b) == Despace(a) + Despace(b)
  {
    if b == [] {
      assert a + b == a;
    } else {
      var ab := a + b;
      assert ab[..|ab| - 1] == a + b[..|b| - 1];
      DespaceConcat(a, b[..|b| - 1]);
    }
  }

  lemma {:induction false} DespacePlain(s: string)
    requires forall i :: 0 <= i < |s| ==> s[i] != ' '
    ensures Despace(s) == s
  {
    if s != [] {
      DespacePlain(s[..|s| - 1]);
    }
  }

  /** The scanner never keeps a space: reading a text or reading it without its
      spaces ends in the same state. */
  lemma {:induction false} RunFromDespace(st: State, s: string)
    ensures RunFrom(st, Despace(s)) == RunFrom(st, s)
  {
    if s != [] {
      var t := s[..|s| - 1];
      var c := s[|s| - 1];
      RunFromDespace(st, t);
      if c != ' ' {
        var d := Despace(t) + [c];
        assert Despace(s) == d;
        assert d[..|d| - 1] == Despace(t);
        assert RunFrom(st, d) == Step(RunFrom(st, Despace(t)), c);
      } else {
        assert Despace(s) == Despace(t);
        assert Step(RunFrom(st, t), c) == RunFrom(st, t);
      }
    }
  }

  lemma ComponentsBound(ps: seq<Piece>, b1: nat, b2: nat)
    requires forall i :: 0 <= i < |ps| && ps[i].Sub? ==> |ps[i].chars| < b1
    requires forall i :: 0 <= i < |ps| && ps[i].Sub? ==> |ps[i].chars| < b2
    ensures Components(ps, b1) == Components(ps, b2)
  {
  }

  lemma ScanDespace(s: string)
    ensures Scan(Despace(s)) == Scan(s)
  {
    RunFromDespace(Start, s);
    assert Run(Despace(s)) == Run(s);
    assert Pieces(Despace(s)) == Pieces(s);
    PiecesShorter(s);
    PiecesShorter(Despace(s));
    ComponentsBound(Pieces(s), |s|, |Despace(s)|);
  }

  // ---------------------------------------------------------------------------
  // Components that survive printing and scanning

  /** Characters that are neither whitespace nor parentheses. */
  predicate IsPlain(c: char) {
    !IsSpace(c) && c != '(' && c != ')'
  }

  /** An operand: a non-empty run of plain characters that are not operators. */
  predicate IsOperandToken(c: Component) {
    c.Token? && c.text != [] && forall i :: 0 <= i < |c.text| ==> IsPlain(c.text[i]) && !IsOperatorChar(c.text[i])
  }

  predicate IsOperatorToken(c: Component) {
    c.Token? && |c.text| == 1 && IsOperatorChar(c.text[0])
  }

  /** No two operands side by side: the scanner would read them as one. */
  predicate Separated(cs: seq<Component>) {
    forall i :: 0 < i < |cs| ==> !(IsOperandToken(cs[i - 1]) && IsOperandToken(cs[i]))
  }

  predicate Flat(cs: seq<Component>) {
    Separated(cs) && forall i :: 0 <= i < |cs| ==> IsOperandToken(cs[i]) || IsOperatorToken(cs[i])
  }

  predicate CanonicalOne(c: Component) {
    IsOperandToken(c) || IsOperatorToken(c) || (c.Group? && c.parts != [] && Flat(c.parts))
  }

  /** The components the scanner gives back unchanged: operands and operators,
      and non-empty groups of them. Groups inside groups are not kept (see
      NestedGroupFlattened). */
  predicate Canonical(cs: seq<Component>) {
    Separated(cs) && forall i :: 0 <= i < |cs| ==> CanonicalOne(cs[i])
  }

  /** The printed text without its spaces. */
  function CompactOne(c: Component): string
    decreases c, 1
  {
    match c
    case Token(t) => t
    case Group(parts) => "(" + Compact(parts) + ")"
  }

  function CompactAll(cs: seq<Component>): (r: seq<string>)
    ensures |r| == |cs|
    decreases cs, 0
  {
    seq(|cs|, i requires 0 <= i < |cs| => CompactOne(cs[i]))
  }

  function Compact(cs: seq<Component>): string
    decreases cs, 2
  {
    Join(CompactAll(cs), "")
  }

  lemma JoinEmptySnoc(parts: seq<string>, x: string)
    ensures Join(parts + [x], "") == Join(parts, "") + x
  {
    JoinSnoc(parts, x, "");
    if parts != [] {
      assert Join(parts, "") + "" + x == Join(parts, "") + x;
    }
  }

  lemma {:induction false} DespaceRender(c: Component)
    requires CanonicalOne(c)
    ensures Despace(Render(c)) == CompactOne(c)
    decreases c, 1
  {
    match c
    case Token(t) =>
      DespacePlain(t);
    case Group(ps) =>
      DespaceAll(ps, |ps|);
      assert RenderAll(ps)[..|ps|] == RenderAll(ps);
      assert CompactAll(ps)[..|ps|] == CompactAll(ps);
      DespaceConcat("(", ExprString(ps));
      DespaceConcat("(" + ExprString(ps), ")");
  }

  /** Dropping the spaces of two texts joined by a space. */
  lemma DespaceSpaced(a: string, b: string)
    ensures Despace(a + " " + b) == Despace(a) + Despace(b)
  {
    DespaceConcat(a + " ", b);
    DespaceConcat(a, " ");
  }

  lemma {:induction false} DespaceAll(cs: seq<Component>, k: nat)
    requires k <= |cs| && Canonical(cs)
    ensures Despace(Join(RenderAll(cs)[..k], " ")) == Join(CompactAll(cs)[..k], "")
    decreases cs, 0, k
  {
    if k > 0 {
      DespaceAll(cs, k - 1);
      DespaceRender(cs[k - 1]);
      var r := RenderAll(cs);
      var q := CompactAll(cs);
      assert r[..k] == r[..k - 1] + [r[k - 1]];
      assert q[..k] == q[..k - 1] + [q[k - 1]];
      JoinSnoc(r[..k - 1], r[k - 1], " ");
      JoinEmptySnoc(q[..k - 1], q[k - 1]);
      if k > 1 {
        DespaceSpaced(Join(r[..k - 1], " "), r[k - 1]);
      } else {
        assert Join(q[..0], "") == "";
      }
    }
  }

  /** Printing canonical components and dropping the spaces gives the compact text. */
  lemma DespaceExprString(cs: seq<Component>)
    requires Canonical(cs)
    ensures Despace(ExprString(cs)) == Compact(cs)
  {
    DespaceAll(cs, |cs|);
    assert RenderAll(cs)[..|cs|] == RenderAll(cs);
    assert CompactAll(cs)[..|cs|] == CompactAll(cs);
  }

  // ---------------------------------------------------------------------------
  // Scanning printed components gives them back

  /** Plain characters that are not operators at depth 0 go to the pending text. */
  lemma {:induction false} ReadPlain(st: State, t: string)
    requires forall i :: 0 <= i < |t| ==> IsPlain(t[i]) && (st.depth == 0 ==> !IsOperatorChar(t[i]))
    ensures RunFrom(st, t) == st.(current := st.current + t)
  {
    if t != [] {
      var u := t[..|t| - 1];
      ReadPlain(st, u);
      assert st.current + u + [t[|t| - 1]] == st.current + t;
    }
  }

  function PieceOf(c: Component): Piece {
    match c
    case Token(t) => Word(t)
    case Group(ps) => Sub(Compact(ps))
  }

  function PiecesOfAll(cs: seq<Component>): (ps: seq<Piece>)
    ensures |ps| == |cs|
  {
    seq(|cs|, i requires 0 <= i < |cs| => PieceOf(cs[i]))
  }

  lemma PiecesOfAllSnoc(cs: seq<Component>, k: nat)
    requires k < |cs|
    ensures PiecesOfAll(cs[..k + 1]) == PiecesOfAll(cs[..k]) + [PieceOf(cs[k])]
  {
  }

  /** The state after the compact text of the first k components: the pieces of
      the components so far, except that a final operand is still pending. */
  function Expected(cs: seq<Component>, k: nat): State
    requires k <= |cs|
  {
    if k > 0 && IsOperandToken(cs[k - 1]) then State(PiecesOfAll(cs[..k - 1]), cs[k - 1].text, 0)
    else State(PiecesOfAll(cs[..k]), [], 0)
  }

  /** Flushing the expected state completes its pieces. */
  lemma FlushExpected(cs: seq<Component>, k: nat)
    requires k <= |cs| && Canonical(cs)
    ensures Flush(Expected(cs, k)) == State(PiecesOfAll(cs[..k]), [], 0)
  {
    if k > 0 && IsOperandToken(cs[k - 1]) {
      var t := cs[k - 1].text;
      StripTrimmed(t);
      PiecesOfAllSnoc(cs, k - 1);
    }
  }

  predicate PlainText(x: string) {
    forall i :: 0 <= i < |x| ==> IsPlain(x[i])
  }

  lemma PlainConcat(a: string, b: string)
    requires PlainText(a) && PlainText(b)
    ensures PlainText(a + b)
  {
  }

  lemma {:induction false} CompactPlain(cs: seq<Component>, k: nat)
    requires k <= |cs| && Flat(cs)
    ensures PlainText(Join(CompactAll(cs)[..k], "")) && (k > 0 ==> Join(CompactAll(cs)[..k], "") != [])
  {
    if k > 0 {
      CompactPlain(cs, k - 1);
      var q := CompactAll(cs);
      assert q[..k] == q[..k - 1] + [q[k - 1]];
      JoinEmptySnoc(q[..k - 1], q[k - 1]);
      var c := cs[k - 1];
      assert q[k - 1] == c.text;
      assert c.text != [] && PlainText(c.text);
      PlainConcat(Join(q[..k - 1], ""), q[k - 1]);
    }
  }

  /** A non-empty flat group prints to a non-empty text of plain characters. */
  lemma CompactFlat(ps: seq<Component>)
    requires ps != [] && Flat(ps)
    ensures Compact(ps) != [] && PlainText(Compact(ps))
  {
    CompactPlain(ps, |ps|);
    assert CompactAll(ps)[..|ps|] == CompactAll(ps);
  }

  lemma FlatCanonical(cs: seq<Component>)
    requires Flat(cs)
    ensures Canonical(cs)
  {
  }

  /** An opening parenthesis at depth 0 flushes the pending text. */
  lemma ReadOpen(st: State)
    requires st.depth == 0
    ensures RunFrom(st, "(") == State(Flush(st).pieces, [], 1)
  {
    assert "("[..0] == [];
  }

  /** Reading one group at depth 0. */
  lemma ReadGroup(st: State, ps: seq<Component>)
    requires st.depth == 0
    requires ps != [] && Flat(ps)
    ensures RunFrom(st, CompactOne(Group(ps))) == State(Flush(st).pieces + [Sub(Compact(ps))], [], 0)
  {
    var x := Compact(ps);
    CompactFlat(ps);
    StripTrimmed(x);
    assert CompactOne(Group(ps)) == "(" + x + ")";
    RunFromConcat(st, "(", x);
    RunFromConcat(st, "(" + x, ")");
    var open := State(Flush(st).pieces, [], 1);
    ReadOpen(st);
    ReadPlain(open, x);
    assert RunFrom(st, "(" + x) == open.(current := x);
    assert ")"[..0] == [];
  }

  lemma ReadOperator(st: State, o: char)
    requires st.depth == 0 && IsOperatorChar(o)
    ensures RunFrom(st, [o]) == Flush(st).(pieces := Flush(st).pieces + [Word([o])])
  {
    assert [o][..0] == [];
  }

  /** Reading the k-th component from the state after the ones before it. */
  lemma ReadNext(cs: seq<Component>, k: nat)
    requires 0 < k <= |cs| && Canonical(cs)
    ensures RunFrom(Expected(cs, k - 1), CompactOne(cs[k - 1])) == Expected(cs, k)
  {
    var st := Expected(cs, k - 1);
    var c := cs[k - 1];
    PiecesOfAllSnoc(cs, k - 1);
    if IsOperandToken(c) {
      assert st.current == [];
      ReadPlain(st, c.text);
    } else {
      FlushExpected(cs, k - 1);
      if IsOperatorToken(c) {
        assert c.text == [c.text[0]];
        ReadOperator(st, c.text[0]);
      } else {
        ReadGroup(st, c.parts);
      }
    }
  }

  /** Reading the compact text of the first k canonical components. */
  lemma {:induction false} ReadPrefix(cs: seq<Component>, k: nat)
    requires k <= |cs| && Canonical(cs)
    ensures Run(Join(CompactAll(cs)[..k], "")) == Expected(cs, k)
  {
    if k > 0 {
      ReadPrefix(cs, k - 1);
      var q := CompactAll(cs);
      assert q[..k] == q[..k - 1] + [q[k - 1]];
      JoinEmptySnoc(q[..k - 1], q[k - 1]);
      RunFromConcat(Start, Join(q[..k - 1], ""), q[k - 1]);
      ReadNext(cs, k);
    }
  }

  /** Scanning the compact text of canonical components gives them back. */
  lemma {:induction false} ScanCompact(cs: seq<Component>)
    requires Canonical(cs)
    ensures Scan(Compact(cs)) == cs
    decreases cs
  {
    ReadPrefix(cs, |cs|);
    FlushExpected(cs, |cs|);
    assert cs[..|cs|] == cs;
    assert CompactAll(cs)[..|cs|] == CompactAll(cs);
    var x := Compact(cs);
    var ps := PiecesOfAll(cs);
    assert Pieces(x) == ps;
    PiecesShorter(x);
    var r := Scan(x);
    assert r == Components(ps, |x|);
    forall i | 0 <= i < |cs|
      ensures r[i] == cs[i]
    {
      assert ps[i] == PieceOf(cs[i]);
      if cs[i].Group? {
        var parts := cs[i].parts;
        FlatCanonical(parts);
        ScanCompact(parts);
        assert r[i] == Group(Scan(Compact(parts)));
      }
    }
  }

  /** Printing canonical components with __str__ and scanning the text gives the
      components back. */
  lemma ScanPrinted(cs: seq<Component>)
    requires Canonical(cs)
    ensures Scan(ExprString(cs)) == cs
  {
    DespaceExprString(cs);
    ScanDespace(ExprString(cs));
    ScanCompact(cs);
  }

  lemma RunSnoc(s: string, c: char)
    ensures Run(s + [c]) == Step(Run(s), c)
  {
    assert (s + [c])[..|s|] == s;
  }

  lemma InnerStart()
    ensures Run("A+B") == State([Word("A"), Word("+")], "B", 0)
  {
    StripTrimmed("A");
    RunSnoc("", 'A');
    assert "" + ['A'] == "A";
    assert Run("A") == State([], "A", 0);
    RunSnoc("A", '+');
    assert "A" + ['+'] == "A+";
    assert Run("A+") == State([Word("A"), Word("+")], [], 0);
    RunSnoc("A+", 'B');
    assert "A+" + ['B'] == "A+B";
  }

  lemma InnerPieces()
    ensures Pieces("A+B*C)") == [Word("A"), Word("+"), Word("B"), Word("*"), Word("C)")]
  {
    InnerEnd();
    StripTrimmed("C)");
  }

  lemma InnerMid()
    ensures Run("A+B*") == State([Word("A"), Word("+"), Word("B"), Word("*")], [], 0)
  {
    InnerStart();
    StripTrimmed("B");
    RunSnoc("A+B", '*');
    assert "A+B" + ['*'] == "A+B*";
  }

  lemma InnerEnd()
    ensures Run("A+B*C)") == State([Word("A"), Word("+"), Word("B"), Word("*")], "C)", -1)
  {
    InnerMid();
    RunSnoc("A+B*", 'C');
    assert "A+B*" + ['C'] == "A+B*C";
    assert Run("A+B*C") == State([Word("A"), Word("+"), Word("B"), Word("*")], "C", 0);
    RunSnoc("A+B*C", ')');
    assert "A+B*C" + [')'] == "A+B*C)";
  }

  lemma OuterStart()
    ensures Run("(A+(") == State([], "A+", 2)
  {
    RunSnoc("", '(');
    assert "" + ['('] == "(";
    assert Run("(") == State([], [], 1);
    RunSnoc("(", 'A');
    assert "(" + ['A'] == "(A";
    assert Run("(A") == State([], "A", 1);
    RunSnoc("(A", '+');
    assert "(A" + ['+'] == "(A+";
    assert Run("(A+") == State([], "A+", 1);
    RunSnoc("(A+", '(');
    assert "(A+" + ['('] == "(A+(";
    assert Run("(A+(") == State([], "A+", 2);
  }

  lemma OuterPieces()
    ensures Pieces("(A+(B*C))") == [Sub("A+B*C)")]
  {
    OuterStart();
    StripTrimmed("A+B*C)");
    RunSnoc("(A+(", 'B');
    assert "(A+(" + ['B'] == "(A+(B";
    assert Run("(A+(B") == State([], "A+B", 2);
    RunSnoc("(A+(B", '*');
    assert "(A+(B" + ['*'] == "(A+(B*";
    assert Run("(A+(B*") == State([], "A+B*", 2);
    RunSnoc("(A+(B*", 'C');
    assert "(A+(B*" + ['C'] == "(A+(B*C";
    assert Run("(A+(B*C") == State([], "A+B*C", 2);
    RunSnoc("(A+(B*C", ')');
    assert "(A+(B*C" + [')'] == "(A+(B*C)";
    assert Run("(A+(B*C)") == State([], "A+B*C)", 1);
    RunSnoc("(A+(B*C)", ')');
    assert "(A+(B*C)" + [')'] == "(A+(B*C))";
    assert Run("(A+(B*C))") == State([Sub("A+B*C)")], [], 0);
  }

  /** A group inside a group is not kept: its opening parenthesis is dropped and
      its closing one stays in the last word. */
  lemma NestedGroupFlattened()
    ensures Scan("(A+(B*C))") == [Group([Token("A"), Token("+"), Token("B"), Token("*"), Token("C)")])]
  {
    var tokens := [Token("A"), Token("+"), Token("B"), Token("*"), Token("C)")];
    InnerPieces();
    PiecesShorter("A+B*C)");
    var inner := Scan("A+B*C)");
    assert inner == Components(Pieces("A+B*C)"), 6);
    assert |inner| == 5;
    assert inner == tokens by {
      forall i | 0 <= i < 5
        ensures inner[i] == tokens[i]
      {
      }
    }
    OuterPieces();
    PiecesShorter("(A+(B*C))");
    assert Scan("(A+(B*C))") == Components([Sub("A+B*C)")], 9);
  }

  // ---------------------------------------------------------------------------
  /** Two operands around an operator print as "x o y" and scan back. */
  lemma ScanBinary(x: string, o: char, y: string)
    requires IsOperandToken(Token(x)) && IsOperandToken(Token(y)) && IsOperatorChar(o)
    ensures ExprString([Token(x), Token([o]), Token(y)]) == x + " " + [o] + " " + y
    ensures Scan(x + " " + [o] + " " + y) == [Token(x), Token([o]), Token(y)]
  {
    var cs := [Token(x), Token([o]), Token(y)];
    assert RenderAll(cs) == [x, [o], y];
    JoinThree(x, [o], y, " ");
    assert !IsOperandToken(cs[1]) by {
      assert cs[1].text[0] == o;
    }
    assert Canonical(cs);
    ScanPrinted(cs);
  }

  // The Expression object

  /** original_expression and the scanned components. */
  datatype Expression = Expression(original: string, components: seq<Component>)

  /** The tails of a list of three tokens. */
  lemma ThreeTails(cs: seq<Component>, x: string, y: string, z: string)
    requires cs == [Token(x), Token(y), Token(z)]
    ensures cs[1..][0] == Token(y) && cs[2..][0] == Token(z)
    ensures cs[1..][1..] == cs[2..] && cs[2..][1..] == []
  {
  }

  /** Three tokens shorter than a bound. */
  lemma ThreeTokensBelow(x: string, y: string, z: string, bound: nat)
    requires |x| < bound && |y| < bound && |z| < bound
    ensures var cs := [Token(x), Token(y), Token(z)];
            forall i :: 0 <= i < |cs| && cs[i].Token? ==> |cs[i].text| < bound
  {
    var cs := [Token(x), Token(y), Token(z)];
    assert cs[0].text == x && cs[1].text == y && cs[2].text == z;
  }

  /** Expression(text): the stripped text must be valid, otherwise ValueError. */
  function FromText(s: string): (r: Result<Expression>)
    ensures r.Ok? <==> IsValidExpression(Strip(s))
    ensures r.Err? ==> r.error == ValueError
    ensures r.Ok? ==> r.value.original == Strip(s) && |r.value.original| >= 2
    ensures r.Ok? ==> forall i :: 0 <= i < |r.value.components| && r.value.components[i].Token?
                        ==> |r.value.components[i].text| < |r.value.original|
  {
    var t := Strip(s);
    if IsValidExpression(t) then
      ValidIsLong(t);
      ValidTokensShorter(t);
      Ok(Expression(t, Scan(t)))
    else Err(ValueError)
  }

  /** Expression.__init__, running the scanner loop. */
  method NewExpression(s: string) returns (r: Result<Expression>)
    ensures r == FromText(s)
  {
    var t := Strip(s);
    if !IsValidExpression(t) {
      return Err(ValueError);
    }
    var components, _ := ParseRecursive(t);
    return Ok(Expression(t, components));
  }

  /** {"expression": str(self), "components": self.expression} */
  datatype ExpressionDict = ExpressionDict(expression: string, components: seq<Component>)

  /** Expression.to_dict: the display text scans back to the components it is
      stored with whenever they are canonical. */
  function ToDict(e: Expression): (d: ExpressionDict)
    ensures d.components == e.components
    ensures Canonical(e.components) ==> Scan(d.expression) == d.components
  {
    assert Canonical(e.components) ==> Scan(ExprString(e.components)) == e.components by {
      if Canonical(e.components) {
        ScanPrinted(e.components);
      }
    }
    ExpressionDict(ExprString(e.components), e.components)
  }
}
