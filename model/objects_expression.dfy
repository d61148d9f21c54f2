/** The expression of the Objects package (src/Objects/expression.py, class
    Expression): a stricter parenthesis check than the Models one, the four
    arithmetic operators, and a split of the text into trimmed parts that
    keeps the operators. */
module ObjectsExpression {
  import opened Results
  import opened Text

  /** One of the four characters + - * and / that operator_pattern matches. */
  predicate IsOperatorChar(c: char) {
    c == '+' || c == '-' || c == '*' || c == '/'
  }

  // ---------------------------------------------------------------------------
  // has_balanced_parentheses

  /** No prefix closes more parentheses than it opens. */
  predicate NeverNegative(s: string) {
    forall k :: 0 <= k <= |s| ==> Balance(s[..k]) >= 0
  }

  /** Expression.has_balanced_parentheses: the running balance may never drop
      below zero and must end at zero. */
  method HasBalancedParentheses(s: string) returns (b: bool)
    ensures b <==> NeverNegative(s) && Balance(s) == 0
  {
    var balance := 0;
    var i := 0;
    while i < |s|
      invariant 0 <= i <= |s|
      invariant balance == Balance(s[..i])
      invariant forall k :: 0 <= k <= i ==> Balance(s[..k]) >= 0
    {
      BalanceStep(s, i);
      if s[i] == '(' {
        balance := balance + 1;
      } else if s[i] == ')' {
        balance := balance - 1;
      }
      if balance < 0 {
        return false;
      }
      i := i + 1;
    }
    assert s[..|s|] == s;
    return balance == 0;
  }

  lemma BalanceStep(s: string, i: nat)
    requires i < |s|
    ensures Balance(s[..i + 1]) == Balance(s[..i]) + (if s[i] == '(' then 1 else if s[i] == ')' then -1 else 0)
  {
    assert s[..i + 1][..i] == s[..i];
  }

  /** ")(" has as many "(" as ")", so the Models check accepts it, but its
      first prefix closes a parenthesis that was never opened. */
  lemma StricterThanCounting()
    ensures Count('(', ")(") == Count(')', ")(") && !NeverNegative(")(")
  {
    assert ")("[..1] == ")";
    assert ")"[..0] == [];
    assert Balance(")("[..1]) == -1;
  }

  /** A balanced text has as many "(" as ")": every text this check accepts
      the Models check accepts too. */
  lemma BalancedCounts(s: string)
    requires NeverNegative(s) && Balance(s) == 0
    ensures Count('(', s) == Count(')', s)
  {
  }

  // ---------------------------------------------------------------------------
  // is_valid_expression

  /** Some operator character occurs (re.search(operator_pattern, expr)). */
  predicate HasOperator(s: string) {
    exists i :: 0 <= i < |s| && IsOperatorChar(s[i])
  }

  /** Expression.is_valid_expression: balanced, then at least one operator. */
  method IsValidExpression(expr: string) returns (b: bool)
    ensures b <==> NeverNegative(expr) && Balance(expr) == 0 && HasOperator(expr)
  {
    var balanced := HasBalancedParentheses(expr);
    if !balanced {
      return false;
    }
    return HasOperator(expr);
  }

  // ---------------------------------------------------------------------------
  // extract_expression

  /** Expression.extract_expression: a text that starts with "(" and ends with
      ")" loses both; any other text is kept. */
  function ExtractExpression(s: string): (r: string)
    ensures |s| >= 2 && s[0] == '(' && s[|s| - 1] == ')' ==> s == "(" + r + ")"
    ensures !(|s| >= 2 && s[0] == '(' && s[|s| - 1] == ')') ==> r == s
  {
    if |s| >= 2 && s[0] == '(' && s[|s| - 1] == ')' then s[1..|s| - 1] else s
  }

  /** Wrapping text in parentheses and extracting it gives the text back. */
  lemma ExtractWrapped(t: string)
    ensures ExtractExpression("(" + t + ")") == t
  {
    var s := "(" + t + ")";
    assert s[1..|s| - 1] == t;
  }

  /** Only the outer characters are looked at: "(A1) + (B1)" loses them and
      becomes "A1) + (B1". */
  lemma ExtractUnmatched()
    ensures ExtractExpression("(A1) + (B1)") == "A1) + (B1"
  {
    assert "(A1) + (B1)" == "(" + "A1) + (B1" + ")";
  }

  // ---------------------------------------------------------------------------
  // split_expression

  /** re.split(r"(\+|\-|\*|\/)", s): the text between operators, with each
      operator kept as a part of its own between them. */
  function SplitKeep(s: string): (parts: seq<string>)
    ensures |parts| % 2 == 1
  {
    if s == [] then [""]
    else
      var parts := SplitKeep(s[..|s| - 1]);
      var c := s[|s| - 1];
      if IsOperatorChar(c) then parts + [[c], ""]
      else parts[..|parts| - 1] + [parts[|parts| - 1] + [c]]
  }

  /** All parts concatenated. */
  function Concat(parts: seq<string>): string {
    if parts == [] then "" else Concat(parts[..|parts| - 1]) + parts[|parts| - 1]
  }

  lemma ConcatSnoc(parts: seq<string>, x: string)
    ensures Concat(parts + [x]) == Concat(parts) + x
  {
    assert (parts + [x])[..|parts|] == parts;
  }

  /** The split loses nothing: its parts concatenate to the text. */
  lemma {:induction false} SplitKeepConcat(s: string)
    ensures Concat(SplitKeep(s)) == s
  {
    if s != [] {
      var init := s[..|s| - 1];
      var c := s[|s| - 1];
      var parts := SplitKeep(init);
      SplitKeepConcat(init);
      assert s == init + [c];
      var front := parts[..|parts| - 1];
      var last := parts[|parts| - 1];
      assert parts == front + [last];
      ConcatSnoc(front, last);
      if IsOperatorChar(c) {
        ConcatSnoc(parts, [c]);
        ConcatSnoc(parts + [[c]], "");
        assert parts + [[c], ""] == parts + [[c]] + [""];
      } else {
        ConcatSnoc(front, last + [c]);
      }
    }
  }

  /** A part with no operator character in it. */
  predicate NoOperator(p: string) {
    forall i :: 0 <= i < |p| ==> !IsOperatorChar(p[i])
  }

  /** A part that is one operator. */
  predicate IsOperatorPart(p: string) {
    |p| == 1 && IsOperatorChar(p[0])
  }

  /** The operator parts of a list of parts, in order. */
  function OperatorParts(parts: seq<string>): seq<string> {
    if parts == [] then []
    else OperatorParts(parts[..|parts| - 1]) + (if IsOperatorPart(parts[|parts| - 1]) then [parts[|parts| - 1]] else [])
  }

  /** The operators of a text, in order, each as a one-character string. */
  function OperatorChars(s: string): seq<string> {
    if s == [] then []
    else OperatorChars(s[..|s| - 1]) + (if IsOperatorChar(s[|s| - 1]) then [[s[|s| - 1]]] else [])
  }

  lemma OperatorPartsSnoc(parts: seq<string>, x: string)
    ensures OperatorParts(parts + [x]) == OperatorParts(parts) + (if IsOperatorPart(x) then [x] else [])
  {
    assert (parts + [x])[..|parts|] == parts;
  }

  lemma NoOperatorSnoc(p: string, c: char)
    requires NoOperator(p) && !IsOperatorChar(c)
    ensures NoOperator(p + [c])
  {
    var q := p + [c];
    forall i | 0 <= i < |q|
      ensures !IsOperatorChar(q[i])
    {
      if i < |p| {
        assert q[i] == p[i];
      }
    }
  }

  /** Every part of the split is an operator or free of operators, and the
      last part is free of operators. */
  predicate WellSplit(parts: seq<string>) {
    |parts| >= 1 && NoOperator(parts[|parts| - 1])
    && forall i :: 0 <= i < |parts| ==> IsOperatorPart(parts[i]) || NoOperator(parts[i])
  }

  /** The split keeps every operator of the text, in order, as a part of its
      own, and leaves no operator inside any other part. */
  lemma {:induction false} SplitKeepOperators(s: string)
    ensures WellSplit(SplitKeep(s))
    ensures OperatorParts(SplitKeep(s)) == OperatorChars(s)
  {
    if s != [] {
      var init := s[..|s| - 1];
      var c := s[|s| - 1];
      SplitKeepOperators(init);
      if IsOperatorChar(c) {
        OperatorStep(SplitKeep(init), c);
      } else {
        PlainStep(SplitKeep(init), c);
      }
    }
  }

  /** An operator character adds itself as a part and starts an empty one. */
  lemma OperatorStep(parts: seq<string>, c: char)
    requires WellSplit(parts) && IsOperatorChar(c)
    ensures WellSplit(parts + [[c], ""])
    ensures OperatorParts(parts + [[c], ""]) == OperatorParts(parts) + [[c]]
  {
    OperatorPartsSnoc(parts, [c]);
    OperatorPartsSnoc(parts + [[c]], "");
    assert parts + [[c], ""] == parts + [[c]] + [""];
  }

  /** Any other character extends the last part, which stays free of
      operators. */
  lemma PlainStep(parts: seq<string>, c: char)
    requires WellSplit(parts) && !IsOperatorChar(c)
    ensures var ps := parts[..|parts| - 1] + [parts[|parts| - 1] + [c]];
            WellSplit(ps) && OperatorParts(ps) == OperatorParts(parts)
  {
    var front := parts[..|parts| - 1];
    var last := parts[|parts| - 1];
    assert parts == front + [last];
    OperatorPartsSnoc(front, last);
    var next := last + [c];
    NoOperatorSnoc(last, c);
    OperatorPartsSnoc(front, next);
    var ps := front + [next];
    forall i | 0 <= i < |ps|
      ensures IsOperatorPart(ps[i]) || NoOperator(ps[i])
    {
      if i < |front| {
        assert ps[i] == parts[i];
      }
    }
  }

  /** [part.strip() for part in parts if part.strip()] */
  function Cleaned(parts: seq<string>): (r: seq<string>)
    ensures forall i :: 0 <= i < |r| ==> r[i] != []
  {
    if parts == [] then []
    else
      var p := Strip(parts[|parts| - 1]);
      Cleaned(parts[..|parts| - 1]) + (if p != [] then [p] else [])
  }

  /** Stripping keeps a part an operator or free of operators. */
  lemma StripKeepsKind(p: string)
    ensures IsOperatorPart(p) ==> Strip(p) == p
    ensures NoOperator(p) ==> NoOperator(Strip(p)) && !IsOperatorPart(Strip(p))
  {
    StripSpec(p);
    if IsOperatorPart(p) {
      StripTrimmed(p);
    }
    var a := LeadingSpaces(p);
    var b := a + KeptLength(p[a..]);
    if NoOperator(p) {
      forall i | 0 <= i < |Strip(p)|
        ensures !IsOperatorChar(Strip(p)[i])
      {
        assert Strip(p)[i] == p[a + i];
      }
    }
  }

  /** Every part kept is trimmed and is an operator or free of operators, and
      the operators stay in order. */
  lemma {:induction false} CleanedOperators(parts: seq<string>)
    requires forall i :: 0 <= i < |parts| ==> IsOperatorPart(parts[i]) || NoOperator(parts[i])
    ensures forall i :: 0 <= i < |Cleaned(parts)| ==> IsOperatorPart(Cleaned(parts)[i]) || NoOperator(Cleaned(parts)[i])
    ensures forall i :: 0 <= i < |Cleaned(parts)| ==> Strip(Cleaned(parts)[i]) == Cleaned(parts)[i]
    ensures OperatorParts(Cleaned(parts)) == OperatorParts(parts)
  {
    if parts != [] {
      var front := parts[..|parts| - 1];
      var x := parts[|parts| - 1];
      assert parts == front + [x];
      CleanedOperators(front);
      OperatorPartsSnoc(front, x);
      StripKeepsKind(x);
      StripIdempotent(x);
      var p := Strip(x);
      if p != [] {
        OperatorPartsSnoc(Cleaned(front), p);
        var r := Cleaned(parts);
        assert parts[..|parts| - 1] == front;
        assert r == Cleaned(front) + [p];
        forall i | 0 <= i < |r|
          ensures (IsOperatorPart(r[i]) || NoOperator(r[i])) && Strip(r[i]) == r[i]
        {
          if i < |Cleaned(front)| {
            assert r[i] == Cleaned(front)[i];
          }
        }
      } else {
        assert parts[..|parts| - 1] == front;
        assert Cleaned(parts) == Cleaned(front);
        assert !IsOperatorPart(x);
      }
    }
  }

  /** str.lstrip("="): every leading "=" removed. */
  function LStripEquals(s: string): (r: string)
    ensures |r| <= |s| && r == s[|s| - |r|..]
    ensures r == [] || r[0] != '='
  {
    if s != [] && s[0] == '=' then LStripEquals(s[1..]) else s
  }

  /** split_expression: the trimmed non-empty parts of the split, operators
      included, with every "=" removed from the front of the first part when
      it starts with one. */
  function SplitExpression(expr: string): (parts: seq<string>)
    ensures OperatorParts(parts) == OperatorChars(expr)
    ensures forall i :: 0 <= i < |parts| ==> IsOperatorPart(parts[i]) || NoOperator(parts[i])
    ensures forall i :: 0 < i < |parts| ==> parts[i] != [] && Strip(parts[i]) == parts[i]
    ensures Concat(SplitKeep(expr)) == expr
  {
    var kept := Cleaned(SplitKeep(expr));
    SplitKeepConcat(expr);
    SplitKeepOperators(expr);
    CleanedOperators(SplitKeep(expr));
    if kept != [] && kept[0][0] == '=' then
      FirstPartReplaced(kept, LStripEquals(kept[0]));
      kept[0 := LStripEquals(kept[0])]
    else kept
  }

  /** Replacing a first part that is not an operator by a suffix of it changes
      no operator. */
  lemma FirstPartReplaced(parts: seq<string>, y: string)
    requires parts != [] && NoOperator(parts[0]) && |y| <= |parts[0]| && y == parts[0][|parts[0]| - |y|..]
    ensures NoOperator(y) && !IsOperatorPart(y)
    ensures OperatorParts(parts[0 := y]) == OperatorParts(parts)
  {
    var x := parts[0];
    forall i | 0 <= i < |y|
      ensures !IsOperatorChar(y[i])
    {
      assert y[i] == x[|x| - |y| + i];
    }
    FirstPartSwap(parts, y);
  }

  lemma {:induction false} FirstPartSwap(parts: seq<string>, y: string)
    requires parts != [] && !IsOperatorPart(parts[0]) && !IsOperatorPart(y)
    ensures OperatorParts(parts[0 := y]) == OperatorParts(parts)
  {
    if |parts| == 1 {
      assert parts == [] + [parts[0]];
      assert parts[0 := y] == [] + [y];
      OperatorPartsSnoc([], parts[0]);
      OperatorPartsSnoc([], y);
    } else {
      var front := parts[..|parts| - 1];
      var x := parts[|parts| - 1];
      FirstPartSwap(front, y);
      assert parts == front + [x];
      assert parts[0 := y] == front[0 := y] + [x];
      OperatorPartsSnoc(front, x);
      OperatorPartsSnoc(front[0 := y], x);
    }
  }

  // ---------------------------------------------------------------------------
  // The Expression object

  /** The two attributes __init__ sets: the extracted text and its parts. */
  datatype Expression = Expression(expression: string, components: seq<string>)

  /** Expression(expression): the outer parentheses removed, then split. No
      validity check is made. */
  function NewExpression(expression: string): (e: Expression)
    ensures e.expression == ExtractExpression(expression)
    ensures e.components == SplitExpression(e.expression)
  {
    var inner := ExtractExpression(expression);
    Expression(inner, SplitExpression(inner))
  }

  /** repr of each part. */
  function ReprEach(parts: seq<string>): (r: seq<string>)
    ensures |r| == |parts| && forall i :: 0 <= i < |parts| ==> r[i] == Repr(parts[i])
  {
    seq(|parts|, i requires 0 <= i < |parts| => Repr(parts[i]))
  }

  /** Expression.__str__: "Expression: " and the list of parts. */
  function Str(e: Expression): string {
    "Expression: [" + Join(ReprEach(e.components), ", ") + "]"
  }

  /** A text without operators is one part. */
  lemma {:induction false} SplitKeepPlain(x: string)
    requires NoOperator(x)
    ensures SplitKeep(x) == [x]
  {
    if x != [] {
      var init := x[..|x| - 1];
      assert NoOperator(init) by {
        forall i | 0 <= i < |init|
          ensures !IsOperatorChar(init[i])
        {
          assert init[i] == x[i];
        }
      }
      SplitKeepPlain(init);
      assert init + [x[|x| - 1]] == x;
    }
  }

  /** Text without operators appended to a text extends its last part. */
  lemma {:induction false} SplitKeepAppend(a: string, b: string)
    requires NoOperator(b)
    ensures var ps := SplitKeep(a); SplitKeep(a + b) == ps[..|ps| - 1] + [ps[|ps| - 1] + b]
  {
    var ps := SplitKeep(a);
    if b == [] {
      assert a + b == a;
      assert ps[|ps| - 1] + b == ps[|ps| - 1];
    } else {
      var init := b[..|b| - 1];
      var c := b[|b| - 1];
      assert NoOperator(init) by {
        forall i | 0 <= i < |init|
          ensures !IsOperatorChar(init[i])
        {
          assert init[i] == b[i];
        }
      }
      assert !IsOperatorChar(c);
      SplitKeepAppend(a, init);
      assert (a + b)[..|a + b| - 1] == a + init;
      assert ps[|ps| - 1] + init + [c] == ps[|ps| - 1] + b;
    }
  }

  /** An operator between two texts: the parts of the first, the operator,
      and the second as the last part. */
  lemma SplitKeepAround(a: string, c: char, b: string)
    requires IsOperatorChar(c) && NoOperator(b)
    ensures SplitKeep(a + [c] + b) == SplitKeep(a) + [[c], b]
  {
    var ps := SplitKeep(a) + [[c], ""];
    assert (a + [c])[..|a|] == a;
    assert SplitKeep(a + [c]) == ps;
    SplitKeepAppend(a + [c], b);
    assert ps[..|ps| - 1] == SplitKeep(a) + [[c]];
    assert ps[|ps| - 1] + b == b;
    assert SplitKeep(a) + [[c]] + [b] == SplitKeep(a) + [[c], b];
  }

  /** Expression("(A1 + B1)") holds "A1 + B1" and the parts A1, + and B1. */
  lemma AddExample()
    ensures NewExpression("(A1 + B1)") == Expression("A1 + B1", ["A1", "+", "B1"])
  {
    ExtractAdd();
    AddSplit();
  }

  lemma ExtractAdd()
    ensures ExtractExpression("(A1 + B1)") == "A1 + B1"
  {
    assert "(A1 + B1)" == "(" + "A1 + B1" + ")";
    ExtractWrapped("A1 + B1");
  }

  lemma AddSplit()
    ensures SplitExpression("A1 + B1") == ["A1", "+", "B1"]
  {
    AddPieces();
    AddCleaned();
  }

  lemma AddPieces()
    ensures SplitKeep("A1 + B1") == ["A1 ", "+", " B1"]
  {
    AddOperands();
    SplitKeepPlain("A1 ");
    SplitKeepAround("A1 ", '+', " B1");
    assert "A1 + B1" == "A1 " + ['+'] + " B1";
  }

  lemma AddOperands()
    ensures NoOperator("A1 ") && NoOperator(" B1")
  {
  }

  lemma AddCleaned()
    ensures Cleaned(["A1 ", "+", " B1"]) == ["A1", "+", "B1"]
  {
    StripA1();
    StripB1();
    StripTrimmed("+");
    assert ["A1 ", "+", " B1"][..2] == ["A1 ", "+"];
    assert ["A1 ", "+"][..1] == ["A1 "];
    assert ["A1 "][..0] == [];
  }

  lemma StripA1()
    ensures Strip("A1 ") == "A1"
  {
    assert LeadingSpaces("A1 ") == 0;
    assert "A1 "[..2] == "A1";
    assert KeptLength("A1 ") == 2;
  }

  lemma StripB1()
    ensures Strip(" B1") == "B1"
  {
    assert " B1"[1..] == "B1";
    assert LeadingSpaces(" B1") == 1;
    StripTrimmed("B1");
  }
}
