/** Spreadsheet function calls such as SUM(A1, MAX(B1, C1))
    (src/Models/function.py, class Function). */
module ModelsFunction {
  import opened Results
  import opened Text
  import opened Nodes
  import ModelsExpression

  /** A function argument: plain text, or a nested call kept as the dictionary
      {"function": display, "components": {"name": name, "arguments": [...]}}. */
  datatype Arg = Text(text: string) | Call(display: string, name: string, arguments: seq<Arg>)

  /** A function name and its parsed arguments. */
  datatype FunctionValue = FunctionValue(name: string, args: seq<Arg>)

  /** A character of [a-zA-Z_]. */
  predicate IsNameChar(c: char) {
    IsLetter(c) || c == '_'
  }

  predicate IsName(s: string) {
    |s| > 0 && forall i :: 0 <= i < |s| ==> IsNameChar(s[i])
  }

  /** Length of the leading run of name characters. */
  function NameRun(s: string): (n: nat)
    ensures n <= |s|
  {
    if s == [] || !IsNameChar(s[0]) then 0 else 1 + NameRun(s[1..])
  }

  lemma {:induction false} NameRunSpec(s: string)
    ensures var n := NameRun(s); (forall i :: 0 <= i < n ==> IsNameChar(s[i])) && (n < |s| ==> !IsNameChar(s[n]))
  {
    if s != [] && IsNameChar(s[0]) {
      NameRunSpec(s[1..]);
      var n := NameRun(s);
      forall i | 0 <= i < n
        ensures IsNameChar(s[i])
      {
        if i > 0 {
          assert s[i] == s[1..][i - 1];
        }
      }
    }
  }

  lemma {:induction false} NameRunConcat(a: string, b: string)
    requires forall i :: 0 <= i < |a| ==> IsNameChar(a[i])
    ensures NameRun(a + b) == |a| + NameRun(b)
  {
    if a != [] {
      assert (a + b)[0] == a[0];
      assert (a + b)[1..] == a[1..] + b;
      forall i | 0 <= i < |a[1..]|
        ensures IsNameChar(a[1..][i])
      {
        assert a[1..][i] == a[i + 1];
      }
      NameRunConcat(a[1..], b);
    } else {
      assert a + b == b;
    }
  }

  /** re.match(r"^([a-zA-Z_]+)\((.*)\)$", s): the name and the text between the
      parenthesis after the name and the final one. The dot does not match a
      newline, and the end anchor also matches just before a final newline. */
  function MatchCall(s: string): (m: Option<(string, string)>)
    ensures m.Some? ==> |m.value.0| + |m.value.1| + 2 <= |s| && m.value.0 != []
  {
    var u := if |s| > 0 && s[|s| - 1] == '\n' then s[..|s| - 1] else s;
    var n := NameRun(u);
    if n >= 1 && n + 2 <= |u| && u[n] == '(' && u[|u| - 1] == ')' && '\n' !in u[n + 1..|u| - 1]
    then Some((u[..n], u[n + 1..|u| - 1]))
    else None
  }

  /** Function.is_function_string */
  predicate IsFunctionString(s: string) {
    MatchCall(Strip(s)).Some?
  }

  /** What a match is made of: the name, "(", the argument text without a newline, ")". */
  lemma MatchCallSpec(s: string)
    requires MatchCall(s).Some? && (s == [] || s[|s| - 1] != '\n')
    ensures var m := MatchCall(s).value;
            IsName(m.0) && s == m.0 + "(" + m.1 + ")" && '\n' !in m.1
  {
    var n := NameRun(s);
    NameRunSpec(s);
    assert s == s[..n] + "(" + s[n + 1..|s| - 1] + ")";
  }

  /** A name, "(", text without a newline and ")" is matched as exactly that. */
  lemma MatchCallOf(name: string, body: string)
    requires IsName(name) && '\n' !in body
    ensures MatchCall(name + "(" + body + ")") == Some((name, body))
  {
    var s := name + "(" + body + ")";
    assert s == name + ("(" + body + ")");
    NameRunConcat(name, "(" + body + ")");
    assert NameRun("(" + body + ")") == 0;
    assert s[..|name|] == name;
    assert s[|name| + 1..|s| - 1] == body;
  }

  /** A stripped function string is name(body), with the body balanced when the
      whole text is. */
  lemma FunctionStringShape(s: string)
    requires IsFunctionString(s)
    ensures var t := Strip(s); var m := MatchCall(t).value;
            IsName(m.0) && t == m.0 + "(" + m.1 + ")" && '\n' !in m.1
            && Balance(m.1) == Balance(t)
  {
    var t := Strip(s);
    StripSpec(s);
    assert t != [] && !IsSpace(t[|t| - 1]);
    MatchCallSpec(t);
    var m := MatchCall(t).value;
    CallBalance(m.0, m.1);
  }

  /** The parentheses around the argument text cancel out. */
  lemma CallBalance(name: string, body: string)
    requires IsName(name)
    ensures Balance(name + "(" + body + ")") == Balance(body)
  {
    assert name + "(" + body + ")" == name + ("(" + body + ")");
    BalanceConcat(name, "(" + body + ")");
    assert "(" + body + ")" == ("(" + body) + ")";
    BalanceConcat("(" + body, ")");
    BalanceConcat("(", body);
    NoParenBalance(name);
    assert Balance("(") == 1 && Balance(")") == -1 by {
      assert "("[..0] == [] && ")"[..0] == [];
    }
  }

  /** A function string holds a parenthesis. */
  lemma FunctionStringHasParen(s: string)
    requires IsFunctionString(s)
    ensures '(' in s
  {
    FunctionStringShape(s);
    StripSpec(s);
    var t := Strip(s);
    var m := MatchCall(t).value;
    var a := LeadingSpaces(s);
    assert t[|m.0|] == '(';
    assert s[a + |m.0|] == t[|m.0|];
  }

  // ---------------------------------------------------------------------------
  // Splitting the argument text at commas outside parentheses

  /** parse_arguments part way through: the finished argument texts before
      stripping, the pending text and the bracket counter. */
  datatype Splitter = Splitter(pieces: seq<string>, current: string, brackets: int)

  function SplitStep(st: Splitter, c: char): Splitter {
    var b := if c == '(' then st.brackets + 1 else if c == ')' then st.brackets - 1 else st.brackets;
    if c == ',' && b == 0 then Splitter(st.pieces + [st.current], [], b)
    else Splitter(st.pieces, st.current + [c], b)
  }

  /** The splitter after reading s from state st. */
  function SplitFrom(st: Splitter, s: string): Splitter {
    if s == [] then st else SplitStep(SplitFrom(st, s[..|s| - 1]), s[|s| - 1])
  }

  function SplitRun(s: string): Splitter {
    SplitFrom(Splitter([], [], 0), s)
  }

  /** The argument texts parse_arguments collects, stripped, in order: one per comma
      at bracket depth 0, plus the pending text when it is not empty. */
  function ArgumentPieces(s: string): (r: seq<string>)
    ensures |r| <= |SplitRun(s).pieces| + 1
  {
    var st := SplitRun(s);
    seq(|st.pieces|, i requires 0 <= i < |st.pieces| => Strip(st.pieces[i]))
    + (if st.current != [] then [Strip(st.current)] else [])
  }

  /** The argument texts, or ValueError when the brackets do not close. */
  function ArgumentTexts(s: string): Result<seq<string>> {
    if SplitRun(s).brackets != 0 then Err(ValueError) else Ok(ArgumentPieces(s))
  }

  lemma {:induction false} SplitFromConcat(st: Splitter, a: string, b: string)
    ensures SplitFrom(st, a + b) == SplitFrom(SplitFrom(st, a), b)
  {
    if b == [] {
      assert a + b == a;
    } else {
      assert (a + b)[..|a + b| - 1] == a + b[..|b| - 1];
      SplitFromConcat(st, a, b[..|b| - 1]);
    }
  }

  lemma SingleCount(c: char, x: char)
    ensures Count(c, [x]) == if x == c then 1 else 0
  {
    assert [x][..0] == [];
  }

  /** The split loses nothing: the pieces and the pending text joined with commas
      give the text back. */
  lemma {:induction false} SplitRunJoin(s: string)
    ensures var st := SplitRun(s); Join(st.pieces + [st.current], ",") == s
  {
    if s != [] {
      var t := s[..|s| - 1];
      var c := s[|s| - 1];
      SplitRunJoin(t);
      var st := SplitRun(t);
      var joined := Join(st.pieces + [st.current], ",");
      assert SplitRun(s) == SplitStep(st, c);
      assert s == t + [c];
      JoinSnoc(st.pieces, st.current, ",");
      var next := SplitStep(st, c);
      if next.current == [] {
        JoinSnoc(st.pieces + [st.current], [], ",");
        assert next.pieces + [next.current] == (st.pieces + [st.current]) + [[]];
      } else {
        JoinSnoc(st.pieces, st.current + [c], ",");
        assert next.pieces + [next.current] == st.pieces + [st.current + [c]];
      }
    }
  }

  /** The counter is the text's bracket balance, the pending text carries that
      balance and every finished piece is balanced. */
  lemma {:induction false} SplitRunBalance(s: string)
    ensures var st := SplitRun(s);
            st.brackets == Balance(s) && Balance(st.current) == st.brackets
            && forall i :: 0 <= i < |st.pieces| ==> Balance(st.pieces[i]) == 0
  {
    if s != [] {
      var t := s[..|s| - 1];
      var c := s[|s| - 1];
      SplitRunBalance(t);
      var st := SplitRun(t);
      assert s == t + [c];
      BalanceConcat(t, [c]);
      BalanceConcat(st.current, [c]);
      SingleCount('(', c);
      SingleCount(')', c);
    }
  }

  /** No piece and no pending text is longer than the text read. */
  lemma {:induction false} SplitRunLengths(s: string)
    ensures var st := SplitRun(s);
            |st.current| <= |s| && forall i :: 0 <= i < |st.pieces| ==> |st.pieces[i]| <= |s|
  {
    if s != [] {
      SplitRunLengths(s[..|s| - 1]);
    }
  }

  /** Every argument text is at most as long as the argument list. */
  lemma ArgumentPiecesShorter(s: string)
    ensures forall i :: 0 <= i < |ArgumentPieces(s)| ==> |ArgumentPieces(s)[i]| <= |s|
  {
    SplitRunLengths(s);
  }

  /** Every argument text is balanced when the argument list is. */
  lemma ArgumentPiecesBalanced(s: string)
    requires Balance(s) == 0
    ensures forall i :: 0 <= i < |ArgumentPieces(s)| ==> Balance(ArgumentPieces(s)[i]) == 0
  {
    SplitRunBalance(s);
    var st := SplitRun(s);
    forall i | 0 <= i < |ArgumentPieces(s)|
      ensures Balance(ArgumentPieces(s)[i]) == 0
    {
      if i < |st.pieces| {
        BalanceStrip(st.pieces[i]);
      } else {
        BalanceStrip(st.current);
      }
    }
  }

  // ---------------------------------------------------------------------------
  // Parsing and printing

  /** Function(s) followed by parse_arguments(): the name and the parsed
      arguments, where every argument that is itself a function string becomes a
      nested call. */
  function Parse(s: string): Result<FunctionValue>
    decreases |s|, 2
  {
    var t := Strip(s);
    match MatchCall(t)
    case None => Err(ValueError)
    case Some(m) =>
      if Balance(t) != 0 then Err(ValueError)
      else
        var args :- ArgsOf(m.1);
        Ok(FunctionValue(m.0, args))
  }

  /** parse_arguments on an argument text. */
  function ArgsOf(body: string): Result<seq<Arg>>
    decreases |body| + 1, 1
  {
    var texts :- ArgumentTexts(body);
    ArgumentPiecesShorter(body);
    ParseArgs(texts, |body| + 1)
  }

  /** Function.parse_arg */
  function ParseArg(p: string): Result<Arg>
    decreases |p|, 3
  {
    if IsFunctionString(p) then
      var v :- Parse(p);
      Ok(Call(Format(v.name, v.args), v.name, v.args))
    else Ok(Text(p))
  }

  /** [parse_arg(a) for a in texts]: the first failure stops the list. */
  function ParseArgs(texts: seq<string>, bound: nat): Result<seq<Arg>>
    requires forall i :: 0 <= i < |texts| ==> |texts[i]| < bound
    decreases bound, 0, |texts|
  {
    if texts == [] then Ok([])
    else
      var init :- ParseArgs(texts[..|texts| - 1], bound);
      var last :- ParseArg(texts[|texts| - 1]);
      Ok(init + [last])
  }

  /** format_arg: text as it is, a nested call as name(arguments). */
  function FormatArg(a: Arg): string
    decreases a, 1
  {
    match a
    case Text(t) => t
    case Call(_, name, args) => name + "(" + FormatArgs(args) + ")"
  }

  function FormatArgs(args: seq<Arg>): string
    decreases args, 0
  {
    Join(seq(|args|, i requires 0 <= i < |args| => FormatArg(args[i])), ", ")
  }

  /** Function.__str__: name(arguments joined by ", "). */
  function Format(name: string, args: seq<Arg>): string {
    name + "(" + FormatArgs(args) + ")"
  }

  /** to_dict() of a parsed function. */
  function ToDict(v: FunctionValue): Arg {
    Call(Format(v.name, v.args), v.name, v.args)
  }

  lemma ParseArgsPrefixErr(texts: seq<string>, k: nat, bound: nat)
    requires forall i :: 0 <= i < |texts| ==> |texts[i]| < bound
    requires k <= |texts| && ParseArgs(texts[..k], bound).Err?
    ensures ParseArgs(texts, bound) == ParseArgs(texts[..k], bound)
    decreases |texts| - k
  {
    if k < |texts| {
      assert texts[..k + 1][..k] == texts[..k];
      ParseArgsPrefixErr(texts, k + 1, bound);
    } else {
      assert texts[..k] == texts;
    }
  }

  lemma {:induction false} ParseArgsAllOk(texts: seq<string>, bound: nat)
    requires forall i :: 0 <= i < |texts| ==> |texts[i]| < bound
    requires forall i :: 0 <= i < |texts| ==> ParseArg(texts[i]).Ok?
    ensures ParseArgs(texts, bound).Ok?
  {
    if texts != [] {
      var init := texts[..|texts| - 1];
      assert forall i :: 0 <= i < |init| ==> init[i] == texts[i];
      ParseArgsAllOk(init, bound);
    }
  }

  /** The only errors are the ones the constructor raises: parsing succeeds exactly
      for function strings with as many "(" as ")". The argument-level bracket
      check and the nested constructors never fail after that. */
  lemma {:induction false} ParseOk(s: string)
    ensures Parse(s).Ok? <==> IsFunctionString(s) && Balance(Strip(s)) == 0
    decreases |s|, 2
  {
    var t := Strip(s);
    if IsFunctionString(s) && Balance(t) == 0 {
      FunctionStringShape(s);
      ArgsOfOk(MatchCall(t).value.1);
    }
  }

  /** parse_arguments never fails on a balanced argument text. */
  lemma {:induction false} ArgsOfOk(body: string)
    requires Balance(body) == 0
    ensures ArgsOf(body).Ok?
    decreases |body| + 1, 1
  {
    var texts := ArgumentPieces(body);
    SplitRunBalance(body);
    ArgumentPiecesShorter(body);
    ArgumentPiecesBalanced(body);
    forall i | 0 <= i < |texts|
      ensures ParseArg(texts[i]).Ok?
    {
      ParseArgOk(texts[i], |body| + 1);
    }
    ParseArgsAllOk(texts, |body| + 1);
  }

  lemma {:induction false} ParseArgOk(p: string, bound: nat)
    requires |p| < bound && Balance(p) == 0
    ensures ParseArg(p).Ok?
    decreases bound, 0
  {
    if IsFunctionString(p) {
      BalanceStrip(p);
      ParseOk(p);
    }
  }

  lemma {:induction false} NoParenBalance(s: string)
    requires forall i :: 0 <= i < |s| ==> s[i] != '(' && s[i] != ')'
    ensures Balance(s) == 0
  {
    if s != [] {
      NoParenBalance(s[..|s| - 1]);
    }
  }

  // ---------------------------------------------------------------------------
  // Printing plain arguments and parsing them back

  /** An argument text __str__ prints and parse_arguments reads back unchanged:
      not empty, no surrounding whitespace, no comma, parenthesis or newline. */
  predicate PlainArg(t: string) {
    t != [] && !IsSpace(t[0]) && !IsSpace(t[|t| - 1])
    && forall i :: 0 <= i < |t| ==> t[i] != ',' && t[i] != '(' && t[i] != ')' && t[i] != '\n'
  }

  function TextArgs(texts: seq<string>): (args: seq<Arg>)
    ensures |args| == |texts|
  {
    seq(|texts|, i requires 0 <= i < |texts| => Text(texts[i]))
  }

  /** Text without commas and parentheses only extends the pending argument. */
  lemma {:induction false} SplitPlain(st: Splitter, x: string)
    requires forall i :: 0 <= i < |x| ==> x[i] != ',' && x[i] != '(' && x[i] != ')'
    ensures SplitFrom(st, x) == st.(current := st.current + x)
  {
    if x != [] {
      var u := x[..|x| - 1];
      SplitPlain(st, u);
      assert st.current + u + [x[|x| - 1]] == st.current + x;
    }
  }

  lemma StripLeadingSpace(x: string)
    requires x != [] && !IsSpace(x[0]) && !IsSpace(x[|x| - 1])
    ensures Strip(" " + x) == x
  {
    var s := " " + x;
    assert s[1..] == x;
    assert LeadingSpaces(s) == 1;
    assert s[1..] == x;
    StripTrimmed(x);
    assert x[0..] == x;
  }

  /** ", x" at bracket depth 0 finishes the pending piece and starts " x". */
  lemma SplitCommaArg(st: Splitter, x: string)
    requires st.brackets == 0 && PlainArg(x)
    ensures SplitFrom(st, ", " + x) == Splitter(st.pieces + [st.current], " " + x, 0)
  {
    CommaThen(x);
    SplitFromConcat(st, ",", " " + x);
    var mid := Splitter(st.pieces + [st.current], [], 0);
    SplitComma(st);
    SpacedPlain(x);
    SplitPlain(mid, " " + x);
    assert [] + (" " + x) == " " + x;
  }

  lemma CommaThen(x: string)
    ensures ", " + x == "," + (" " + x)
  {
  }

  lemma SplitComma(st: Splitter)
    requires st.brackets == 0
    ensures SplitFrom(st, ",") == Splitter(st.pieces + [st.current], [], 0)
  {
    assert ","[..0] == [];
  }

  lemma SpacedPlain(x: string)
    requires PlainArg(x)
    ensures forall i :: 0 <= i < |" " + x| ==> (" " + x)[i] != ',' && (" " + x)[i] != '(' && (" " + x)[i] != ')'
  {
    var s := " " + x;
    forall i | 0 <= i < |s|
      ensures s[i] != ',' && s[i] != '(' && s[i] != ')'
    {
      if i > 0 {
        assert s[i] == x[i - 1];
      }
    }
  }

  /** The stripped pieces of a splitter state. */
  predicate SplitsInto(st: Splitter, texts: seq<string>) {
    |texts| >= 1 && st.brackets == 0 && |st.pieces| == |texts| - 1 && st.current != []
    && Strip(st.current) == texts[|texts| - 1]
    && forall j :: 0 <= j < |st.pieces| ==> Strip(st.pieces[j]) == texts[j]
  }

  /** Splitting "t1, t2, ..., tn": one finished piece per comma, each stripping
      to its argument, and the last argument pending. */
  lemma {:induction false} SplitJoined(texts: seq<string>)
    requires |texts| >= 1 && forall i :: 0 <= i < |texts| ==> PlainArg(texts[i])
    ensures SplitsInto(SplitRun(Join(texts, ", ")), texts)
  {
    var n := |texts| - 1;
    var init := texts[..n];
    var x := texts[n];
    assert PlainArg(x);
    assert init + [x] == texts;
    if n == 0 {
      SplitJoinedOne(x);
      assert [] + [x] == texts;
    } else {
      assert forall i :: 0 <= i < |init| ==> init[i] == texts[i];
      SplitJoined(init);
      SplitJoinedStep(init, x);
    }
  }

  lemma SplitJoinedOne(x: string)
    requires PlainArg(x)
    ensures SplitsInto(SplitRun(Join([x], ", ")), [x])
  {
    StripTrimmed(x);
    SplitPlain(Splitter([], [], 0), x);
    assert [] + x == x;
    JoinSnoc([], x, ", ");
    assert [] + [x] == [x];
  }

  lemma SplitJoinedStep(init: seq<string>, x: string)
    requires init != [] && PlainArg(x) && SplitsInto(SplitRun(Join(init, ", ")), init)
    ensures SplitsInto(SplitRun(Join(init + [x], ", ")), init + [x])
  {
    var j := Join(init, ", ");
    JoinSnoc(init, x, ", ");
    assert Join(init + [x], ", ") == j + (", " + x);
    SplitFromConcat(Splitter([], [], 0), j, ", " + x);
    var st := SplitRun(j);
    SplitCommaArg(st, x);
    StripLeadingSpace(x);
    SplitsIntoSnoc(st, init, x);
  }

  lemma SplitsIntoSnoc(st: Splitter, init: seq<string>, x: string)
    requires SplitsInto(st, init) && Strip(" " + x) == x && x != []
    ensures SplitsInto(Splitter(st.pieces + [st.current], " " + x, 0), init + [x])
  {
    var ps := st.pieces + [st.current];
    var texts := init + [x];
    forall j | 0 <= j < |ps|
      ensures Strip(ps[j]) == texts[j]
    {
      if j < |st.pieces| {
        assert ps[j] == st.pieces[j];
      }
    }
  }

  lemma PiecesOfSplits(st: Splitter, texts: seq<string>)
    requires SplitsInto(st, texts)
    ensures seq(|st.pieces|, i requires 0 <= i < |st.pieces| => Strip(st.pieces[i])) + [Strip(st.current)] == texts
  {
  }

  /** parse_arguments' split of "t1, ..., tn" gives t1, ..., tn. */
  lemma ArgumentTextsJoined(texts: seq<string>)
    requires forall i :: 0 <= i < |texts| ==> PlainArg(texts[i])
    ensures ArgumentTexts(Join(texts, ", ")) == Ok(texts)
  {
    if texts != [] {
      var j := Join(texts, ", ");
      SplitJoined(texts);
      PiecesOfSplits(SplitRun(j), texts);
    }
  }

  /** No parenthesis and no newline. */
  predicate FlatText(b: string) {
    forall i :: 0 <= i < |b| ==> b[i] != '(' && b[i] != ')' && b[i] != '\n'
  }

  lemma FlatConcat(a: string, b: string)
    requires FlatText(a) && FlatText(b)
    ensures FlatText(a + b)
  {
  }

  lemma {:induction false} JoinedPlain(texts: seq<string>)
    requires forall i :: 0 <= i < |texts| ==> PlainArg(texts[i])
    ensures FlatText(Join(texts, ", "))
  {
    if |texts| == 1 {
      assert PlainArg(texts[0]);
    } else if |texts| > 1 {
      var init := texts[..|texts| - 1];
      var x := texts[|texts| - 1];
      assert PlainArg(x);
      JoinedPlain(init);
      FlatConcat(Join(init, ", "), ", ");
      FlatConcat(Join(init, ", ") + ", ", x);
    }
  }

  /** Parsing plain argument texts keeps them as text. */
  lemma {:induction false} ParseArgsPlain(texts: seq<string>, bound: nat)
    requires forall i :: 0 <= i < |texts| ==> PlainArg(texts[i]) && |texts[i]| < bound
    ensures ParseArgs(texts, bound) == Ok(TextArgs(texts))
  {
    if texts != [] {
      var init := texts[..|texts| - 1];
      var x := texts[|texts| - 1];
      assert forall i :: 0 <= i < |init| ==> init[i] == texts[i];
      ParseArgsPlain(init, bound);
      if IsFunctionString(x) {
        FunctionStringHasParen(x);
        assert false;
      }
      assert TextArgs(texts) == TextArgs(init) + [Text(x)];
    }
  }

  /** The printed text is its own strip, matches as the name and the argument
      text, and is balanced. */
  lemma FormattedShape(name: string, body: string)
    requires IsName(name) && FlatText(body)
    ensures var s := name + "(" + body + ")";
            Strip(s) == s && MatchCall(s) == Some((name, body)) && Balance(s) == 0
  {
    var s := name + "(" + body + ")";
    assert s[0] == name[0] && s[|s| - 1] == ')';
    StripTrimmed(s);
    assert '\n' !in body;
    MatchCallOf(name, body);
    BalanceCall(name, body);
  }

  /** A name without parentheses around a balanced argument text is balanced. */
  lemma BalanceCall(name: string, body: string)
    requires IsName(name) && FlatText(body)
    ensures Balance(name + "(" + body + ")") == 0
  {
    NoParenBalance(body);
    NoParenBalance(name);
    assert name + "(" + body + ")" == name + ("(" + body + ")");
    BalanceConcat(name, "(" + body + ")");
    BalanceConcat("(" + body, ")");
    BalanceConcat("(", body);
    SingleCount('(', '(');
    SingleCount(')', '(');
    SingleCount('(', ')');
    SingleCount(')', ')');
  }

  /** Printing a function with plain arguments and parsing the text gives the
      name and the arguments back, in order. */
  lemma ParseFormatted(name: string, texts: seq<string>)
    requires IsName(name) && forall i :: 0 <= i < |texts| ==> PlainArg(texts[i])
    ensures Parse(Format(name, TextArgs(texts))) == Ok(FunctionValue(name, TextArgs(texts)))
  {
    var args := TextArgs(texts);
    var body := Join(texts, ", ");
    assert seq(|args|, i requires 0 <= i < |args| => FormatArg(args[i])) == texts;
    assert Format(name, args) == name + "(" + body + ")";
    JoinedPlain(texts);
    FormattedShape(name, body);
    ArgumentTextsJoined(texts);
    ArgumentPiecesShorter(body);
    ParseArgsPlain(texts, |body| + 1);
  }

  /** Two plain arguments print separated by a comma and a space. */
  lemma FormatPair(name: string, a: string, b: string)
    ensures Format(name, TextArgs([a, b])) == name + "(" + a + ", " + b + ")"
  {
    var args := TextArgs([a, b]);
    assert seq(|args|, i requires 0 <= i < |args| => FormatArg(args[i])) == [a, b];
    JoinPair(a, b, ", ");
  }

  lemma NoFinalParen(s: string)
    requires s != [] && s[|s| - 1] != ')' && s[|s| - 1] != '\n' && !IsSpace(s[0]) && !IsSpace(s[|s| - 1])
    ensures !IsFunctionString(s)
  {
    StripTrimmed(s);
  }

  lemma NoName(s: string)
    requires s != [] && s[0] == '(' && s[|s| - 1] != '\n' && !IsSpace(s[|s| - 1])
    ensures !IsFunctionString(s)
  {
    StripTrimmed(s);
  }

  /** The pattern is greedy: two calls joined by an operator still match as one
      call, with "A1)+MAX(B1" as the argument text. */
  lemma GreedyMatch()
    ensures IsFunctionString("SUM(A1)+MAX(B1)")
    ensures MatchCall("SUM(A1)+MAX(B1)") == Some(("SUM", "A1)+MAX(B1"))
  {
    var greedy := "SUM(A1)+MAX(B1)";
    StripTrimmed(greedy);
    assert "SUM" + "(" + "A1)+MAX(B1" + ")" == greedy;
    assert IsName("SUM");
    MatchCallOf("SUM", "A1)+MAX(B1");
  }

  /** Text without a final ")" or without a name before "(" is rejected. */
  lemma RejectedShapes()
    ensures !IsFunctionString("INVALID(1, 2, 3")
    ensures !IsFunctionString("(1, 2, 3)")
    ensures !IsFunctionString("MISSINGPARENTHESIS")
  {
    NoFinalParen("INVALID(1, 2, 3");
    NoName("(1, 2, 3)");
    NoFinalParen("MISSINGPARENTHESIS");
  }

  // ---------------------------------------------------------------------------
  // Function.from_dict

  /** Function.from_dict: the name and str() of every argument, nested function
      dictionaries rebuilt first and printed with __str__, every other dictionary
      printed as a Python dict, then parsed as a function string. Dictionaries of
      other kinds have no "name" under "components" (KeyError) or no
      "components" dictionary at all (TypeError). */
  function FromDict(n: Node): (r: Result<FunctionValue>)
    ensures !n.FunctionNode? ==> r.Err?
    ensures r.Ok? ==> IsName(r.value.name)
    decreases n, 1
  {
    match n
    case FunctionNode(_, name, arguments) =>
      var texts :- ArgTexts(arguments);
      var v :- Parse(name + "(" + Join(texts, ", ") + ")");
      ParsedName(name + "(" + Join(texts, ", ") + ")");
      Ok(v)
    case ExpressionNode(_, _) => Err(TypeError)
    case NoMatch => Err(TypeError)
    case _ => Err(KeyError)
  }

  /** The argument texts Function.from_dict joins; the first failing nested
      dictionary stops the list. */
  function ArgTexts(args: seq<Node>): (r: Result<seq<string>>)
    ensures r.Ok? ==> |r.value| == |args|
    decreases args, 0
  {
    if args == [] then Ok([])
    else
      var first :- ArgText(args[0]);
      var rest :- ArgTexts(args[1..]);
      Ok([first] + rest)
  }

  function ArgText(a: Node): Result<string>
    decreases a, 2
  {
    if a.FunctionNode? then
      var f :- FromDict(a);
      Ok(Format(f.name, f.args))
    else Ok(Nodes.Repr(a))
  }

  lemma ParsedName(s: string)
    requires Parse(s).Ok?
    ensures IsName(Parse(s).value.name)
  {
    FunctionStringShape(s);
  }

  /** Every argument that is not a function dictionary reaches the rebuilt text
      as its Python dict display. */
  lemma {:induction false} ArgTextsFlat(args: seq<Node>)
    requires forall i :: 0 <= i < |args| ==> !args[i].FunctionNode?
    ensures ArgTexts(args) == Ok(seq(|args|, i requires 0 <= i < |args| => Nodes.Repr(args[i])))
    decreases args
  {
    if args != [] {
      var tail := args[1..];
      assert forall i :: 0 <= i < |tail| ==> !tail[i].FunctionNode? by {
        forall i | 0 <= i < |tail|
          ensures !tail[i].FunctionNode?
        {
          assert tail[i] == args[i + 1];
        }
      }
      ArgTextsFlat(tail);
      var all := seq(|args|, i requires 0 <= i < |args| => Nodes.Repr(args[i]));
      var rest := seq(|tail|, i requires 0 <= i < |tail| => Nodes.Repr(tail[i]));
      assert ArgText(args[0]) == Ok(Nodes.Repr(args[0]));
      assert ArgTexts(tail) == Ok(rest);
      assert all == [Nodes.Repr(args[0])] + rest;
    } else {
      assert seq(|args|, i requires 0 <= i < |args| => Nodes.Repr(args[i])) == [];
    }
  }

  /** A function dictionary whose arguments are not functions and whose argument
      displays are plain comes back with those displays as text arguments: the
      arguments' own structure is lost. */
  lemma FromDictFlat(display: string, name: string, args: seq<Node>)
    requires IsName(name)
    requires forall i :: 0 <= i < |args| ==> !args[i].FunctionNode? && PlainArg(Nodes.Repr(args[i]))
    ensures var texts := seq(|args|, i requires 0 <= i < |args| => Nodes.Repr(args[i]));
            FromDict(FunctionNode(display, name, args)) == Ok(FunctionValue(name, TextArgs(texts)))
  {
    var texts := seq(|args|, i requires 0 <= i < |args| => Nodes.Repr(args[i]));
    ArgTextsFlat(args);
    ParseFormatted(name, texts);
    assert Format(name, TextArgs(texts)) == name + "(" + Join(texts, ", ") + ")" by {
      var ta := TextArgs(texts);
      assert seq(|ta|, i requires 0 <= i < |ta| => FormatArg(ta[i])) == texts;
    }
  }

  /** No comma, parenthesis or newline. */
  predicate ArgChars(t: string) {
    forall i :: 0 <= i < |t| ==> t[i] != ',' && t[i] != '(' && t[i] != ')' && t[i] != '\n'
  }

  lemma ArgCharsConcat(a: string, b: string)
    requires ArgChars(a) && ArgChars(b)
    ensures ArgChars(a + b)
  {
  }

  lemma ConstantReprPlain(value: int)
    ensures PlainArg(Nodes.Repr(ConstantNode(value)))
  {
    var digits := NatToString(if value < 0 then -value else value);
    var number := IntToString(value);
    assert ArgChars(digits);
    assert ArgChars(number) by {
      if value < 0 {
        assert ArgChars("-");
        ArgCharsConcat("-", digits);
      }
    }
    var head := "{'constant': ";
    assert ArgChars(head) by {
      forall i | 0 <= i < |head|
        ensures head[i] != ',' && head[i] != '(' && head[i] != ')' && head[i] != '\n'
      {
      }
    }
    assert ArgChars("}");
    ArgCharsConcat(head, number);
    ArgCharsConcat(head + number, "}");
    var t := head + number + "}";
    assert Nodes.Repr(ConstantNode(value)) == t;
    assert t[0] == '{' && t[|t| - 1] == '}';
  }

  /** A constant argument comes back as the text of its dictionary, for example
      {'constant': 5}. */
  lemma ConstantArgumentBecomesText(display: string, name: string, value: int)
    requires IsName(name)
    ensures FromDict(FunctionNode(display, name, [ConstantNode(value)]))
            == Ok(FunctionValue(name, [Text(Nodes.Repr(ConstantNode(value)))]))
  {
    var t := Nodes.Repr(ConstantNode(value));
    ConstantReprPlain(value);
    FromDictFlat(display, name, [ConstantNode(value)]);
    assert seq(1, i requires 0 <= i < 1 => Nodes.Repr([ConstantNode(value)][i])) == [t];
    assert TextArgs([t]) == [Text(t)];
  }

  // ---------------------------------------------------------------------------
  // The Function object

  /** The arguments __str__ and to_dict work with: the stored list, or a fresh
      parse_arguments when the stored list is empty. */
  function Resolved(argsText: string, args: seq<Arg>): Result<seq<Arg>> {
    if args != [] then Ok(args) else ArgsOf(argsText)
  }

  /** A Function object: the name and argument text the constructor matched and
      the argument list parse_arguments stores. */
  class Function {
    var name: string
    var argsText: string
    var args: seq<Arg>

    /** What the constructor establishes and parse_arguments keeps. */
    predicate Valid()
      reads this
    {
      IsName(name) && '\n' !in argsText && Balance(argsText) == 0
      && (args == [] || ArgsOf(argsText) == Ok(args))
    }

    constructor Matched(name: string, argsText: string)
      ensures this.name == name && this.argsText == argsText && args == []
    {
      this.name := name;
      this.argsText := argsText;
      args := [];
    }

    /** Function(s): ValueError unless the stripped text is function-shaped with
        as many "(" as ")"; the name and argument text are the match's groups. */
    static method New(s: string) returns (r: Result<Function>)
      ensures r.Ok? <==> IsFunctionString(s) && Balance(Strip(s)) == 0
      ensures r.Err? ==> r.error == ValueError
      ensures r.Ok? ==> fresh(r.value) && r.value.Valid() && r.value.args == []
                        && MatchCall(Strip(s)) == Some((r.value.name, r.value.argsText))
                        && Strip(s) == r.value.name + "(" + r.value.argsText + ")"
    {
      var t := Strip(s);
      StripIdempotent(s);
      var m := MatchCall(t);
      if m.None? {
        return Err(ValueError);
      }
      var balanced := ModelsExpression.HasBalancedParentheses(t);
      if !balanced {
        return Err(ValueError);
      }
      FunctionStringShape(s);
      var f := new Function.Matched(m.value.0, m.value.1);
      BalanceConcat(m.value.0, "(" + m.value.1 + ")");
      return Ok(f);
    }

    /** parse_arguments: split at top-level commas, strip, then parse_arg each
        piece; on an error the stored list is left as it was. */
    method ParseArguments() returns (r: Result<seq<Arg>>)
      modifies this
      ensures r == ArgsOf(argsText)
      ensures name == old(name) && argsText == old(argsText)
      ensures args == if r.Ok? then r.value else old(args)
      decreases |argsText| + 1, 2
    {
      var pieces := SplitArguments(argsText);
      if pieces.Err? {
        return Err(pieces.error);
      }
      ArgumentPiecesShorter(argsText);
      var parsed := ParseEach(pieces.value, |argsText| + 1);
      if parsed.Err? {
        return Err(parsed.error);
      }
      args := parsed.value;
      return parsed;
    }

    /** The first loop of parse_arguments: the bracket counter, the pending
        argument and the stripped arguments found so far. */
    static method SplitArguments(text: string) returns (r: Result<seq<string>>)
      ensures r == ArgumentTexts(text)
    {
      var pieces: seq<string> := [];
      var brackets := 0;
      var current: string := [];
      for i := 0 to |text|
        invariant var st := SplitRun(text[..i]);
                  |pieces| == |st.pieces| && current == st.current && brackets == st.brackets
                  && forall j :: 0 <= j < |pieces| ==> pieces[j] == Strip(st.pieces[j])
      {
        var c := text[i];
        assert text[..i + 1][..i] == text[..i];
        if c == '(' {
          brackets := brackets + 1;
        } else if c == ')' {
          brackets := brackets - 1;
        }
        if c == ',' && brackets == 0 {
          pieces := pieces + [Strip(current)];
          current := [];
        } else {
          current := current + [c];
        }
      }
      assert text[..|text|] == text;
      ghost var st := SplitRun(text);
      ghost var stripped := seq(|st.pieces|, j requires 0 <= j < |st.pieces| => Strip(st.pieces[j]));
      assert pieces == stripped;
      if current != [] {
        pieces := pieces + [Strip(current)];
      }
      assert pieces == ArgumentPieces(text);
      if brackets != 0 {
        return Err(ValueError);
      }
      return Ok(pieces);
    }

    /** [self.parse_arg(arg) for arg in args]: the first error propagates. */
    static method ParseEach(pieces: seq<string>, bound: nat) returns (r: Result<seq<Arg>>)
      requires forall i :: 0 <= i < |pieces| ==> |pieces[i]| < bound
      ensures r == ParseArgs(pieces, bound)
      decreases bound, 1
    {
      var parsed: seq<Arg> := [];
      for k := 0 to |pieces|
        invariant ParseArgs(pieces[..k], bound) == Ok(parsed)
      {
        assert pieces[..k + 1][..k] == pieces[..k];
        var a := ParseArgument(pieces[k]);
        if a.Err? {
          ParseArgsPrefixErr(pieces, k + 1, bound);
          return Err(a.error);
        }
        parsed := parsed + [a.value];
      }
      assert pieces[..|pieces|] == pieces;
      return Ok(parsed);
    }

    /** parse_arg: a function string becomes the to_dict of a nested Function
        whose arguments are parsed; anything else stays text. */
    static method ParseArgument(arg: string) returns (r: Result<Arg>)
      ensures r == ParseArg(arg)
      decreases |arg|, 0
    {
      if !IsFunctionString(arg) {
        return Ok(Text(arg));
      }
      var nested := New(arg);
      if nested.Err? {
        ParseOk(arg);
        return Err(nested.error);
      }
      var f := nested.value;
      var parsed := f.ParseArguments();
      if parsed.Err? {
        return Err(parsed.error);
      }
      r := f.ToDict();
    }

    /** __str__: name(arguments joined by ", "), parsing the arguments first when
        none are stored. */
    method Str() returns (r: Result<string>)
      modifies this
      ensures name == old(name) && argsText == old(argsText)
      ensures var a := Resolved(old(argsText), old(args));
              r == (if a.Ok? then Ok(Format(name, a.value)) else Err(a.error))
              && args == (if a.Ok? then a.value else old(args))
      decreases |argsText| + 1, 3
    {
      if args == [] {
        var parsed := ParseArguments();
        if parsed.Err? {
          return Err(parsed.error);
        }
      }
      return Ok(Format(name, args));
    }

    /** to_dict: {"function": str(self), "components": {"name", "arguments"}}. */
    method ToDict() returns (r: Result<Arg>)
      modifies this
      ensures name == old(name) && argsText == old(argsText)
      ensures var a := Resolved(old(argsText), old(args));
              r == (if a.Ok? then Ok(Call(Format(name, a.value), name, a.value)) else Err(a.error))
              && args == (if a.Ok? then a.value else old(args))
      decreases |argsText| + 1, 4
    {
      if args == [] {
        var parsed := ParseArguments();
        if parsed.Err? {
          return Err(parsed.error);
        }
      }
      var text := Str();
      return Ok(Call(text.value, name, args));
    }
  }
}
