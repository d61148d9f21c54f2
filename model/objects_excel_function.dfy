/** A function call of the Objects package (src/Objects/excel_function.py,
    class ExcelFunction): a word, "(", the argument text and ")". The
    arguments are split at commas outside parentheses and kept as stripped
    text; nothing checks that the parentheses close. */
module ObjectsExcelFunction {
  import opened Results
  import opened Text
  import ModelsFunction

  /** A character of \w, read as ASCII: a letter, a digit or "_". */
  predicate IsWordChar(c: char) {
    IsLetter(c) || IsDigit(c) || c == '_'
  }

  predicate IsWord(s: string) {
    |s| > 0 && forall i :: 0 <= i < |s| ==> IsWordChar(s[i])
  }

  /** Length of the leading run of word characters. */
  function WordRun(s: string): (n: nat)
    ensures n <= |s|
  {
    if s == [] || !IsWordChar(s[0]) then 0 else 1 + WordRun(s[1..])
  }

  lemma {:induction false} WordRunSpec(s: string)
    ensures var n := WordRun(s); (forall i :: 0 <= i < n ==> IsWordChar(s[i])) && (n < |s| ==> !IsWordChar(s[n]))
  {
    if s != [] && IsWordChar(s[0]) {
      WordRunSpec(s[1..]);
      var n := WordRun(s);
      forall i | 0 <= i < n
        ensures IsWordChar(s[i])
      {
        if i > 0 {
          assert s[i] == s[1..][i - 1];
        }
      }
    }
  }

  lemma {:induction false} WordRunConcat(a: string, b: string)
    requires forall i :: 0 <= i < |a| ==> IsWordChar(a[i])
    ensures WordRun(a + b) == |a| + WordRun(b)
  {
    if a != [] {
      assert (a + b)[0] == a[0];
      assert (a + b)[1..] == a[1..] + b;
      forall i | 0 <= i < |a[1..]|
        ensures IsWordChar(a[1..][i])
      {
        assert a[1..][i] == a[i + 1];
      }
      WordRunConcat(a[1..], b);
    } else {
      assert a + b == b;
    }
  }

  /** re.match(r"(\w+)\((.*)\)$", s): the word before the first "(" and the
      text up to the last ")". The dot does not match a newline, and "$" also
      matches just before a final newline. */
  function MatchFunction(s: string): (m: Option<(string, string)>)
    ensures m.Some? ==> IsWord(m.value.0) && '\n' !in m.value.1
  {
    var u := if |s| > 0 && s[|s| - 1] == '\n' then s[..|s| - 1] else s;
    var n := WordRun(u);
    WordRunSpec(u);
    if n >= 1 && n + 2 <= |u| && u[n] == '(' && u[|u| - 1] == ')' && '\n' !in u[n + 1..|u| - 1]
    then Some((u[..n], u[n + 1..|u| - 1]))
    else None
  }

  /** A match is made of the word, "(", the argument text and ")". */
  lemma MatchFunctionSpec(s: string)
    requires MatchFunction(s).Some? && (s == [] || s[|s| - 1] != '\n')
    ensures var m := MatchFunction(s).value; s == m.0 + "(" + m.1 + ")"
  {
    var n := WordRun(s);
    assert s == s[..n] + "(" + s[n + 1..|s| - 1] + ")";
  }

  /** A word, "(", text without a newline and ")" match as exactly that. */
  lemma MatchFunctionOf(name: string, body: string)
    requires IsWord(name) && '\n' !in body
    ensures MatchFunction(name + "(" + body + ")") == Some((name, body))
  {
    var s := name + "(" + body + ")";
    assert s == name + ("(" + body + ")");
    WordRunConcat(name, "(" + body + ")");
    assert WordRun("(" + body + ")") == 0;
    assert s[..|name|] == name;
    assert s[|name| + 1..|s| - 1] == body;
  }

  // ---------------------------------------------------------------------------
  // parse_arguments

  /** parse_arguments part way through: the arguments collected, the pending
      characters and the bracket counter. */
  datatype ArgReader = ArgReader(args: seq<string>, current: string, brackets: int)

  const Start := ArgReader([], [], 0)

  /** One pass of the loop: the counter moves on a parenthesis; a comma at
      depth 0 finishes the pending text, stripped, unless nothing is pending;
      any other character is kept. */
  function ReadChar(st: ArgReader, c: char): ArgReader {
    var b := if c == '(' then st.brackets + 1 else if c == ')' then st.brackets - 1 else st.brackets;
    if c == ',' && b == 0 then
      if st.current != [] then ArgReader(st.args + [Strip(st.current)], [], b) else ArgReader(st.args, [], b)
    else ArgReader(st.args, st.current + [c], b)
  }

  function ReadFrom(st: ArgReader, s: string): ArgReader {
    if s == [] then st else ReadChar(ReadFrom(st, s[..|s| - 1]), s[|s| - 1])
  }

  /** The list parse_arguments returns: the collected arguments and the pending
      text, stripped, when any is pending. */
  function Arguments(s: string): seq<string> {
    var st := ReadFrom(Start, s);
    st.args + (if st.current != [] then [Strip(st.current)] else [])
  }

  /** No argument is longer than the text it was read from. */
  lemma {:induction false} ReadFromBounded(s: string)
    ensures var st := ReadFrom(Start, s);
            |st.current| <= |s| && forall i :: 0 <= i < |st.args| ==> |st.args[i]| <= |s|
  {
    if s != [] {
      var init := s[..|s| - 1];
      ReadFromBounded(init);
      var st := ReadFrom(Start, init);
      assert |Strip(st.current)| <= |st.current|;
    }
  }

  lemma ArgumentsBounded(s: string)
    ensures forall a :: a in Arguments(s) ==> |a| <= |s|
  {
    ReadFromBounded(s);
    var st := ReadFrom(Start, s);
    assert |Strip(st.current)| <= |st.current|;
  }

  /** ExcelFunction.parse_arguments */
  method ParseArguments(argsStr: string) returns (args: seq<string>)
    ensures args == Arguments(argsStr)
  {
    args := [];
    var brackets := 0;
    var current: string := [];
    for i := 0 to |argsStr|
      invariant ArgReader(args, current, brackets) == ReadFrom(Start, argsStr[..i])
    {
      var c := argsStr[i];
      assert argsStr[..i + 1][..i] == argsStr[..i];
      if c == '(' {
        brackets := brackets + 1;
      } else if c == ')' {
        brackets := brackets - 1;
      }
      if c == ',' && brackets == 0 {
        if current != [] {
          args := args + [Strip(current)];
          current := [];
        }
      } else {
        current := current + [c];
      }
    }
    assert argsStr[..|argsStr|] == argsStr;
    if current != [] {
      args := args + [Strip(current)];
    }
  }

  /** The non-empty texts of a list, stripped. */
  function Kept(texts: seq<string>): seq<string> {
    if texts == [] then []
    else Kept(texts[..|texts| - 1]) + (if texts[|texts| - 1] != [] then [Strip(texts[|texts| - 1])] else [])
  }

  lemma KeptSnoc(texts: seq<string>, x: string)
    ensures Kept(texts + [x]) == Kept(texts) + (if x != [] then [Strip(x)] else [])
  {
    assert (texts + [x])[..|texts|] == texts;
  }

  /** The reader cuts the text where the Function splitter of the Models
      package cuts it, but drops what is empty before stripping. */
  lemma {:induction false} ReadLikeModels(s: string)
    ensures var o := ReadFrom(Start, s); var m := ModelsFunction.SplitRun(s);
            o.brackets == m.brackets && o.current == m.current && o.args == Kept(m.pieces)
  {
    if s != [] {
      var init := s[..|s| - 1];
      ReadLikeModels(init);
      ReadStepLikeModels(ReadFrom(Start, init), ModelsFunction.SplitRun(init), s[|s| - 1]);
    }
  }

  /** One character keeps the reader and the Models splitter in step. */
  lemma ReadStepLikeModels(o: ArgReader, m: ModelsFunction.Splitter, c: char)
    requires o.brackets == m.brackets && o.current == m.current && o.args == Kept(m.pieces)
    ensures var o' := ReadChar(o, c); var m' := ModelsFunction.SplitStep(m, c);
            o'.brackets == m'.brackets && o'.current == m'.current && o'.args == Kept(m'.pieces)
  {
    var b := if c == '(' then m.brackets + 1 else if c == ')' then m.brackets - 1 else m.brackets;
    if c == ',' && b == 0 {
      assert ModelsFunction.SplitStep(m, c).pieces == m.pieces + [m.current];
      KeptSnoc(m.pieces, m.current);
    } else {
      assert ModelsFunction.SplitStep(m, c).pieces == m.pieces;
      assert ReadChar(o, c).args == o.args;
    }
  }

  /** The arguments are the non-empty pieces of the Models splitter, stripped. */
  lemma ArgumentsKept(s: string)
    ensures var m := ModelsFunction.SplitRun(s); Arguments(s) == Kept(m.pieces + [m.current])
  {
    ReadLikeModels(s);
    var m := ModelsFunction.SplitRun(s);
    KeptSnoc(m.pieces, m.current);
  }

  // ---------------------------------------------------------------------------
  // Reading printed arguments back

  /** The shape of an argument that reads back unchanged: plain text, or a call
      whose argument text holds no parenthesis. */
  datatype Shape = PlainShape(text: string) | CallShape(name: string, inner: string)

  function ShapeText(sh: Shape): string {
    match sh
    case PlainShape(t) => t
    case CallShape(name, inner) => name + "(" + inner + ")"
  }

  /** No parenthesis, and a comma only when inside parentheses. */
  predicate Flat(x: string, brackets: int) {
    forall i :: 0 <= i < |x| ==> x[i] != '(' && x[i] != ')' && x[i] != '\n' && (brackets == 0 ==> x[i] != ',')
  }

  predicate GoodShape(sh: Shape) {
    match sh
    case PlainShape(t) => ModelsFunction.PlainArg(t)
    case CallShape(name, inner) => (name == [] || ModelsFunction.PlainArg(name)) && Flat(name, 0) && Flat(inner, 1)
  }

  function Texts(shapes: seq<Shape>): (ts: seq<string>)
    ensures |ts| == |shapes| && forall i :: 0 <= i < |shapes| ==> ts[i] == ShapeText(shapes[i])
  {
    seq(|shapes|, i requires 0 <= i < |shapes| => ShapeText(shapes[i]))
  }

  /** The text of a good shape is not empty, has no surrounding whitespace and
      no newline. */
  lemma ShapeTextTrimmed(sh: Shape)
    requires GoodShape(sh)
    ensures var t := ShapeText(sh); t != [] && !IsSpace(t[0]) && !IsSpace(t[|t| - 1]) && '\n' !in t
  {
    var t := ShapeText(sh);
    if sh.CallShape? {
      var n := sh.name;
      assert t == n + "(" + sh.inner + ")";
      if n == [] {
        assert t[0] == '(';
      } else {
        assert t[0] == n[0];
      }
      forall i | 0 <= i < |t|
        ensures t[i] != '\n'
      {
        if i < |n| {
          assert t[i] == n[i];
        } else if |n| < i < |t| - 1 {
          assert t[i] == sh.inner[i - |n| - 1];
        }
      }
    }
  }

  lemma {:induction false} ReadFromConcat(st: ArgReader, a: string, b: string)
    ensures ReadFrom(st, a + b) == ReadFrom(ReadFrom(st, a), b)
  {
    if b == [] {
      assert a + b == a;
    } else {
      assert (a + b)[..|a + b| - 1] == a + b[..|b| - 1];
      ReadFromConcat(st, a, b[..|b| - 1]);
    }
  }

  /** Flat text only extends the pending text. */
  lemma {:induction false} ReadFlat(st: ArgReader, x: string)
    requires Flat(x, st.brackets)
    ensures ReadFrom(st, x) == st.(current := st.current + x)
  {
    if x != [] {
      var u := x[..|x| - 1];
      ReadFlat(st, u);
      assert st.current + u + [x[|x| - 1]] == st.current + x;
    }
  }

  lemma ReadOne(st: ArgReader, c: char)
    ensures ReadFrom(st, [c]) == ReadChar(st, c)
  {
    assert [c][..0] == [];
  }

  /** Reading a good shape at depth 0 appends it to the pending text and comes
      back to depth 0. */
  lemma ReadShape(st: ArgReader, sh: Shape)
    requires st.brackets == 0 && GoodShape(sh)
    ensures ReadFrom(st, ShapeText(sh)) == st.(current := st.current + ShapeText(sh))
  {
    if sh.PlainShape? {
      ReadFlat(st, sh.text);
    } else {
      ReadCall(st, sh.name, sh.inner);
    }
  }

  lemma ReadCall(st: ArgReader, name: string, inner: string)
    requires st.brackets == 0 && Flat(name, 0) && Flat(inner, 1)
    ensures ReadFrom(st, name + "(" + inner + ")") == st.(current := st.current + (name + "(" + inner + ")"))
  {
    ReadOpen(st, name);
    var s2 := ArgReader(st.args, st.current + name + "(", 1);
    ReadFlat(s2, inner);
    ReadFromConcat(st, name + "(", inner);
    var s3 := ArgReader(st.args, st.current + name + "(" + inner, 1);
    ReadOne(s3, ')');
    ReadFromConcat(st, name + "(" + inner, ")");
    assert st.current + name + "(" + inner + ")" == st.current + (name + "(" + inner + ")");
  }

  lemma ReadOpen(st: ArgReader, name: string)
    requires st.brackets == 0 && Flat(name, 0)
    ensures ReadFrom(st, name + "(") == ArgReader(st.args, st.current + name + "(", 1)
  {
    ReadFlat(st, name);
    ReadOne(st.(current := st.current + name), '(');
    ReadFromConcat(st, name, "(");
  }

  /** ", " and a good shape after a pending argument at depth 0: the argument
      is finished and " " and the shape are pending. */
  lemma ReadCommaShape(st: ArgReader, sh: Shape)
    requires st.brackets == 0 && st.current != [] && GoodShape(sh)
    ensures ReadFrom(st, ", " + ShapeText(sh)) == ArgReader(st.args + [Strip(st.current)], " " + ShapeText(sh), 0)
  {
    var t := ShapeText(sh);
    var mid := ArgReader(st.args + [Strip(st.current)], " ", 0);
    ReadCommaSpace(st);
    ReadFromConcat(st, ", ", t);
    ReadShape(mid, sh);
    assert ", " + t == ", " + t;
  }

  lemma ReadCommaSpace(st: ArgReader)
    requires st.brackets == 0 && st.current != []
    ensures ReadFrom(st, ", ") == ArgReader(st.args + [Strip(st.current)], " ", 0)
  {
    var mid := ArgReader(st.args + [Strip(st.current)], [], 0);
    ReadCommaAtTop(st);
    ReadOne(mid, ' ');
    ReadFromConcat(st, ",", " ");
    CommaSpace();
  }

  lemma ReadCommaAtTop(st: ArgReader)
    requires st.brackets == 0 && st.current != []
    ensures ReadFrom(st, ",") == ArgReader(st.args + [Strip(st.current)], [], 0)
  {
    ReadOne(st, ',');
  }

  lemma CommaSpace()
    ensures "," + " " == ", "
  {
  }

  /** The reader has collected all texts but the last, which is pending with
      nothing around it but spaces, at depth 0. */
  predicate Pending(st: ArgReader, ts: seq<string>) {
    |ts| >= 1 && st.brackets == 0 && st.current != [] && Strip(st.current) == ts[|ts| - 1]
    && st.args == ts[..|ts| - 1]
  }

  lemma PendingSnoc(st: ArgReader, ts: seq<string>, t: string)
    requires Pending(st, ts) && Strip(" " + t) == t
    ensures Pending(ArgReader(st.args + [Strip(st.current)], " " + t, 0), ts + [t])
  {
    assert (ts + [t])[..|ts|] == ts[..|ts| - 1] + [ts[|ts| - 1]];
  }

  /** Reading good shapes joined by ", ": every shape but the last is
      collected and the last is pending. */
  lemma {:induction false} ReadJoined(shapes: seq<Shape>, ts: seq<string>)
    requires |shapes| >= 1 && ts == Texts(shapes) && forall i :: 0 <= i < |shapes| ==> GoodShape(shapes[i])
    ensures Pending(ReadFrom(Start, Join(ts, ", ")), ts)
  {
    var n := |shapes| - 1;
    assert GoodShape(shapes[n]) && ts[n] == ShapeText(shapes[n]);
    if n == 0 {
      assert ts == [ts[0]];
      ReadJoinedOne(shapes[0]);
    } else {
      var init := shapes[..n];
      var front := ts[..n];
      assert front == Texts(init);
      assert forall i :: 0 <= i < |init| ==> init[i] == shapes[i];
      ReadJoined(init, front);
      assert ts == front + [ts[n]];
      ReadJoinedStep(front, shapes[n]);
    }
  }

  lemma ReadJoinedOne(sh: Shape)
    requires GoodShape(sh)
    ensures Pending(ReadFrom(Start, Join([ShapeText(sh)], ", ")), [ShapeText(sh)])
  {
    var t := ShapeText(sh);
    ShapeTextTrimmed(sh);
    ReadShape(Start, sh);
    assert Join([t], ", ") == t;
    StripTrimmed(t);
    assert [] + t == t;
  }

  lemma ReadJoinedStep(front: seq<string>, sh: Shape)
    requires Pending(ReadFrom(Start, Join(front, ", ")), front) && GoodShape(sh)
    ensures Pending(ReadFrom(Start, Join(front + [ShapeText(sh)], ", ")), front + [ShapeText(sh)])
  {
    var t := ShapeText(sh);
    var j := Join(front, ", ");
    JoinCommaStep(front, t);
    ReadFromConcat(Start, j, ", " + t);
    PendingStep(ReadFrom(Start, j), front, sh);
  }

  lemma JoinCommaStep(front: seq<string>, t: string)
    requires front != []
    ensures Join(front + [t], ", ") == Join(front, ", ") + (", " + t)
  {
    JoinSnoc(front, t, ", ");
  }

  lemma PendingStep(st: ArgReader, front: seq<string>, sh: Shape)
    requires Pending(st, front) && GoodShape(sh)
    ensures Pending(ReadFrom(st, ", " + ShapeText(sh)), front + [ShapeText(sh)])
  {
    var t := ShapeText(sh);
    ShapeTextTrimmed(sh);
    ReadCommaShape(st, sh);
    ModelsFunction.StripLeadingSpace(t);
    PendingSnoc(st, front, t);
  }

  /** Printing good shapes joined by ", " and reading the text gives them back. */
  lemma JoinedArguments(shapes: seq<Shape>)
    requires forall i :: 0 <= i < |shapes| ==> GoodShape(shapes[i])
    ensures Arguments(Join(Texts(shapes), ", ")) == Texts(shapes)
  {
    var ts := Texts(shapes);
    if shapes != [] {
      ReadJoined(shapes, ts);
      PendingArguments(ReadFrom(Start, Join(ts, ", ")), ts);
    }
  }

  lemma PendingArguments(st: ArgReader, ts: seq<string>)
    requires Pending(st, ts)
    ensures st.args + (if st.current != [] then [Strip(st.current)] else []) == ts
  {
    assert ts[..|ts| - 1] + [ts[|ts| - 1]] == ts;
  }

  /** The joined text of good shapes has no newline. */
  lemma {:induction false} JoinedNoNewline(shapes: seq<Shape>)
    requires forall i :: 0 <= i < |shapes| ==> GoodShape(shapes[i])
    ensures '\n' !in Join(Texts(shapes), ", ")
  {
    if shapes != [] {
      var n := |shapes| - 1;
      var init := shapes[..n];
      assert forall i :: 0 <= i < |init| ==> init[i] == shapes[i];
      JoinedNoNewline(init);
      ShapeTextTrimmed(shapes[n]);
      assert Texts(shapes) == Texts(init) + [ShapeText(shapes[n])];
      JoinSnoc(Texts(init), ShapeText(shapes[n]), ", ");
    }
  }

  // ---------------------------------------------------------------------------
  // The ExcelFunction object

  /** The attributes __init__ sets; they are not changed afterwards. */
  datatype ExcelFunction = ExcelFunction(name: string, arguments: seq<string>)

  /** ExcelFunction(function_string): ValueError unless the pattern matches,
      then the word and the split argument text. The text is not stripped. */
  function New(s: string): (r: Result<ExcelFunction>)
    ensures r.Ok? <==> MatchFunction(s).Some?
    ensures r.Err? ==> r.error == ValueError
    ensures r.Ok? ==> IsWord(r.value.name)
  {
    match MatchFunction(s)
    case None => Err(ValueError)
    case Some(m) => Ok(ExcelFunction(m.0, Arguments(m.1)))
  }

  /** Every argument is shorter than the call it was read from. */
  lemma ArgumentsShorter(s: string)
    requires New(s).Ok?
    ensures forall a :: a in New(s).value.arguments ==> |a| < |s|
  {
    var m := MatchFunction(s).value;
    assert |m.1| < |s|;
    ArgumentsBounded(m.1);
  }

  /** ExcelFunction.__str__: name(arguments joined by ", "). */
  function Str(f: ExcelFunction): string {
    f.name + "(" + Join(f.arguments, ", ") + ")"
  }

  /** A function whose arguments are good shapes prints as text that reads
      back as the same function. */
  lemma PrintedParses(name: string, shapes: seq<Shape>)
    requires IsWord(name) && forall i :: 0 <= i < |shapes| ==> GoodShape(shapes[i])
    ensures New(Str(ExcelFunction(name, Texts(shapes)))) == Ok(ExcelFunction(name, Texts(shapes)))
  {
    JoinedNoNewline(shapes);
    MatchFunctionOf(name, Join(Texts(shapes), ", "));
    JoinedArguments(shapes);
  }

  /** A matched function string that does not end in a newline is printed back
      as the same text when its arguments are good shapes joined by ", ". */
  lemma ParsedPrints(s: string, shapes: seq<Shape>)
    requires MatchFunction(s).Some? && s[|s| - 1] != '\n'
    requires forall i :: 0 <= i < |shapes| ==> GoodShape(shapes[i])
    requires MatchFunction(s).value.1 == Join(Texts(shapes), ", ")
    ensures New(s).Ok? && Str(New(s).value) == s
  {
    MatchFunctionSpec(s);
    JoinedArguments(shapes);
  }

  /** ExcelFunction("SUM(1, 2, 3)") has the arguments "1", "2" and "3" and
      prints as "SUM(1, 2, 3)". */
  lemma SumExample()
    ensures New("SUM(1, 2, 3)") == Ok(ExcelFunction("SUM", ["1", "2", "3"]))
    ensures Str(ExcelFunction("SUM", ["1", "2", "3"])) == "SUM(1, 2, 3)"
  {
    var shapes := SumShapes();
    SumText();
    PrintedParses("SUM", shapes);
  }

  function SumShapes(): (shapes: seq<Shape>)
    ensures Texts(shapes) == ["1", "2", "3"] && forall i :: 0 <= i < |shapes| ==> GoodShape(shapes[i])
  {
    [PlainShape("1"), PlainShape("2"), PlainShape("3")]
  }

  lemma SumText()
    ensures IsWord("SUM") && Str(ExcelFunction("SUM", ["1", "2", "3"])) == "SUM(1, 2, 3)"
  {
    JoinThree("1", "2", "3", ", ");
    assert "SUM" + "(" + ("1" + ", " + "2" + ", " + "3") + ")" == "SUM(1, 2, 3)";
  }

  /** ExcelFunction("AVERAGE(1, 2, SUM(4, 5))") has three arguments, the last
      the text "SUM(4, 5)", and prints as the text it was made from. */
  lemma AverageExample()
    ensures New("AVERAGE(1, 2, SUM(4, 5))") == Ok(ExcelFunction("AVERAGE", ["1", "2", "SUM(4, 5)"]))
    ensures Str(ExcelFunction("AVERAGE", ["1", "2", "SUM(4, 5)"])) == "AVERAGE(1, 2, SUM(4, 5))"
  {
    var shapes := AverageShapes();
    AverageText();
    PrintedParses("AVERAGE", shapes);
  }

  function AverageShapes(): (shapes: seq<Shape>)
    ensures Texts(shapes) == ["1", "2", "SUM(4, 5)"] && forall i :: 0 <= i < |shapes| ==> GoodShape(shapes[i])
  {
    var shapes := [PlainShape("1"), PlainShape("2"), CallShape("SUM", "4, 5")];
    assert ShapeText(shapes[2]) == "SUM(4, 5)";
    assert GoodShape(shapes[2]);
    shapes
  }

  lemma AverageText()
    ensures IsWord("AVERAGE") && Str(ExcelFunction("AVERAGE", ["1", "2", "SUM(4, 5)"])) == "AVERAGE(1, 2, SUM(4, 5))"
  {
    JoinThree("1", "2", "SUM(4, 5)", ", ");
    assert "AVERAGE" + "(" + ("1" + ", " + "2" + ", " + "SUM(4, 5)") + ")" == "AVERAGE(1, 2, SUM(4, 5))";
  }

  /** Parentheses inside the argument text are not checked: "SUM((1, 2))" is
      accepted, with the single argument "(1, 2)". */
  lemma NestedParenthesesAccepted()
    ensures New("SUM((1, 2))") == Ok(ExcelFunction("SUM", ["(1, 2)"]))
  {
    var shapes := [CallShape("", "1, 2")];
    assert ShapeText(shapes[0]) == "(1, 2)";
    assert Texts(shapes) == ["(1, 2)"];
    assert GoodShape(shapes[0]);
    assert IsWord("SUM");
    PrintedParses("SUM", shapes);
    assert "SUM" + "(" + "(1, 2)" + ")" == "SUM((1, 2))";
  }

  /** A comma with nothing pending adds no argument: "1,,2" gives "1" and "2". */
  lemma EmptyPieceDropped()
    ensures Arguments("1,,2") == ["1", "2"]
  {
    OneComma();
    CommaTwo();
    assert "1,,2" == "1," + ",2";
    ReadFromConcat(Start, "1,", ",2");
    StripDigit('2');
  }

  lemma CommaTwo()
    ensures ReadFrom(ArgReader(["1"], [], 0), ",2") == ArgReader(["1"], "2", 0)
  {
    var st := ArgReader(["1"], [], 0);
    assert ",2" == "," + "2";
    ReadOne(st, ',');
    ReadOne(st, '2');
    ReadFromConcat(st, ",", "2");
  }

  lemma OneComma()
    ensures ReadFrom(Start, "1,") == ArgReader(["1"], [], 0)
  {
    ReadOne(Start, '1');
    ReadOne(ArgReader([], "1", 0), ',');
    ReadFromConcat(Start, "1", ",");
    StripDigit('1');
  }

  lemma StripDigit(c: char)
    requires IsDigit(c)
    ensures Strip([c]) == [c]
  {
    StripTrimmed([c]);
  }

  /** "INVALID(1, 2, 3", "(1, 2, 3)" and "MISSINGPARENTHESIS" raise ValueError. */
  lemma RejectedFunctions()
    ensures New("INVALID(1, 2, 3").Err? && New("(1, 2, 3)").Err? && New("MISSINGPARENTHESIS").Err?
  {
    NoFinalParen("INVALID(1, 2, 3");
    NoWord("(1, 2, 3)");
    NoFinalParen("MISSINGPARENTHESIS");
  }

  lemma NoFinalParen(s: string)
    requires s != [] && s[|s| - 1] != ')' && s[|s| - 1] != '\n'
    ensures MatchFunction(s).None?
  {
  }

  lemma NoWord(s: string)
    requires s != [] && s[0] == '(' && s[|s| - 1] != '\n'
    ensures MatchFunction(s).None?
  {
  }
}
