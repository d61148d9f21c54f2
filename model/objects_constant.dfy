/** A constant of the Objects package (src/Objects/constant.py, class
    Constant). The constructor stores its argument as given; the validity
    check raises instead of answering False; parse_constant reads an
    integer the way Python's int() reads a string, after removing quotes. */
module ObjectsConstant {
  import opened Results
  import opened Text

  /** Constant.is_valid_constant on a string: True for a string of digits,
      ValueError for anything else. It never answers False. */
  function IsValidConstant(s: string): (r: Result<bool>)
    ensures r.Ok? <==> IsDigitString(s)
    ensures r.Ok? ==> r.value
    ensures r.Err? ==> r.error == ValueError
  {
    if IsDigitString(s) then Ok(true) else Err(ValueError)
  }

  /** The constructor keeps its argument unchanged. */
  datatype Constant = Constant(value: string)

  /** Constant.__str__ */
  function Str(c: Constant): string {
    c.value
  }

  /** The number parse_constant returns: an int, or a float read by code this
      model does not contain. */
  datatype Number = IntValue(i: int) | FloatValue(text: string)

  /** constant_str.replace("'", "").replace('"', "") */
  function RemoveQuotes(s: string): (r: string)
    ensures |r| <= |s| && '\'' !in r && '"' !in r
    ensures forall c :: c != '\'' && c != '"' ==> (c in r <==> c in s)
  {
    if s == [] then []
    else
      var c := s[|s| - 1];
      RemoveQuotes(s[..|s| - 1]) + (if c == '\'' || c == '"' then [] else [c])
  }

  /** The digits of int()'s literal: digits with single underscores between
      them. */
  predicate IsIntBody(b: string) {
    b != [] && IsDigit(b[0]) && IsDigit(b[|b| - 1]) && IsLiteralChars(b)
    && forall i :: 0 <= i < |b| ==> Followed(b, i)
  }

  /** An underscore at i has a digit after it. */
  predicate Followed(b: string, i: int)
    requires 0 <= i < |b|
  {
    b[i] == '_' ==> i + 1 < |b| && IsDigit(b[i + 1])
  }

  predicate IsLiteralChars(b: string) {
    forall i :: 0 <= i < |b| ==> IsDigit(b[i]) || b[i] == '_'
  }

  /** The literal without its underscores. */
  function Digits(b: string): (d: string)
    requires IsLiteralChars(b)
    ensures AllDigits(d)
    ensures AllDigits(b) ==> d == b
  {
    if b == [] then []
    else
      var c := b[|b| - 1];
      Digits(b[..|b| - 1]) + (if c == '_' then [] else [c])
  }

  /** int(s) on a string: surrounding whitespace removed, then the signed
      literal; ValueError for anything else. */
  function ParseInt(s: string): (r: Result<int>)
    ensures r.Err? ==> r.error == ValueError
  {
    ParseSigned(Strip(s))
  }

  /** An optional sign, then the literal. */
  function ParseSigned(t: string): (r: Result<int>)
    ensures r.Err? ==> r.error == ValueError
    ensures IsDigitString(t) ==> r == Ok(DigitsValue(t))
  {
    if |t| > 0 && t[0] == '-' then
      var v :- ParseLiteral(t[1..]);
      Ok(-(v as int))
    else if |t| > 0 && t[0] == '+' then
      var v :- ParseLiteral(t[1..]);
      Ok(v as int)
    else
      var v :- ParseLiteral(t);
      Ok(v as int)
  }

  /** The unsigned literal: digits with single underscores between them. */
  function ParseLiteral(b: string): (r: Result<nat>)
    ensures r.Ok? <==> IsIntBody(b)
    ensures r.Err? ==> r.error == ValueError
    ensures IsDigitString(b) ==> r == Ok(DigitsValue(b))
  {
    if IsIntBody(b) then
      assert IsDigitString(b) ==> Digits(b) == b;
      Ok(DigitsValue(Digits(b)))
    else
      if IsDigitString(b) then DigitStringBody(b); Err(ValueError) else Err(ValueError)
  }

  /** Constant.parse_constant: quotes removed, then float() when there is a
      "." and int() otherwise. What float() accepts is the parameter
      floatSyntax. */
  function ParseConstant(floatSyntax: string -> bool, s: string): (r: Result<Number>)
    ensures r.Err? ==> r.error == ValueError
    ensures r.Ok? && r.value.FloatValue? ==> '.' in s && r.value.text == RemoveQuotes(s)
    ensures '.' !in s ==> (r.Ok? <==> ParseInt(RemoveQuotes(s)).Ok?)
    ensures '.' !in s && r.Ok? ==> r.value == IntValue(ParseInt(RemoveQuotes(s)).value)
  {
    var c := RemoveQuotes(s);
    if '.' in c then
      if floatSyntax(c) then Ok(FloatValue(c)) else Err(ValueError)
    else
      var i :- ParseInt(c);
      Ok(IntValue(i))
  }

  /** str() of an integer reads back as the same integer. */
  lemma ParsePrintedInt(n: int)
    ensures ParseInt(IntToString(n)) == Ok(n)
  {
    if n < 0 {
      PrintedNegative(n, NatToString(-n));
    } else {
      var d := NatToString(n);
      DigitsOfNatToString(n);
      ParseDigits(d);
    }
  }

  lemma PrintedNegative(n: int, d: string)
    requires n < 0 && d == NatToString(-n)
    ensures ParseInt(IntToString(n)) == Ok(n)
  {
    DigitsOfNatToString(-n);
    ParseNegative(d, -n);
    assert IntToString(n) == "-" + d;
  }

  lemma ParseDigits(d: string)
    requires IsDigitString(d)
    ensures ParseInt(d) == Ok(DigitsValue(d))
  {
    StripTrimmed(d);
  }

  /** A minus sign before digits of value m reads as -m. */
  lemma ParseNegative(d: string, m: nat)
    requires IsDigitString(d) && DigitsValue(d) == m
    ensures ParseInt("-" + d) == Ok(-(m as int))
  {
    NegativeTrimmed(d);
    SignedNegative(d, m);
  }

  lemma NegativeTrimmed(d: string)
    requires IsDigitString(d)
    ensures Strip("-" + d) == "-" + d
  {
    var s := "-" + d;
    assert s[|s| - 1] == d[|d| - 1];
    assert !IsSpace(s[0]) && !IsSpace(s[|s| - 1]);
    StripTrimmed(s);
  }

  lemma SignedNegative(d: string, m: nat)
    requires IsDigitString(d) && DigitsValue(d) == m
    ensures ParseSigned("-" + d) == Ok(-(m as int))
  {
    assert ("-" + d)[1..] == d;
  }

  lemma DigitStringBody(d: string)
    requires IsDigitString(d)
    ensures IsIntBody(d) && Digits(d) == d
  {
  }

  /** Quotes around an integer do not matter. */
  lemma QuotedInt(n: int)
    ensures ParseConstant(x => false, "'" + IntToString(n) + "'") == Ok(IntValue(n))
  {
    var s := IntToString(n);
    QuotesAround(s);
    ParsePrintedInt(n);
    assert '.' !in s;
  }

  lemma QuotesAround(s: string)
    requires '\'' !in s && '"' !in s
    ensures RemoveQuotes("'" + s + "'") == s
  {
    RemoveQuotesConcat("'" + s, "'");
    RemoveQuotesConcat("'", s);
    RemoveQuotesNone(s);
    assert RemoveQuotes("'") == [] by {
      assert "'"[..0] == [];
    }
  }

  lemma {:induction false} RemoveQuotesConcat(a: string, b: string)
    ensures RemoveQuotes(a + b) == RemoveQuotes(a) + RemoveQuotes(b)
  {
    if b != [] {
      assert (a + b)[..|a + b| - 1] == a + b[..|b| - 1];
      RemoveQuotesConcat(a, b[..|b| - 1]);
    } else {
      assert a + b == a;
    }
  }

  lemma {:induction false} RemoveQuotesNone(s: string)
    requires '\'' !in s && '"' !in s
    ensures RemoveQuotes(s) == s
  {
    if s != [] {
      RemoveQuotesNone(s[..|s| - 1]);
      assert s[..|s| - 1] + [s[|s| - 1]] == s;
    }
  }

  /** A string the validity check accepts parses as the integer its digits
      spell. */
  lemma ValidParses(floatSyntax: string -> bool, s: string)
    requires IsValidConstant(s).Ok?
    ensures ParseConstant(floatSyntax, s) == Ok(IntValue(DigitsValue(s)))
  {
    RemoveQuotesNone(s);
    StripTrimmed(s);
    assert '.' !in s;
  }

  /** Underscores between digits are allowed, letters are not: "1_000" is
      1000, and "1__0" and "abc" raise ValueError. */
  lemma IntExamples()
    ensures ParseInt("1_000") == Ok(1000)
    ensures ParseInt("1__0").Err? && ParseInt("abc").Err?
  {
    Thousand();
    DoubleUnderscore();
    Letters();
  }

  lemma Letters()
    ensures ParseInt("abc").Err?
  {
    StripTrimmed("abc");
  }

  lemma Thousand()
    ensures ParseInt("1_000") == Ok(1000)
  {
    StripTrimmed("1_000");
    ThousandDigits();
    ThousandValue();
  }

  lemma ThousandDigits()
    ensures Digits("1_000") == "1000"
  {
    assert "1_000"[..4] == "1_00";
    assert "1_00"[..3] == "1_0";
    assert "1_0"[..2] == "1_";
    assert "1_"[..1] == "1";
    assert "1"[..0] == [];
  }

  lemma ThousandValue()
    ensures DigitsValue("1000") == 1000
  {
    assert "1000"[..3] == "100";
    assert "100"[..2] == "10";
    assert "10"[..1] == "1";
    assert "1"[..0] == [];
    assert DigitsValue("1") == 1;
    assert DigitsValue("10") == 10;
    assert DigitsValue("100") == 100;
  }

  lemma DoubleUnderscore()
    ensures ParseInt("1__0").Err?
  {
    StripTrimmed("1__0");
    assert !IsIntBody("1__0") by {
      assert !Followed("1__0", 1);
    }
  }

  /** is_valid_constant("abc") raises ValueError. */
  lemma InvalidConstant()
    ensures IsValidConstant("abc") == Err(ValueError) && IsValidConstant("12.5") == Err(ValueError)
  {
    assert !IsDigit("abc"[0]);
    assert !IsDigit("12.5"[2]);
  }
}
