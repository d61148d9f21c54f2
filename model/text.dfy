/** Python string primitives the formula code relies on: whitespace,
    strip, join, character classes, decimal conversion, counting and repr. */
module Text {
  import opened Results

  /** Characters for which Python's str.isspace() holds; str.strip() removes them. */
  predicate IsSpace(c: char) {
    c == ' ' || ('\t' <= c <= '\r') || ('\U{1c}' <= c <= '\U{1f}') || c == '\U{85}' || c == '\U{a0}'
    || c == '\U{1680}' || ('\U{2000}' <= c <= '\U{200a}') || c == '\U{2028}' || c == '\U{2029}'
    || c == '\U{202f}' || c == '\U{205f}' || c == '\U{3000}'
  }

  predicate IsDigit(c: char) {
    '0' <= c <= '9'
  }

  predicate IsUpper(c: char) {
    'A' <= c <= 'Z'
  }

  predicate IsLower(c: char) {
    'a' <= c <= 'z'
  }

  predicate IsLetter(c: char) {
    IsUpper(c) || IsLower(c)
  }

  predicate AllDigits(s: string) {
    forall i :: 0 <= i < |s| ==> IsDigit(s[i])
  }

  predicate AllUpper(s: string) {
    forall i :: 0 <= i < |s| ==> IsUpper(s[i])
  }

  /** str.isalpha() restricted to ASCII: non-empty and letters only. */
  predicate IsAlpha(s: string) {
    |s| > 0 && forall i :: 0 <= i < |s| ==> IsLetter(s[i])
  }

  /** str.isdigit() restricted to ASCII: non-empty and digits only. */
  predicate IsDigitString(s: string) {
    |s| > 0 && AllDigits(s)
  }

  predicate IsBlank(s: string) {
    forall i :: 0 <= i < |s| ==> IsSpace(s[i])
  }

  /** Number of whitespace characters str.lstrip() removes. */
  function LeadingSpaces(s: string): (k: nat)
    ensures k <= |s|
  {
    if s == [] || !IsSpace(s[0]) then 0 else 1 + LeadingSpaces(s[1..])
  }

  /** Length str.rstrip() keeps. */
  function KeptLength(s: string): (k: nat)
    ensures k <= |s|
  {
    if s == [] || !IsSpace(s[|s| - 1]) then |s| else KeptLength(s[..|s| - 1])
  }

  lemma {:induction false} LeadingSpacesSpec(s: string)
    ensures var k := LeadingSpaces(s); IsBlank(s[..k]) && (k < |s| ==> !IsSpace(s[k]))
  {
    if s != [] && IsSpace(s[0]) {
      LeadingSpacesSpec(s[1..]);
      var k := LeadingSpaces(s);
      assert s[..k] == [s[0]] + s[1..][..k - 1];
    }
  }

  lemma {:induction false} KeptLengthSpec(s: string)
    ensures var k := KeptLength(s); IsBlank(s[k..]) && (k > 0 ==> !IsSpace(s[k - 1]))
  {
    if s != [] && IsSpace(s[|s| - 1]) {
      var t := s[..|s| - 1];
      KeptLengthSpec(t);
      var k := KeptLength(s);
      assert s[k..] == t[k..] + [s[|s| - 1]];
    }
  }

  /** str.strip(): the text without surrounding whitespace. */
  function Strip(s: string): (r: string)
    ensures |r| <= |s|
  {
    var l := s[LeadingSpaces(s)..];
    l[..KeptLength(l)]
  }

  /** Strip removes a blank prefix and a blank suffix and keeps a text whose ends are
      not whitespace; it is empty exactly for blank text. */
  lemma StripSpec(s: string)
    ensures var a := LeadingSpaces(s); var b := a + KeptLength(s[a..]);
            a <= b <= |s| && Strip(s) == s[a..b] && IsBlank(s[..a]) && IsBlank(s[b..])
    ensures Strip(s) == [] || (!IsSpace(Strip(s)[0]) && !IsSpace(Strip(s)[|Strip(s)| - 1]))
    ensures Strip(s) == [] <==> IsBlank(s)
  {
    StripParts(s);
    var a := LeadingSpaces(s);
    var b := a + KeptLength(s[a..]);
    if Strip(s) == [] {
      assert s == s[..a] + s[b..];
      BlankConcat(s[..a], s[b..]);
    } else {
      StripEnds(s);
    }
  }

  /** Strip keeps what lies between the blank prefix and the blank suffix. */
  lemma {:induction false} StripParts(s: string)
    ensures var a := LeadingSpaces(s); var b := a + KeptLength(s[a..]);
            a <= b <= |s| && Strip(s) == s[a..b] && IsBlank(s[..a]) && IsBlank(s[b..])
  {
    var a := LeadingSpaces(s);
    var l := s[a..];
    var k := KeptLength(l);
    assert IsBlank(s[..a]) by {
      LeadingSpacesSpec(s);
    }
    assert IsBlank(s[a + k..]) by {
      KeptLengthSpec(l);
      assert s[a + k..] == l[k..];
    }
    assert Strip(s) == s[a..a + k];
  }

  /** A non-empty strip begins and ends with a character that is not whitespace. */
  lemma StripEnds(s: string)
    requires Strip(s) != []
    ensures !IsSpace(Strip(s)[0]) && !IsSpace(Strip(s)[|Strip(s)| - 1]) && !IsBlank(s)
  {
    var a := LeadingSpaces(s);
    var l := s[a..];
    var k := KeptLength(l);
    LeadingSpacesSpec(s);
    KeptLengthSpec(l);
    var r := Strip(s);
    assert r == l[..k];
    assert r[0] == s[a];
    assert r[|r| - 1] == l[k - 1];
  }

  lemma BlankConcat(a: string, b: string)
    requires IsBlank(a) && IsBlank(b)
    ensures IsBlank(a + b)
  {
    forall i | 0 <= i < |a + b|
      ensures IsSpace((a + b)[i])
    {
      if i >= |a| {
        assert (a + b)[i] == b[i - |a|];
      }
    }
  }

  /** Text whose ends are not whitespace is its own strip. */
  lemma StripTrimmed(s: string)
    requires s == [] || (!IsSpace(s[0]) && !IsSpace(s[|s| - 1]))
    ensures Strip(s) == s
  {
    assert s[0..] == s;
  }

  lemma StripIdempotent(s: string)
    ensures Strip(Strip(s)) == Strip(s)
  {
    StripSpec(s);
    StripTrimmed(Strip(s));
  }

  /** sep.join(parts) */
  function Join(parts: seq<string>, sep: string): string {
    if |parts| == 0 then ""
    else if |parts| == 1 then parts[0]
    else Join(parts[..|parts| - 1], sep) + sep + parts[|parts| - 1]
  }

  lemma JoinSnoc(parts: seq<string>, x: string, sep: string)
    ensures Join(parts + [x], sep) == if parts == [] then x else Join(parts, sep) + sep + x
  {
    var ps := parts + [x];
    assert ps[..|ps| - 1] == parts;
  }

  lemma JoinPair(a: string, b: string, sep: string)
    ensures Join([a, b], sep) == a + sep + b
  {
    JoinSnoc([a], b, sep);
    assert [a] + [b] == [a, b];
  }

  /** Three elements consed onto the empty sequence. */
  lemma ConsThree<T>(a: T, b: T, c: T)
    ensures [c] + [] == [c] && [b] + [c] == [b, c] && [a] + ([b] + [c]) == [a, b, c]
  {
  }

  lemma JoinThree(a: string, b: string, c: string, sep: string)
    ensures Join([a, b, c], sep) == a + sep + b + sep + c
  {
    JoinPair(a, b, sep);
    JoinSnoc([a, b], c, sep);
    assert [a, b] + [c] == [a, b, c];
  }

  function DigitValue(c: char): nat
    requires IsDigit(c)
  {
    c as int - '0' as int
  }

  function DigitChar(d: nat): (c: char)
    requires d < 10
    ensures IsDigit(c) && DigitValue(c) == d
  {
    ('0' as int + d) as char
  }

  /** int(s) for a string of ASCII digits (leading zeros allowed). */
  function DigitsValue(s: string): nat
    requires AllDigits(s)
  {
    if s == [] then 0 else DigitsValue(s[..|s| - 1]) * 10 + DigitValue(s[|s| - 1])
  }

  /** str(n) for a natural number: decimal digits without leading zeros. */
  function NatToString(n: nat): (r: string)
    ensures IsDigitString(r)
    ensures |r| > 1 ==> r[0] != '0'
  {
    if n < 10 then [DigitChar(n)] else NatToString(n / 10) + [DigitChar(n % 10)]
  }

  /** str(i) for any integer. */
  function IntToString(i: int): string {
    if i < 0 then "-" + NatToString(-i) else NatToString(i)
  }

  /** A digit string in the form str() prints: no leading zero unless it is "0". */
  predicate IsCanonicalDigits(s: string) {
    IsDigitString(s) && (|s| > 1 ==> s[0] != '0')
  }

  lemma {:induction false} DigitsOfNatToString(n: nat)
    ensures DigitsValue(NatToString(n)) == n
  {
    if n >= 10 {
      DigitsOfNatToString(n / 10);
      var r := NatToString(n);
      assert r[..|r| - 1] == NatToString(n / 10);
    }
  }

  lemma {:induction false} DigitsValuePositive(s: string)
    requires IsDigitString(s) && s[0] != '0'
    ensures DigitsValue(s) >= 1
  {
    if |s| > 1 {
      DigitsValuePositive(s[..|s| - 1]);
    }
  }

  lemma {:induction false} NatToStringOfDigits(s: string)
    requires IsCanonicalDigits(s)
    ensures NatToString(DigitsValue(s)) == s
  {
    if |s| > 1 {
      var x := s[..|s| - 1];
      NatToStringOfDigits(x);
      DigitsValuePositive(x);
      assert s == x + [s[|s| - 1]];
    }
  }

  /** s.count(c) */
  function Count(c: char, s: string): (n: nat)
    ensures n <= |s|
  {
    if s == [] then 0 else Count(c, s[..|s| - 1]) + (if s[|s| - 1] == c then 1 else 0)
  }

  lemma {:induction false} CountConcat(c: char, a: string, b: string)
    ensures Count(c, a + b) == Count(c, a) + Count(c, b)
  {
    if b != [] {
      assert (a + b)[..|a + b| - 1] == a + b[..|b| - 1];
      CountConcat(c, a, b[..|b| - 1]);
    } else {
      assert a + b == a;
    }
  }

  lemma {:induction false} CountBlank(c: char, s: string)
    requires IsBlank(s) && !IsSpace(c)
    ensures Count(c, s) == 0
  {
    if s != [] {
      CountBlank(c, s[..|s| - 1]);
    }
  }

  /** Stripping whitespace does not change how often a non-space character occurs. */
  lemma CountStrip(c: char, s: string)
    requires !IsSpace(c)
    ensures Count(c, Strip(s)) == Count(c, s)
  {
    StripSpec(s);
    var a := LeadingSpaces(s);
    var b := a + KeptLength(s[a..]);
    assert s == s[..a] + s[a..b] + s[b..];
    CountConcat(c, s[..a] + s[a..b], s[b..]);
    CountConcat(c, s[..a], s[a..b]);
    CountBlank(c, s[..a]);
    CountBlank(c, s[b..]);
  }

  /** Number of "(" minus number of ")". */
  function Balance(s: string): int {
    Count('(', s) - Count(')', s)
  }

  lemma BalanceConcat(a: string, b: string)
    ensures Balance(a + b) == Balance(a) + Balance(b)
  {
    CountConcat('(', a, b);
    CountConcat(')', a, b);
  }

  lemma BalanceStrip(s: string)
    ensures Balance(Strip(s)) == Balance(s)
  {
    CountStrip('(', s);
    CountStrip(')', s);
  }

  /** Python's upper() on ASCII letters. */
  function ToUpper(s: string): (r: string)
    ensures |r| == |s|
    ensures forall i :: 0 <= i < |s| ==> (IsLower(s[i]) ==> r[i] as int == s[i] as int - 32) && (!IsLower(s[i]) ==> r[i] == s[i])
    ensures IsAlpha(s) ==> AllUpper(r)
    ensures AllUpper(s) ==> r == s
  {
    if s == [] then ""
    else ToUpper(s[..|s| - 1]) + [if IsLower(s[|s| - 1]) then (s[|s| - 1] as int - 32) as char else s[|s| - 1]]
  }

  /** Characters below U+0100 that str.isprintable() rejects, apart from tab,
      newline and carriage return: repr() writes them as \x and two hex digits. */
  predicate HexEscaped(c: char) {
    (c < ' ' && c != '\t' && c != '\n' && c != '\r') || ('\U{7f}' <= c <= '\U{a0}') || c == '\U{ad}'
  }

  /** A character repr() may show as it is. */
  predicate Shown(c: char) {
    !HexEscaped(c) && c != '\t' && c != '\n' && c != '\r'
  }

  /** A lower-case hexadecimal digit. */
  function HexDigit(v: nat): (c: char)
    requires v < 16
    ensures IsHexDigit(c) && HexValue(c) == v
  {
    if v < 10 then ('0' as int + v) as char else ('a' as int + v - 10) as char
  }

  predicate IsHexDigit(c: char) {
    IsDigit(c) || ('a' <= c <= 'f')
  }

  function HexValue(c: char): nat
    requires IsHexDigit(c)
  {
    if IsDigit(c) then c as int - '0' as int else c as int - 'a' as int + 10
  }

  /** How repr() delimited by quote writes one character. */
  function EscapeChar(c: char, quote: char): (r: string)
    requires quote == '\'' || quote == '"'
    ensures r != [] && (r[0] == '\\' || |r| == 1)
    ensures forall i :: 0 <= i < |r| ==> Shown(r[i])
  {
    if c == quote || c == '\\' then ['\\', c]
    else if c == '\n' then "\\n"
    else if c == '\r' then "\\r"
    else if c == '\t' then "\\t"
    else if HexEscaped(c) then ['\\', 'x', HexDigit(c as int / 16), HexDigit(c as int % 16)]
    else [c]
  }

  /** Body of a Python string repr delimited by quote: the quote and backslash are
      escaped, newline, carriage return and tab by letter, the other characters
      below U+0100 that are not printable in hexadecimal. */
  function EscapeFor(s: string, quote: char): (r: string)
    requires quote == '\'' || quote == '"'
    ensures |r| >= |s|
    ensures forall i :: 0 <= i < |r| ==> Shown(r[i])
  {
    if s == [] then ""
    else EscapeChar(s[0], quote) + EscapeFor(s[1..], quote)
  }

  /** Reads the body of a string literal back: the escapes repr() writes, and
      every other character as itself; None for an escape it does not write. */
  function Unescape(r: string): (s: Option<string>)
    decreases |r|
  {
    if r == [] then Some([])
    else if r[0] != '\\' then
      var rest := Unescape(r[1..]);
      if rest.Some? then Some([r[0]] + rest.value) else None
    else if |r| >= 2 && r[1] in "nrt'\"\\" then
      var c := if r[1] == 'n' then '\n' else if r[1] == 'r' then '\r' else if r[1] == 't' then '\t' else r[1];
      var rest := Unescape(r[2..]);
      if rest.Some? then Some([c] + rest.value) else None
    else if |r| >= 4 && r[1] == 'x' && IsHexDigit(r[2]) && IsHexDigit(r[3]) then
      var c := (HexValue(r[2]) * 16 + HexValue(r[3])) as char;
      var rest := Unescape(r[4..]);
      if rest.Some? then Some([c] + rest.value) else None
    else None
  }

  /** One escaped character is read back before the rest. */
  lemma UnescapeChar(c: char, quote: char, t: string, u: string)
    requires quote == '\'' || quote == '"'
    requires Unescape(t) == Some(u)
    ensures Unescape(EscapeChar(c, quote) + t) == Some([c] + u)
  {
    var e := EscapeChar(c, quote);
    var r := e + t;
    if |e| == 1 {
      assert r[0] == c && r[1..] == t;
    } else if |e| == 2 {
      assert r[1] == e[1] && r[2..] == t;
    } else {
      var v := c as int;
      assert v < 256;
      assert r[1] == 'x' && r[2] == HexDigit(v / 16) && r[3] == HexDigit(v % 16) && r[4..] == t;
      assert (HexValue(r[2]) * 16 + HexValue(r[3])) as char == c;
    }
  }

  /** Reading the body of repr(s) back gives s. */
  lemma {:induction false} UnescapeEscape(s: string, quote: char)
    requires quote == '\'' || quote == '"'
    ensures Unescape(EscapeFor(s, quote)) == Some(s)
    decreases |s|
  {
    if s != [] {
      UnescapeEscape(s[1..], quote);
      UnescapeChar(s[0], quote, EscapeFor(s[1..], quote), s[1..]);
      assert [s[0]] + s[1..] == s;
    }
  }

  /** repr(s): single quotes unless s holds a single quote and no double quote.
      No character of the result is one repr() escapes, and the text between
      the quotes reads back as s. */
  function Repr(s: string): (r: string)
    ensures |r| >= |s| + 2
    ensures r[0] == r[|r| - 1] && (r[0] == '\'' || r[0] == '"')
    ensures r[0] == '"' <==> ('\'' in s && '"' !in s)
    ensures forall i :: 0 <= i < |r| ==> Shown(r[i])
    ensures Unescape(r[1..|r| - 1]) == Some(s)
  {
    var quote := if '\'' in s && '"' !in s then '"' else '\'';
    var body := EscapeFor(s, quote);
    UnescapeEscape(s, quote);
    Quoted(quote, body);
    [quote] + body + [quote]
  }

  lemma Quoted(quote: char, body: string)
    requires Shown(quote) && forall i :: 0 <= i < |body| ==> Shown(body[i])
    ensures var r := [quote] + body + [quote];
            r[1..|r| - 1] == body && forall i :: 0 <= i < |r| ==> Shown(r[i])
  {
    var r := [quote] + body + [quote];
    assert r[1..|r| - 1] == body;
    forall i | 0 <= i < |r|
      ensures Shown(r[i])
    {
      if 0 < i < |r| - 1 {
        assert r[i] == body[i - 1];
      }
    }
  }

  /** repr('\x01') is '\x01', repr('\x7f') is '\x7f' and repr('\xa0') is '\xa0'. */
  lemma ReprHexExamples()
    ensures Repr([1 as char]) == "'\\x01'"
    ensures Repr(['\U{7f}']) == "'\\x7f'"
    ensures Repr(['\U{a0}']) == "'\\xa0'"
  {
    assert EscapeFor([1 as char], '\'') == "\\x01";
    assert EscapeFor(['\U{7f}'], '\'') == "\\x7f";
    assert EscapeFor(['\U{a0}'], '\'') == "\\xa0";
  }

  // ---------------------------------------------------------------------------
  // s.replace("(", "").replace(")", "")

  /** The text with every "(" and ")" removed. */
  function WithoutParens(s: string): (r: string)
    ensures forall i :: 0 <= i < |r| ==> r[i] != '(' && r[i] != ')'
    ensures |r| <= |s|
  {
    if s == [] then []
    else WithoutParens(s[..|s| - 1]) + (if s[|s| - 1] == '(' || s[|s| - 1] == ')' then [] else [s[|s| - 1]])
  }

  lemma {:induction false} WithoutParensConcat(a: string, b: string)
    ensures WithoutParens(a + b) == WithoutParens(a) + WithoutParens(b)
    decreases |b|
  {
    if b == [] {
      assert a + b == a;
    } else {
      var c := b[..|b| - 1];
      WithoutParensConcat(a, c);
      assert (a + b)[..|a + b| - 1] == a + c;
    }
  }

  /** Removing the parentheses from "=(t)" leaves "=t" without its parentheses. */
  lemma WrappedWithoutParens(t: string)
    ensures "=" + ("(" + t + ")") == "=(" + t + ")"
    ensures WithoutParens("=(" + t + ")") == WithoutParens("=" + t)
  {
    Wrapped(t);
    var eq := "=";
    var u := eq + "(" + t;
    assert WithoutParens(u + ")") == WithoutParens(u) by {
      WithoutParensConcat(u, ")");
      WithoutParensOne(')');
    }
    assert WithoutParens(u) == WithoutParens(eq + t) by {
      WithoutParensConcat(eq + "(", t);
      WithoutParensConcat(eq, "(");
      WithoutParensOne('(');
      WithoutParensConcat(eq, t);
    }
  }

  lemma WithoutParensOne(c: char)
    requires c == '(' || c == ')'
    ensures WithoutParens([c]) == []
  {
    assert [c][..0] == [];
  }

  lemma Wrapped(t: string)
    ensures "=" + ("(" + t + ")") == "=(" + t + ")"
    ensures "=(" + t + ")" == "=" + "(" + t + ")"
  {
    assert "=(" == "=" + "(";
  }
}
