/** Spreadsheet column names: bijective base 26, A = 1 ... Z = 26, AA = 27.
    This is the conversion the repository delegates to openpyxl's
    column_index_from_string and get_column_letter. */
module Columns {
  import opened Text

  function LetterValue(c: char): (d: nat)
    requires IsUpper(c)
    ensures 1 <= d <= 26
  {
    c as int - 'A' as int + 1
  }

  function LetterOf(d: nat): (c: char)
    requires 1 <= d <= 26
    ensures IsUpper(c) && LetterValue(c) == d
  {
    ('A' as int + d - 1) as char
  }

  /** column_index_from_string on upper-case letters. */
  function ColumnIndex(s: string): (n: nat)
    requires AllUpper(s)
    ensures s != [] ==> n >= 1
  {
    if s == [] then 0 else ColumnIndex(s[..|s| - 1]) * 26 + LetterValue(s[|s| - 1])
  }

  /** get_column_letter: the name of column n. */
  function ColumnLetters(n: nat): (s: string)
    requires n >= 1
    ensures |s| >= 1 && AllUpper(s)
  {
    if n <= 26 then [LetterOf(n)] else ColumnLetters((n - 1) / 26) + [LetterOf((n - 1) % 26 + 1)]
  }

  /** column_index_from_string as the repository calls it: openpyxl upper-cases the name first. */
  function ColumnOfName(s: string): (n: nat)
    requires IsAlpha(s)
    ensures n >= 1
    ensures AllUpper(s) ==> n == ColumnIndex(s)
  {
    ColumnIndex(ToUpper(s))
  }

  /** Naming a column and reading the name back gives the column number. */
  lemma {:induction false} IndexOfLetters(n: nat)
    requires n >= 1
    ensures ColumnIndex(ColumnLetters(n)) == n
  {
    if n > 26 {
      var m := (n - 1) / 26;
      IndexOfLetters(m);
      var s := ColumnLetters(n);
      assert s[..|s| - 1] == ColumnLetters(m);
    }
  }

  /** Reading a name and naming the column gives the name back. */
  lemma {:induction false} LettersOfIndex(s: string)
    requires s != [] && AllUpper(s)
    ensures ColumnLetters(ColumnIndex(s)) == s
  {
    var x := s[..|s| - 1];
    var c := s[|s| - 1];
    var d := LetterValue(c);
    assert LetterOf(d) == c;
    if x == [] {
      assert s == [c];
    } else {
      LettersOfIndex(x);
      var i := ColumnIndex(x);
      var n := i * 26 + d;
      assert (n - 1) / 26 == i && (n - 1) % 26 + 1 == d;
      assert s == x + [c];
    }
  }

  /** The two conversions are inverse, so distinct names denote distinct columns. */
  lemma ColumnIndexInjective(s: string, t: string)
    requires s != [] && AllUpper(s) && t != [] && AllUpper(t)
    requires ColumnIndex(s) == ColumnIndex(t)
    ensures s == t
  {
    LettersOfIndex(s);
    LettersOfIndex(t);
  }

  lemma ColumnExamples()
    ensures ColumnIndex("A") == 1 && ColumnIndex("B") == 2 && ColumnIndex("Z") == 26
    ensures ColumnIndex("AA") == 27 && ColumnIndex("AB") == 28
    ensures ColumnLetters(3) == "C" && ColumnLetters(27) == "AA" && ColumnLetters(28) == "AB"
  {
    assert "AA"[..1] == "A";
    assert "AB"[..1] == "A";
  }
}
