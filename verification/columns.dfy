/** The spreadsheet column-letter conversion of app/page.tsx:252: a zero-based
    column index written in bijective base 26 over 'A'..'Z'. */
module ColumnLetters {

  predicate IsLetter(ch: char) {
    'A' <= ch <= 'Z'
  }

  /** The letter for a digit 0..25. */
  function Letter(d: int): (ch: char)
    requires 0 <= d < 26
    ensures IsLetter(ch) && ch as int - 65 == d
  {
    (d + 65) as char
  }

  /** Reference definition: the letters of column `c`, empty for a negative index. */
  function ColumnName(c: int): (s: string)
    ensures c >= 0 <==> |s| > 0
    ensures forall k :: 0 <= k < |s| ==> IsLetter(s[k])
    ensures 0 <= c < 26 ==> s == [Letter(c)]
    decreases c + 1
  {
    if c < 0 then "" else ColumnName(c / 26 - 1) + [Letter(c % 26)]
  }

  /** The value of a letter string in bijective base 26 ("A" is 1, "Z" 26, "AA" 27). */
  function Value(s: string): int
    requires forall k :: 0 <= k < |s| ==> IsLetter(s[k])
  {
    if s == [] then 0 else 26 * Value(s[..|s| - 1]) + (s[|s| - 1] as int - 65) + 1
  }

  /** The column index a letter string names: the inverse of `ColumnName`. */
  function ColumnIndex(s: string): int
    requires forall k :: 0 <= k < |s| ==> IsLetter(s[k])
  {
    Value(s) - 1
  }

  /** `lastColLetter`: the source's loop, prepending one letter per digit. */
  method LastColumnLetter(c: int) returns (s: string)
    ensures s == ColumnName(c)
    ensures c >= 0 ==> |s| > 0 && ColumnIndex(s) == c
  {
    s := "";
    var n := c;
    while n >= 0
      invariant ColumnName(n) + s == ColumnName(c)
      decreases n + 1
    {
      s := [Letter(n % 26)] + s;
      n := n / 26 - 1;
    }
    if c >= 0 {
      NameThenIndex(c);
    }
  }

  /** Reading back the letters of a column gives the column. */
  lemma {:induction false} NameThenIndex(c: int)
    requires c >= -1
    ensures ColumnIndex(ColumnName(c)) == c
    decreases c + 1
  {
    if c >= 0 {
      var p := ColumnName(c / 26 - 1);
      NameThenIndex(c / 26 - 1);
      assert ColumnName(c)[..|ColumnName(c)| - 1] == p;
    }
  }

  /** Every non-empty letter string is the name of exactly the column it denotes. */
  lemma {:induction false} IndexThenName(s: string)
    requires |s| > 0 && forall k :: 0 <= k < |s| ==> IsLetter(s[k])
    ensures ColumnName(ColumnIndex(s)) == s
    decreases |s|
  {
    var p := s[..|s| - 1];
    var d := s[|s| - 1] as int - 65;
    var c := ColumnIndex(s);
    assert c == 26 * Value(p) + d;
    assert c / 26 - 1 == Value(p) - 1 && c % 26 == d;
    if |p| > 0 {
      IndexThenName(p);
    }
    assert s == p + [s[|s| - 1]];
  }

  /** Distinct columns get distinct letters. */
  lemma NameInjective(c1: int, c2: int)
    requires c1 >= 0 && c2 >= 0 && ColumnName(c1) == ColumnName(c2)
    ensures c1 == c2
  {
    NameThenIndex(c1);
    NameThenIndex(c2);
  }

  /** The first and last single letters, and the first two-letter column. */
  lemma ColumnNameExamples()
    ensures ColumnName(0) == "A" && ColumnName(25) == "Z" && ColumnName(26) == "AA"
  {
    assert ColumnName(26) == ColumnName(0) + [Letter(0)];
  }
}
