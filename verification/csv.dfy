/** The delimited-text fallback export of app/page.tsx:267-268: `esc` quotes
    one field, `toCSV` writes a header line and one line per row. The source
    text is modelled as it reads (dialect `AsWritten`); the evidently intended
    dialect (`Intended`) is modelled beside it, together with a reader that
    shows what each dialect's output reads back as. */
module Csv {
  import opened Wrappers

  /** An exported object: its keys in insertion order, each with its value
      already converted by `String(v)`, or `None` for `null`/`undefined`. */
  type Record = seq<(string, Option<string>)>

  /** `Object.keys(row)`. */
  function Keys(row: Record): seq<string> {
    seq(|row|, i requires 0 <= i < |row| => row[i].0)
  }

  /** `row[h]`: the value of the first entry with key `h`, `undefined` if none. */
  function Lookup(row: Record, h: string): Option<string> {
    if row == [] then None else if row[0].0 == h then row[0].1 else Lookup(row[1..], h)
  }

  /** As written, the regular expression `/[\",\\n]/` has the class double
      quote, comma, backslash and the letter n, and lines are joined by a
      backslash followed by n. The intended dialect uses the line-break
      character for both. */
  datatype Dialect = AsWritten | Intended

  predicate Special(d: Dialect, ch: char) {
    match d
    case AsWritten => ch == '"' || ch == ',' || ch == '\\' || ch == 'n'
    case Intended => ch == '"' || ch == ',' || ch == '\n'
  }

  function LineSep(d: Dialect): string {
    match d
    case AsWritten => ['\\', 'n']
    case Intended => ['\n']
  }

  predicate HasSpecial(d: Dialect, s: string) {
    exists k :: 0 <= k < |s| && Special(d, s[k])
  }

  /** `s.replace(/"/g, '""')`: every double quote doubled, every other
      character kept. `DoubleQuotesLength` gives the exact length and
      `ReadQuotedOf` the un-doubling round trip. */
  function DoubleQuotes(s: string): (r: string)
    ensures |r| >= |s|
    ensures forall ch :: ch != '"' ==> (ch in r <==> ch in s)
  {
    if s == [] then []
    else (if s[0] == '"' then ['"', '"'] else [s[0]]) + DoubleQuotes(s[1..])
  }

  /** Each double quote becomes two: the result is longer by exactly the
      number of quotes. `ReadQuotedOf` shows that un-doubling recovers `s`. */
  lemma {:induction false} DoubleQuotesLength(s: string)
    ensures |DoubleQuotes(s)| == |s| + multiset(s)['"']
  {
    if s != [] {
      DoubleQuotesLength(s[1..]);
      assert s == [s[0]] + s[1..];
      assert multiset(s) == multiset([s[0]]) + multiset(s[1..]);
    }
  }

  /** Text without double quotes is left as it is. */
  lemma {:induction false} DoubleQuotesPlain(s: string)
    requires '"' !in s
    ensures DoubleQuotes(s) == s
  {
    if s != [] {
      DoubleQuotesPlain(s[1..]);
      assert s == [s[0]] + s[1..];
    }
  }

  function Quote(s: string): string {
    ['"'] + DoubleQuotes(s) + ['"']
  }

  function EscBy(d: Dialect, v: Option<string>): string {
    match v
    case None => ""
    case Some(s) => if HasSpecial(d, s) then Quote(s) else s
  }

  /** `esc` as written: `null`/`undefined` becomes the empty field; a value
      with a character of the written class is quoted with its quotes doubled;
      any other value is kept verbatim. */
  function Esc(v: Option<string>): (r: string)
    ensures v.None? ==> r == ""
    ensures v.Some? && !HasSpecial(AsWritten, v.value) ==> r == v.value
    ensures v.Some? && HasSpecial(AsWritten, v.value) ==> r == Quote(v.value)
  {
    EscBy(AsWritten, v)
  }

  /** `esc` with the class it evidently means: double quote, comma, line break. */
  function EscIntended(v: Option<string>): (r: string)
    ensures v.None? ==> r == ""
    ensures v.Some? && !HasSpecial(Intended, v.value) ==> r == v.value
    ensures v.Some? && HasSpecial(Intended, v.value) ==> r == Quote(v.value)
  {
    EscBy(Intended, v)
  }

  /** `parts.join(sep)`. */
  function JoinWith(parts: seq<string>, sep: string): string {
    if |parts| == 0 then ""
    else if |parts| == 1 then parts[0]
    else parts[0] + sep + JoinWith(parts[1..], sep)
  }

  /** The fields of one row, in header order. */
  function RowCells(hs: seq<string>, row: Record): (cells: seq<Option<string>>)
    ensures |cells| == |hs|
  {
    seq(|hs|, j requires 0 <= j < |hs| => Lookup(row, hs[j]))
  }

  function EscAll(d: Dialect, cells: seq<Option<string>>): (r: seq<string>)
    ensures |r| == |cells|
  {
    if cells == [] then [] else [EscBy(d, cells[0])] + EscAll(d, cells[1..])
  }

  /** One data line: the escaped fields joined by commas. */
  function Line(d: Dialect, cells: seq<Option<string>>): string {
    JoinWith(EscAll(d, cells), ",")
  }

  function DataLines(d: Dialect, hs: seq<string>, rows: seq<Record>): (r: seq<string>)
    ensures |r| == |rows|
  {
    if rows == [] then [] else [Line(d, RowCells(hs, rows[0]))] + DataLines(d, hs, rows[1..])
  }

  /** The lines `toCSV` builds: the keys of the first row joined by commas
      (unescaped), then one line per row over those keys. */
  function Lines(d: Dialect, rows: seq<Record>): (r: seq<string>)
    requires rows != []
    ensures |r| == |rows| + 1
    ensures r[0] == JoinWith(Keys(rows[0]), ",")
  {
    var hs := Keys(rows[0]);
    [JoinWith(hs, ",")] + DataLines(d, hs, rows)
  }

  function ToCsvBy(d: Dialect, rows: seq<Record>): string {
    if rows == [] then "" else JoinWith(Lines(d, rows), LineSep(d))
  }

  /** `toCSV` as written: empty for no rows, otherwise the header line and the
      row lines joined by a backslash followed by n. */
  function ToCsv(rows: seq<Record>): (r: string)
    ensures rows == [] ==> r == ""
    ensures rows != [] ==> r == JoinWith(Lines(AsWritten, rows), ['\\', 'n'])
  {
    ToCsvBy(AsWritten, rows)
  }

  /** `toCSV` joining its lines by line breaks and escaping with `EscIntended`. */
  function ToCsvIntended(rows: seq<Record>): (r: string)
    ensures rows == [] ==> r == ""
    ensures rows != [] ==> r == JoinWith(Lines(Intended, rows), "\n")
  {
    ToCsvBy(Intended, rows)
  }

  // ---- Reading the text back, as a spreadsheet application reads CSV ----

  /** Reads an unquoted field: everything up to the next comma or line break. */
  function ReadBare(t: string): (r: (string, string))
    ensures |r.1| <= |t|
    decreases |t|
  {
    if t == [] || t[0] == ',' || t[0] == '\n' then ([], t)
    else
      var (f, rest) := ReadBare(t[1..]);
      ([t[0]] + f, rest)
  }

  /** Reads the body of a quoted field, `t` starting after the opening quote:
      a doubled quote stands for one quote, a single quote closes the field. */
  function ReadQuoted(t: string): (r: (string, string))
    ensures |r.1| <= |t|
    decreases |t|
  {
    if t == [] then ([], [])
    else if t[0] == '"' then
      if |t| > 1 && t[1] == '"' then
        var (f, rest) := ReadQuoted(t[2..]);
        (['"'] + f, rest)
      else ([], t[1..])
    else
      var (f, rest) := ReadQuoted(t[1..]);
      ([t[0]] + f, rest)
  }

  function ReadField(t: string): (r: (string, string))
    ensures |r.1| <= |t|
  {
    if |t| > 0 && t[0] == '"' then ReadQuoted(t[1..]) else ReadBare(t)
  }

  /** Reads the comma-separated fields of one record, up to a line break or the end. */
  function ReadRecord(t: string): (r: (seq<string>, string))
    ensures |r.0| > 0 && |r.1| <= |t|
    decreases |t|
  {
    var (f, rest) := ReadField(t);
    if |rest| > 0 && rest[0] == ',' then
      var (fs, rest2) := ReadRecord(rest[1..]);
      ([f] + fs, rest2)
    else ([f], rest)
  }

  function ReadLines(t: string): seq<seq<string>>
    decreases |t|
  {
    var (record, rest) := ReadRecord(t);
    if rest == [] then [record] else [record] + ReadLines(rest[1..])
  }

  /** The records a CSV text holds; the empty text holds none. */
  function ParseCsv(t: string): seq<seq<string>> {
    if t == [] then [] else ReadLines(t)
  }

  /** The texts of a list of fields, the empty string for an absent one. */
  function Texts(cells: seq<Option<string>>): (r: seq<string>)
    ensures |r| == |cells|
  {
    seq(|cells|, j requires 0 <= j < |cells| => cells[j].GetOr(""))
  }

  /** One row's value under each header. */
  function Values(hs: seq<string>, row: Record): (r: seq<string>)
    ensures |r| == |hs|
    ensures forall j :: 0 <= j < |hs| ==> r[j] == Lookup(row, hs[j]).GetOr("")
  {
    Texts(RowCells(hs, row))
  }

  function ValueRows(hs: seq<string>, rows: seq<Record>): (r: seq<seq<string>>)
    ensures |r| == |rows|
    ensures forall i :: 0 <= i < |rows| ==> r[i] == Values(hs, rows[i])
  {
    if rows == [] then [] else [Values(hs, rows[0])] + ValueRows(hs, rows[1..])
  }

  /** What the exported table says: the header, then each row's value under
      each header, the empty string where the value is absent. */
  function Table(rows: seq<Record>): (r: seq<seq<string>>)
    ensures |r| == (if rows == [] then 0 else |rows| + 1)
    ensures rows != [] ==> r[0] == Keys(rows[0])
    ensures forall i, j :: 0 <= i < |rows| && 0 <= j < |Keys(rows[0])| ==>
              |r[i + 1]| == |Keys(rows[0])| && r[i + 1][j] == Lookup(rows[i], Keys(rows[0])[j]).GetOr("")
  {
    if rows == [] then []
    else [Keys(rows[0])] + ValueRows(Keys(rows[0]), rows)
  }

  /** A header can be written unescaped when it holds none of the intended special characters. */
  predicate PlainHeaders(rows: seq<Record>) {
    rows != [] ==>
      && |Keys(rows[0])| > 0
      && forall j :: 0 <= j < |Keys(rows[0])| ==> !HasSpecial(Intended, Keys(rows[0])[j])
  }

  lemma {:induction false} ReadBareOf(s: string, rest: string)
    requires forall k :: 0 <= k < |s| ==> s[k] != ',' && s[k] != '\n'
    requires rest == [] || rest[0] == ',' || rest[0] == '\n'
    ensures ReadBare(s + rest) == (s, rest)
    decreases |s|
  {
    if s != [] {
      assert (s + rest)[1..] == s[1..] + rest;
      ReadBareOf(s[1..], rest);
      assert [s[0]] + s[1..] == s;
    } else {
      assert s + rest == rest;
    }
  }

  lemma {:induction false} ReadQuotedOf(s: string, rest: string)
    requires rest == [] || rest[0] != '"'
    ensures ReadQuoted(DoubleQuotes(s) + ['"'] + rest) == (s, rest)
    decreases |s|
  {
    var t := DoubleQuotes(s) + ['"'] + rest;
    if s == [] {
      assert t == ['"'] + rest;
    } else {
      ReadQuotedOf(s[1..], rest);
      var tail := DoubleQuotes(s[1..]) + ['"'] + rest;
      if s[0] == '"' {
        assert t == ['"', '"'] + tail;
        assert t[2..] == tail;
      } else {
        assert t == [s[0]] + tail;
        assert t[1..] == tail;
      }
      assert [s[0]] + s[1..] == s;
    }
  }

  /** A field written by `EscIntended` and followed by a separator reads back
      as the value, the empty string for an absent one. */
  lemma ReadFieldOfEsc(v: Option<string>, rest: string)
    requires rest == [] || rest[0] == ',' || rest[0] == '\n'
    ensures ReadField(EscIntended(v) + rest) == (v.GetOr(""), rest)
  {
    match v
    case None =>
      assert EscIntended(v) + rest == rest;
      ReadBareOf([], rest);
    case Some(s) =>
      if HasSpecial(Intended, s) {
        ReadQuotedOf(s, rest);
        assert (EscIntended(v) + rest)[1..] == DoubleQuotes(s) + ['"'] + rest;
      } else {
        assert forall k :: 0 <= k < |s| ==> !Special(Intended, s[k]);
        ReadBareOf(s, rest);
      }
  }

  lemma {:induction false} ReadRecordOfLine(cells: seq<Option<string>>, rest: string)
    requires |cells| > 0
    requires rest == [] || rest[0] == '\n'
    ensures ReadRecord(Line(Intended, cells) + rest) == (Texts(cells), rest)
    decreases |cells|
  {
    var want := Texts(cells);
    if |cells| == 1 {
      assert Line(Intended, cells) == EscIntended(cells[0]);
      ReadFieldOfEsc(cells[0], rest);
      assert want == [cells[0].GetOr("")];
    } else {
      var tail := Line(Intended, cells[1..]) + rest;
      assert EscAll(Intended, cells)[1..] == EscAll(Intended, cells[1..]);
      assert Line(Intended, cells) + rest == EscIntended(cells[0]) + ([','] + tail);
      ReadFieldOfEsc(cells[0], [','] + tail);
      assert ([','] + tail)[1..] == tail;
      ReadRecordOfLine(cells[1..], rest);
      assert want == [cells[0].GetOr("")] + Texts(cells[1..]);
    }
  }

  function AllPresent(hs: seq<string>): (cells: seq<Option<string>>)
    ensures |cells| == |hs|
  {
    seq(|hs|, j requires 0 <= j < |hs| => Some(hs[j]))
  }

  /** Headers free of special characters are their own escaped form. */
  lemma {:induction false} HeaderLine(hs: seq<string>)
    requires forall j :: 0 <= j < |hs| ==> !HasSpecial(Intended, hs[j])
    ensures EscAll(Intended, AllPresent(hs)) == hs
    decreases |hs|
  {
    if hs != [] {
      assert AllPresent(hs)[1..] == AllPresent(hs[1..]);
      HeaderLine(hs[1..]);
      assert EscBy(Intended, Some(hs[0])) == hs[0];
      assert hs == [hs[0]] + hs[1..];
    }
  }

  /** The data lines, joined by line breaks, read back as the rows' values. */
  lemma {:induction false} ReadDataLines(hs: seq<string>, rows: seq<Record>)
    requires |hs| > 0 && rows != []
    ensures ReadLines(JoinWith(DataLines(Intended, hs, rows), "\n")) == ValueRows(hs, rows)
    decreases |rows|
  {
    var cells := RowCells(hs, rows[0]);
    var ls := DataLines(Intended, hs, rows);
    if |rows| == 1 {
      assert JoinWith(ls, "\n") == Line(Intended, cells) + [];
      ReadRecordOfLine(cells, []);
    } else {
      var rest := JoinWith(DataLines(Intended, hs, rows[1..]), "\n");
      assert ls[1..] == DataLines(Intended, hs, rows[1..]);
      assert JoinWith(ls, "\n") == Line(Intended, cells) + ("\n" + rest);
      ReadRecordOfLine(cells, "\n" + rest);
      assert ("\n" + rest)[1..] == rest;
      ReadDataLines(hs, rows[1..]);
    }
  }

  /** The intended export reads back as exactly the table it was given: the
      header line and one record per row, each value under its header. */
  lemma CsvRoundTrip(rows: seq<Record>)
    requires PlainHeaders(rows)
    ensures ParseCsv(ToCsvIntended(rows)) == Table(rows)
  {
    if rows != [] {
      var hs := Keys(rows[0]);
      var data := JoinWith(DataLines(Intended, hs, rows), "\n");
      var ls := Lines(Intended, rows);
      assert ls[1..] == DataLines(Intended, hs, rows);
      assert ToCsvIntended(rows) == JoinWith(hs, ",") + ("\n" + data);
      HeaderLine(hs);
      assert JoinWith(hs, ",") == Line(Intended, AllPresent(hs));
      ReadRecordOfLine(AllPresent(hs), "\n" + data);
      assert Texts(AllPresent(hs)) == hs;
      assert ("\n" + data)[1..] == data;
      ReadDataLines(hs, rows);
    }
  }

  // ---- What the text as written reads back as ----

  /** Without a line break in any key or value. */
  predicate NoBreaks(rows: seq<Record>) {
    forall i, k :: 0 <= i < |rows| && 0 <= k < |rows[i]| ==>
      '\n' !in rows[i][k].0 && (rows[i][k].1.Some? ==> '\n' !in rows[i][k].1.value)
  }

  lemma {:induction false} JoinNoBreak(parts: seq<string>, sep: string)
    requires forall i :: 0 <= i < |parts| ==> '\n' !in parts[i]
    requires '\n' !in sep
    ensures '\n' !in JoinWith(parts, sep)
    decreases |parts|
  {
    if |parts| > 1 {
      JoinNoBreak(parts[1..], sep);
    }
  }

  lemma {:induction false} LookupNoBreak(row: Record, h: string)
    requires forall k :: 0 <= k < |row| ==> row[k].1.Some? ==> '\n' !in row[k].1.value
    ensures Lookup(row, h).Some? ==> '\n' !in Lookup(row, h).value
    decreases |row|
  {
    if row != [] && row[0].0 != h {
      LookupNoBreak(row[1..], h);
    }
  }

  lemma {:induction false} EscAllNoBreak(cells: seq<Option<string>>)
    requires forall j :: 0 <= j < |cells| ==> cells[j].Some? ==> '\n' !in cells[j].value
    ensures forall j :: 0 <= j < |cells| ==> '\n' !in EscAll(AsWritten, cells)[j]
    decreases |cells|
  {
    if cells != [] {
      EscAllNoBreak(cells[1..]);
      var es := EscAll(AsWritten, cells);
      assert es[0] == EscBy(AsWritten, cells[0]);
      assert forall j :: 1 <= j < |cells| ==> es[j] == EscAll(AsWritten, cells[1..])[j - 1];
    }
  }

  lemma {:induction false} DataLinesNoBreak(hs: seq<string>, rows: seq<Record>)
    requires NoBreaks(rows)
    ensures forall i :: 0 <= i < |rows| ==> '\n' !in DataLines(AsWritten, hs, rows)[i]
    decreases |rows|
  {
    if rows != [] {
      var cells := RowCells(hs, rows[0]);
      forall j | 0 <= j < |hs|
        ensures cells[j].Some? ==> '\n' !in cells[j].value
      {
        LookupNoBreak(rows[0], hs[j]);
      }
      EscAllNoBreak(cells);
      JoinNoBreak(EscAll(AsWritten, cells), ",");
      assert NoBreaks(rows[1..]) by {
        forall i, k | 0 <= i < |rows[1..]| && 0 <= k < |rows[1..][i]|
          ensures '\n' !in rows[1..][i][k].0 && (rows[1..][i][k].1.Some? ==> '\n' !in rows[1..][i][k].1.value)
        {
          assert rows[1..][i] == rows[i + 1];
        }
      }
      DataLinesNoBreak(hs, rows[1..]);
      var ls := DataLines(AsWritten, hs, rows);
      assert forall i :: 1 <= i < |rows| ==> ls[i] == DataLines(AsWritten, hs, rows[1..])[i - 1];
    }
  }

  /** As written, the export never contains a line break of its own: a table
      without line breaks in its keys and values comes out as one physical
      line, which a CSV reader takes for a single record. */
  lemma ToCsvIsOneLine(rows: seq<Record>)
    requires NoBreaks(rows)
    ensures '\n' !in ToCsv(rows)
  {
    if rows != [] {
      var hs := Keys(rows[0]);
      assert forall j :: 0 <= j < |hs| ==> '\n' !in hs[j];
      JoinNoBreak(hs, ",");
      DataLinesNoBreak(hs, rows);
      var ls := Lines(AsWritten, rows);
      assert forall i :: 1 <= i < |ls| ==> ls[i] == DataLines(AsWritten, hs, rows)[i - 1];
      JoinNoBreak(ls, LineSep(AsWritten));
    }
  }

  /** As written, a value with a line break is left unquoted, so it reads back
      cut at the break, while a value that merely contains the letter n, such
      as a scenario name, is quoted. */
  lemma EscAsWrittenCounterexample()
    ensures Esc(Some("a\nb")) == "a\nb"
    ensures ReadField(Esc(Some("a\nb"))) == ("a", "\nb")
    ensures Esc(Some("Scenario A")) == Quote("Scenario A")
  {
    assert !HasSpecial(AsWritten, "a\nb");
    ReadBareOf("a", "\nb");
    assert "a" + "\nb" == "a\nb";
    assert Special(AsWritten, "Scenario A"[3]);
  }

  /** The text as written for a one-row table with one column. */
  lemma OneRowText()
    ensures ToCsv([[("Scenario", Some("A"))]]) == "Scenario\\nA"
  {
    var rows: seq<Record> := [[("Scenario", Some("A"))]];
    var hs := Keys(rows[0]);
    assert hs == ["Scenario"];
    assert RowCells(hs, rows[0]) == [Some("A")];
    assert EscBy(AsWritten, Some("A")) == "A" by {
      assert !HasSpecial(AsWritten, "A");
    }
    assert EscAll(AsWritten, [Some("A")]) == ["A"];
    assert Line(AsWritten, [Some("A")]) == "A";
    assert DataLines(AsWritten, hs, rows) == ["A"];
    assert Lines(AsWritten, rows) == ["Scenario", "A"];
  }

  lemma OneLineReadsAsOneRecord()
    ensures ParseCsv("Scenario\\nA") == [["Scenario\\nA"]]
  {
    var t := "Scenario\\nA";
    ReadBareOf(t, []);
    assert t + [] == t;
    assert ReadRecord(t) == ([t], []);
  }

  lemma OneTableReads()
    ensures Table([[("Scenario", Some("A"))]]) == [["Scenario"], ["A"]]
  {
    var rows: seq<Record> := [[("Scenario", Some("A"))]];
    var hs := Keys(rows[0]);
    assert hs == ["Scenario"];
    assert Lookup(rows[0], "Scenario") == Some("A");
    assert Values(hs, rows[0]) == ["A"];
    assert ValueRows(hs, rows) == [["A"]];
  }

  /** As written, a one-row table reads back as a single record holding the
      header, a backslash, the letter n and the value, instead of two records. */
  lemma ToCsvAsWrittenCounterexample()
    ensures Table([[("Scenario", Some("A"))]]) == [["Scenario"], ["A"]]
    ensures ParseCsv(ToCsv([[("Scenario", Some("A"))]])) == [["Scenario\\nA"]]
  {
    OneTableReads();
    OneRowText();
    OneLineReadsAsOneRecord();
  }
}
