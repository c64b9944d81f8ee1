/** The CSV printer, and a reader for section 2 of RFC 4180 that it is the inverse of. */
module Csv {
  import opened Collections

  type Cell = Option<string>

  const BOM: char := '\U{FEFF}'
  const CRLF := "\r\n"

  predicate Dangerous(c: char) {
    c == '=' || c == '+' || c == '-' || c == '@' || c == '\t' || c == '\r'
  }

  /** The text a cell shows: nothing for null, and an apostrophe before a formula prefix. */
  function Shown(value: Cell): (text: string)
    ensures |text| == 0 || !Dangerous(text[0])
  {
    var text := if value.Some? then value.value else "";
    if |text| != 0 && Dangerous(text[0]) then "'" + text else text
  }

  predicate Special(c: char) {
    c == '"' || c == ',' || c == '\r' || c == '\n'
  }

  predicate NeedsQuotes(text: string) {
    exists i | 0 <= i < |text| :: Special(text[i])
  }

  /** replaceAll of a quote by two. */
  function Doubled(text: string): string {
    if |text| == 0 then ""
    else (if text[0] == '"' then "\"\"" else [text[0]]) + Doubled(text[1..])
  }

  function CsvCell(value: Cell): string {
    var text := Shown(value);
    if NeedsQuotes(text) then "\"" + Doubled(text) + "\"" else text
  }

  lemma {:induction false} DoubledLonger(text: string)
    ensures |text| <= |Doubled(text)|
  {
    if text != "" { DoubledLonger(text[1..]); }
  }

  /** A cell shows its text, nothing for null, and an apostrophe before a text that a spreadsheet would
      take for a formula: one that begins with an equals, plus, minus or at sign, a tab or a carriage
      return. It is quoted exactly when what it shows has a quote, a comma or a line break. */
  lemma CellExactly(value: Cell)
    ensures value.None? ==> Shown(value) == ""
    ensures value.Some? ==>
              var text := value.value;
              Shown(value) == if text != "" && text[0] in {'=', '+', '-', '@', '\t', '\r'} then "'" + text else text
    ensures CsvCell(value) == Shown(value) <==> forall c | c in Shown(value) :: c !in {'"', ',', '\r', '\n'}
    ensures CsvCell(value) != Shown(value) ==> CsvCell(value) == "\"" + Doubled(Shown(value)) + "\""
  {
    var text := Shown(value);
    DoubledLonger(text);
    if NeedsQuotes(text) {
      var i :| 0 <= i < |text| && Special(text[i]);
      assert text[i] in text;
      assert |CsvCell(value)| > |text|;
    }
  }

  function Join(parts: seq<string>, separator: string): string {
    if |parts| == 0 then ""
    else if |parts| == 1 then parts[0]
    else parts[0] + separator + Join(parts[1..], separator)
  }

  function Line(row: seq<Cell>): string {
    Join(Map(row, CsvCell), ",")
  }

  function ToCsv(headers: seq<string>, rows: seq<seq<Cell>>): string {
    [BOM] + Join(Map([Map(headers, (h: string) => Some(h))] + rows, Line), CRLF) + CRLF
  }

  // ---------- a reader for section 2 of RFC 4180 ----------

  datatype Read<+T> = Bad | Good(value: T, rest: string)

  /** *TEXTDATA. */
  function ReadPlain(s: string): (string, string) {
    if |s| == 0 || Special(s[0]) then ("", s)
    else var (text, rest) := ReadPlain(s[1..]); ([s[0]] + text, rest)
  }

  lemma {:induction false} PlainRest(s: string)
    ensures |ReadPlain(s).1| <= |s|
  {
    if |s| != 0 && !Special(s[0]) { PlainRest(s[1..]); }
  }

  /** The rest of an escaped field, after its opening quote. */
  function ReadQuoted(s: string): (r: Read<string>)
    ensures r.Good? ==> |r.rest| < |s|
  {
    if |s| == 0 then Bad
    else if s[0] != '"' then
      var r := ReadQuoted(s[1..]);
      if r.Bad? then Bad else Good([s[0]] + r.value, r.rest)
    else if |s| >= 2 && s[1] == '"' then
      var r := ReadQuoted(s[2..]);
      if r.Bad? then Bad else Good("\"" + r.value, r.rest)
    else Good("", s[1..])
  }

  function ReadField(s: string): (r: Read<string>)
    ensures r.Good? ==> |r.rest| <= |s|
  {
    if |s| != 0 && s[0] == '"' then ReadQuoted(s[1..])
    else
      PlainRest(s);
      var (text, rest) := ReadPlain(s);
      Good(text, rest)
  }

  /** record = field *(COMMA field) */
  function ReadRecord(s: string): (r: Read<seq<string>>)
    ensures r.Good? ==> |r.rest| <= |s| && |r.value| >= 1
    decreases |s|
  {
    var f := ReadField(s);
    if f.Bad? then Bad
    else if |f.rest| != 0 && f.rest[0] == ',' then
      var r := ReadRecord(f.rest[1..]);
      if r.Bad? then Bad else Good([f.value] + r.value, r.rest)
    else Good([f.value], f.rest)
  }

  /** Records separated by CRLF; the last one may or may not be followed by a line break. */
  function ReadFile(s: string): (r: Option<seq<seq<string>>>)
    ensures r.Some? ==> forall row | row in r.value :: |row| >= 1
    decreases |s|
  {
    if |s| == 0 then Some([])
    else
      var r := ReadRecord(s);
      if r.Bad? then None
      else if |r.rest| == 0 then Some([r.value])
      else if CRLF <= r.rest then
        var more := ReadFile(r.rest[2..]);
        if more.None? then None else Some([r.value] + more.value)
      else None
  }

  // ---------- reading what was printed ----------

  /** What may follow a field. */
  predicate Ends(rest: string) {
    |rest| == 0 || rest[0] == ',' || CRLF <= rest
  }

  lemma {:induction false} PlainRead(text: string, rest: string)
    requires !NeedsQuotes(text) && Ends(rest)
    ensures ReadPlain(text + rest) == (text, rest)
  {
    if |text| == 0 {
      assert text + rest == rest;
    } else {
      assert !Special(text[0]);
      assert (text + rest)[1..] == text[1..] + rest;
      PlainRead(text[1..], rest);
      assert text == [text[0]] + text[1..];
    }
  }

  lemma QuotedStep(c: char, s: string, text: string, rest: string)
    requires ReadQuoted(s) == Good(text, rest)
    ensures ReadQuoted(Doubled([c]) + s) == Good([c] + text, rest)
  {
    assert Doubled([c]) == (if c == '"' then "\"\"" else [c]) by { assert [c][1..] == ""; }
    var t := Doubled([c]) + s;
    if c == '"' {
      assert t[0] == '"' && t[1] == '"' && t[2..] == s;
    } else {
      assert t[0] == c && t[1..] == s;
    }
  }

  lemma DoubledFirst(text: string)
    requires text != ""
    ensures text == [text[0]] + text[1..] && Doubled(text) == Doubled([text[0]]) + Doubled(text[1..])
  {
    assert Doubled([text[0]]) == (if text[0] == '"' then "\"\"" else [text[0]]) by { assert [text[0]][1..] == ""; }
  }

  lemma {:induction false} QuotedRead(text: string, rest: string)
    requires Ends(rest)
    ensures ReadQuoted(Doubled(text) + "\"" + rest) == Good(text, rest)
  {
    if |text| == 0 {
      QuoteEnds(rest);
      assert Doubled(text) + "\"" + rest == "\"" + rest;
    } else {
      var tail := Doubled(text[1..]) + "\"" + rest;
      QuotedRead(text[1..], rest);
      QuotedStep(text[0], tail, text[1..], rest);
      DoubledFirst(text);
      Regrouped(Doubled([text[0]]), Doubled(text[1..]), "\"", rest);
    }
  }

  lemma Regrouped(a: string, b: string, c: string, d: string)
    ensures a + b + c + d == a + (b + c + d)
  {}

  lemma QuoteEnds(rest: string)
    requires Ends(rest)
    ensures ReadQuoted("\"" + rest) == Good("", rest)
  {
    var s := "\"" + rest;
    assert s[0] == '"' && s[1..] == rest;
  }

  lemma QuotedCellRead(text: string, rest: string)
    requires Ends(rest)
    ensures ReadField("\"" + Doubled(text) + "\"" + rest) == Good(text, rest)
  {
    var s := "\"" + Doubled(text) + "\"" + rest;
    assert s[0] == '"';
    assert s[1..] == Doubled(text) + "\"" + rest;
    QuotedRead(text, rest);
  }

  lemma PlainCellRead(text: string, rest: string)
    requires Ends(rest) && !NeedsQuotes(text)
    ensures ReadField(text + rest) == Good(text, rest)
  {
    var s := text + rest;
    if |text| != 0 {
      assert !Special(text[0]);
      assert s[0] == text[0];
    } else {
      assert s == rest;
    }
    PlainRead(text, rest);
  }

  lemma CellRead(value: Cell, rest: string)
    requires Ends(rest)
    ensures ReadField(CsvCell(value) + rest) == Good(Shown(value), rest)
  {
    var text := Shown(value);
    if NeedsQuotes(text) {
      QuotedCellRead(text, rest);
    } else {
      PlainCellRead(text, rest);
    }
  }

  lemma {:induction false} RowRead(row: seq<Cell>, rest: string)
    requires |row| >= 1 && Ends(rest) && (|rest| == 0 || rest[0] != ',')
    ensures ReadRecord(Line(row) + rest) == Good(Map(row, Shown), rest)
  {
    var cells := Map(row, CsvCell);
    if |row| == 1 {
      CellRead(row[0], rest);
      assert Map(row, Shown) == [Shown(row[0])];
    } else {
      var tail := row[1..];
      assert cells[1..] == Map(tail, CsvCell);
      var after := "," + (Line(tail) + rest);
      assert Line(row) + rest == cells[0] + after;
      CellRead(row[0], after);
      assert after[1..] == Line(tail) + rest;
      RowRead(tail, rest);
      assert Map(row, Shown) == [Shown(row[0])] + Map(tail, Shown);
    }
  }

  function Printed(table: seq<seq<Cell>>): string {
    Join(Map(table, Line), CRLF) + CRLF
  }

  function ShownRow(row: seq<Cell>): seq<string> {
    Map(row, Shown)
  }

  lemma FileLast(row: seq<string>, s: string)
    requires s != "" && ReadRecord(s) == Good(row, CRLF)
    ensures ReadFile(s) == Some([row])
  {
    assert CRLF <= CRLF && CRLF[2..] == "";
    assert [row] + [] == [row];
  }

  lemma FileNext(row: seq<string>, s: string, more: string, rows: seq<seq<string>>)
    requires s != "" && ReadRecord(s) == Good(row, CRLF + more)
    requires ReadFile(more) == Some(rows)
    ensures ReadFile(s) == Some([row] + rows)
  {
    assert CRLF <= CRLF + more && (CRLF + more)[2..] == more;
  }

  lemma PrintedFirst(table: seq<seq<Cell>>)
    requires |table| > 1
    ensures Printed(table) == Line(table[0]) + (CRLF + Printed(table[1..]))
  {
    assert Map(table, Line)[1..] == Map(table[1..], Line);
  }

  lemma ShownFirst(table: seq<seq<Cell>>)
    requires |table| >= 1
    ensures Map(table, ShownRow) == [ShownRow(table[0])] + Map(table[1..], ShownRow)
  {}

  lemma {:induction false} TableRead(table: seq<seq<Cell>>)
    requires |table| >= 1 && forall row | row in table :: |row| >= 1
    ensures ReadFile(Printed(table)) == Some(Map(table, ShownRow))
  {
    assert table[0] in table;
    ShownFirst(table);
    if |table| == 1 {
      RowRead(table[0], CRLF);
      FileLast(ShownRow(table[0]), Printed(table));
    } else {
      var more := Printed(table[1..]);
      PrintedFirst(table);
      RowRead(table[0], CRLF + more);
      TableRead(table[1..]);
      FileNext(ShownRow(table[0]), Printed(table), more, Map(table[1..], ShownRow));
    }
  }

  function AsCells(headers: seq<string>): seq<Cell> {
    Map(headers, (h: string) => Some(h))
  }

  /** Printing and reading are inverse: after the BOM, the reader returns exactly the shown
      headers and rows, for all strings, if and only if every line has at least one column. */
  lemma PrintReadInverse(headers: seq<string>, rows: seq<seq<Cell>>)
    ensures ToCsv(headers, rows)[0] == BOM
    ensures var table := [AsCells(headers)] + rows;
            ReadFile(ToCsv(headers, rows)[1..]) == Some(Map(table, ShownRow))
            <==> (|headers| >= 1 && forall row | row in rows :: |row| >= 1)
  {
    var table := [AsCells(headers)] + rows;
    assert ToCsv(headers, rows)[1..] == Printed(table);
    if |headers| >= 1 && forall row | row in rows :: |row| >= 1 {
      TableRead(table);
    } else {
      var i: nat;
      if |headers| == 0 {
        i := 0;
      } else {
        var row :| row in rows && |row| == 0;
        var k: nat :| k < |rows| && rows[k] == row;
        i := k + 1;
      }
      assert |table[i]| == 0;
      assert |Map(table, ShownRow)[i]| == 0;
      assert Map(table, ShownRow)[i] in Map(table, ShownRow);
    }
  }

  /** Two tables that print alike show alike. */
  lemma Unambiguous(t1: seq<seq<Cell>>, t2: seq<seq<Cell>>)
    requires |t1| >= 1 && |t2| >= 1
    requires forall row | row in t1 + t2 :: |row| >= 1
    requires Printed(t1) == Printed(t2)
    ensures Map(t1, ShownRow) == Map(t2, ShownRow)
  {
    assert forall row | row in t1 :: row in t1 + t2;
    assert forall row | row in t2 :: row in t1 + t2;
    TableRead(t1);
    TableRead(t2);
  }
}
