/** The CSV export, and a reader written from section 2 of RFC 4180 that takes it back. */
module Csv {
  import opened Wrappers

  /** A cell: null or undefined, or whatever String(value) (or toISOString) makes of it. */
  datatype Value = Null | Text(text: string)

  datatype Column = Column(key: string, header: string)

  type Row = map<string, Value>

  // ---- the writer ----

  predicate Special(c: char) { c == '"' || c == ',' || c == '\n' || c == '\r' }

  predicate NeedsQuotes(s: string) { exists i :: 0 <= i < |s| && Special(s[i]) }

  function DoubleQuotes(s: string): string {
    if s == "" then "" else (if s[0] == '"' then "\"\"" else [s[0]]) + DoubleQuotes(s[1..])
  }

  function EscapeText(s: string): string {
    if NeedsQuotes(s) then "\"" + DoubleQuotes(s) + "\"" else s
  }

  function TextOf(v: Value): string { if v.Null? then "" else v.text }

  function EscapeField(v: Value): string { if v.Null? then "" else EscapeText(v.text) }

  /** row[c.key]: undefined when the row has no such key. */
  function Cell(row: Row, c: Column): Value { if c.key in row then row[c.key] else Null }

  function Join(parts: seq<string>, separator: string): string {
    if parts == [] then "" else if |parts| == 1 then parts[0] else parts[0] + separator + Join(parts[1..], separator)
  }

  function Line(cells: seq<Value>): string {
    Join(seq(|cells|, i requires 0 <= i < |cells| => EscapeField(cells[i])), ",")
  }

  const CRLF := "\r\n"

  function HeaderCells(columns: seq<Column>): seq<Value> {
    seq(|columns|, i requires 0 <= i < |columns| => Text(columns[i].header))
  }

  function RowCells(row: Row, columns: seq<Column>): seq<Value> {
    seq(|columns|, i requires 0 <= i < |columns| => Cell(row, columns[i]))
  }

  function ToCsv(rows: seq<Row>, columns: seq<Column>): string {
    var lines := seq(|rows|, i requires 0 <= i < |rows| => Line(RowCells(rows[i], columns)));
    Join([Line(HeaderCells(columns))] + lines, CRLF) + CRLF
  }

  /** The same table as bare field texts: the header first. */
  function Fields(cells: seq<Value>): (fields: seq<string>)
    ensures |fields| == |cells|
  {
    seq(|cells|, i requires 0 <= i < |cells| => TextOf(cells[i]))
  }

  function TableOf(rows: seq<Row>, columns: seq<Column>): seq<seq<string>> {
    [Fields(HeaderCells(columns))] + seq(|rows|, i requires 0 <= i < |rows| => Fields(RowCells(rows[i], columns)))
  }

  // ---- the reader ----

  datatype Read<T> = Read(value: T, rest: string) | Malformed

  /** After the opening quote: up to the closing one, a doubled quote standing for one. */
  function ReadQuoted(s: string): Read<string>
    decreases |s|
  {
    if s == "" then Malformed
    else if s[0] != '"' then Prepend(s[0], ReadQuoted(s[1..]))
    else if |s| > 1 && s[1] == '"' then Prepend('"', ReadQuoted(s[2..]))
    else Read("", s[1..])
  }

  function Prepend(c: char, r: Read<string>): Read<string> {
    if r.Malformed? then Malformed else Read([c] + r.value, r.rest)
  }

  /** Text up to the next quote, comma or line break character. */
  function ReadPlain(s: string): Read<string> {
    if s == "" || Special(s[0]) then Read("", s) else Prepend(s[0], ReadPlain(s[1..]))
  }

  function ReadField(s: string): Read<string> {
    if s != "" && s[0] == '"' then ReadQuoted(s[1..]) else ReadPlain(s)
  }

  lemma {:induction false} ReadQuotedShrinks(s: string)
    ensures ReadQuoted(s).Read? ==> |ReadQuoted(s).rest| < |s|
    decreases |s|
  {
    if s != "" {
      if s[0] != '"' { ReadQuotedShrinks(s[1..]); }
      else if |s| > 1 && s[1] == '"' { ReadQuotedShrinks(s[2..]); }
    }
  }

  lemma {:induction false} ReadPlainShrinks(s: string)
    ensures ReadPlain(s).Read? ==> |ReadPlain(s).rest| <= |s|
  {
    if s != "" && !Special(s[0]) { ReadPlainShrinks(s[1..]); }
  }

  lemma ReadFieldShrinks(s: string)
    ensures ReadField(s).Read? ==> |ReadField(s).rest| <= |s|
  {
    if s != "" && s[0] == '"' { ReadQuotedShrinks(s[1..]); } else { ReadPlainShrinks(s); }
  }

  predicate AtLineEnd(s: string) { s == "" || CRLF <= s }

  /** One or more fields separated by commas, up to a CRLF or the end. */
  function ReadRecord(s: string): (r: Read<seq<string>>)
    ensures r.Read? ==> r.value != [] && |r.rest| <= |s| && AtLineEnd(r.rest)
    decreases |s|
  {
    ReadFieldShrinks(s);
    var field := ReadField(s);
    if field.Malformed? then Malformed
    else if AtLineEnd(field.rest) then Read([field.value], field.rest)
    else if field.rest[0] != ',' then Malformed
    else
      var more := ReadRecord(field.rest[1..]);
      if more.Malformed? then Malformed else Read([field.value] + more.value, more.rest)
  }

  /** Records separated by CRLF; the last may or may not end in one. */
  function ReadFile(s: string): (r: Option<seq<seq<string>>>)
    ensures r.Some? ==> forall i :: 0 <= i < |r.value| ==> r.value[i] != []
    decreases |s|
  {
    var record := ReadRecord(s);
    if record.Malformed? then None
    else if record.rest == "" || record.rest == CRLF then Some([record.value])
    else
      var more := ReadFile(record.rest[2..]);
      if more.None? then None else Some([record.value] + more.value)
  }

  // ---- the reader undoes the writer ----

  predicate Stops(rest: string) { rest == "" || rest[0] == ',' || rest[0] == '\r' }

  lemma {:induction false} QuotedRoundTrip(s: string, rest: string)
    requires Stops(rest)
    ensures ReadQuoted(DoubleQuotes(s) + "\"" + rest) == Read(s, rest)
    decreases |s|
  {
    var text := DoubleQuotes(s) + "\"" + rest;
    if s == "" {
      assert text == "\"" + rest;
      assert text[1..] == rest;
    } else {
      var tail := DoubleQuotes(s[1..]) + "\"" + rest;
      QuotedRoundTrip(s[1..], rest);
      assert s == [s[0]] + s[1..];
      if s[0] == '"' {
        assert text == "\"\"" + tail;
        assert text[2..] == tail;
      } else {
        assert text == [s[0]] + tail;
        assert text[1..] == tail;
      }
    }
  }

  lemma {:induction false} PlainRoundTrip(s: string, rest: string)
    requires Stops(rest) && !NeedsQuotes(s)
    ensures ReadPlain(s + rest) == Read(s, rest)
  {
    if s == "" {
      assert s + rest == rest;
    } else {
      assert !Special(s[0]);
      assert forall i :: 0 <= i < |s[1..]| ==> s[1..][i] == s[i + 1];
      PlainRoundTrip(s[1..], rest);
      assert (s + rest)[1..] == s[1..] + rest;
      assert s == [s[0]] + s[1..];
    }
  }

  lemma FieldRoundTrip(v: Value, rest: string)
    requires Stops(rest)
    ensures ReadField(EscapeField(v) + rest) == Read(TextOf(v), rest)
  {
    var s := TextOf(v);
    if NeedsQuotes(s) {
      assert EscapeField(v) + rest == "\"" + (DoubleQuotes(s) + "\"" + rest);
      QuotedRoundTrip(s, rest);
    } else {
      assert EscapeField(v) == s;
      PlainRoundTrip(s, rest);
      if s != "" { assert !Special(s[0]); }
    }
  }

  lemma RecordStep(v: Value, tail: string)
    ensures ReadRecord(EscapeField(v) + ("," + tail)) ==
      (if ReadRecord(tail).Malformed? then Malformed
       else Read([TextOf(v)] + ReadRecord(tail).value, ReadRecord(tail).rest))
  {
    FieldRoundTrip(v, "," + tail);
    assert ("," + tail)[1..] == tail;
  }

  lemma LastField(v: Value, rest: string)
    requires AtLineEnd(rest)
    ensures ReadRecord(EscapeField(v) + rest) == Read([TextOf(v)], rest)
  {
    if rest != "" { assert rest[0] == CRLF[0]; }
    FieldRoundTrip(v, rest);
  }

  lemma LineOne(v: Value)
    ensures Line([v]) == EscapeField(v) && Fields([v]) == [TextOf(v)]
  {
  }

  lemma Regroup(a: string, b: string, c: string)
    ensures a + "," + b + c == a + ("," + (b + c))
  {
  }

  lemma {:induction false} RecordRoundTrip(cells: seq<Value>, rest: string)
    requires cells != [] && AtLineEnd(rest)
    ensures ReadRecord(Line(cells) + rest) == Read(Fields(cells), rest)
    decreases |cells|
  {
    var v, more := cells[0], cells[1..];
    if more == [] {
      assert cells == [v];
      LineOne(v);
      LastField(v, rest);
    } else {
      RecordRoundTrip(more, rest);
      RecordStep(v, Line(more) + rest);
      LineSplit(cells);
      Regroup(EscapeField(v), Line(more), rest);
    }
  }

  lemma LineSplit(cells: seq<Value>)
    requires |cells| > 1
    ensures Line(cells) == EscapeField(cells[0]) + "," + Line(cells[1..])
    ensures Fields(cells) == [TextOf(cells[0])] + Fields(cells[1..])
  {
    var parts := seq(|cells|, i requires 0 <= i < |cells| => EscapeField(cells[i]));
    assert parts[1..] == seq(|cells[1..]|, i requires 0 <= i < |cells[1..]| => EscapeField(cells[1..][i]));
  }

  /** The lines of a file and the records they stand for. */
  function Lines(records: seq<seq<Value>>): seq<string> {
    seq(|records|, i requires 0 <= i < |records| => Line(records[i]))
  }

  function AllFields(records: seq<seq<Value>>): seq<seq<string>> {
    seq(|records|, i requires 0 <= i < |records| => Fields(records[i]))
  }

  lemma {:induction false} FileRoundTrip(records: seq<seq<Value>>)
    requires records != [] && forall i :: 0 <= i < |records| ==> records[i] != []
    ensures ReadFile(Join(Lines(records), CRLF) + CRLF) == Some(AllFields(records))
    decreases |records|
  {
    var text := Join(Lines(records), CRLF) + CRLF;
    if |records| == 1 {
      assert text == Line(records[0]) + CRLF;
      RecordRoundTrip(records[0], CRLF);
      assert AllFields(records) == [Fields(records[0])];
    } else {
      var tail := Join(Lines(records[1..]), CRLF) + CRLF;
      assert Lines(records)[1..] == Lines(records[1..]);
      assert text == Line(records[0]) + (CRLF + tail);
      RecordRoundTrip(records[0], CRLF + tail);
      assert (CRLF + tail)[2..] == tail;
      FileRoundTrip(records[1..]);
      assert AllFields(records) == [Fields(records[0])] + AllFields(records[1..]);
      assert |text| > 2;
    }
  }

  function Records(rows: seq<Row>, columns: seq<Column>): seq<seq<Value>> {
    [HeaderCells(columns)] + seq(|rows|, i requires 0 <= i < |rows| => RowCells(rows[i], columns))
  }

  lemma WriterByRecords(rows: seq<Row>, columns: seq<Column>)
    ensures ToCsv(rows, columns) == Join(Lines(Records(rows, columns)), CRLF) + CRLF
    ensures TableOf(rows, columns) == AllFields(Records(rows, columns))
  {
    var records := Records(rows, columns);
    assert Lines(records) == [Line(HeaderCells(columns))]
      + seq(|rows|, i requires 0 <= i < |rows| => Line(RowCells(rows[i], columns)));
    assert AllFields(records) == TableOf(rows, columns);
  }

  /** A text is written as it is unless it holds a quote, comma or line break; then it stands in quotes. */
  lemma QuotedExactly(s: string)
    ensures EscapeField(Null) == ""
    ensures EscapeField(Text(s)) == s <==> '"' !in s && ',' !in s && '\n' !in s && '\r' !in s
    ensures EscapeField(Text(s)) != s ==>
      EscapeField(Text(s)) == "\"" + DoubleQuotes(s) + "\"" && |EscapeField(Text(s))| >= |s| + 2
  {
    if NeedsQuotes(s) {
      QuotesGrow(s);
    }
  }

  lemma {:induction false} QuotesGrow(s: string)
    ensures |DoubleQuotes(s)| >= |s|
  {
    if s != "" { QuotesGrow(s[1..]); }
  }

  /** The first record holds the headers, the others each column's value of their row, nothing where it has none. */
  lemma FieldsExactly(rows: seq<Row>, columns: seq<Column>, i: nat, j: nat)
    requires i < |rows| && j < |columns|
    ensures var t := TableOf(rows, columns);
      && |t| == |rows| + 1 && |t[0]| == |columns| && t[0][j] == columns[j].header && |t[i + 1]| == |columns|
      && (columns[j].key in rows[i] && rows[i][columns[j].key].Text? ==>
            t[i + 1][j] == rows[i][columns[j].key].text)
      && (columns[j].key !in rows[i] || rows[i][columns[j].key].Null? ==> t[i + 1][j] == "")
  {
  }

  /** Read back, the export is the header and the field texts - for every table that has a column, and no other. */
  lemma CsvRoundTrip(rows: seq<Row>, columns: seq<Column>)
    ensures ReadFile(ToCsv(rows, columns)) == Some(TableOf(rows, columns)) <==> columns != []
  {
    WriterByRecords(rows, columns);
    var records := Records(rows, columns);
    if columns != [] {
      assert forall i :: 0 <= i < |records| ==> |records[i]| == |columns|;
      FileRoundTrip(records);
    } else {
      assert TableOf(rows, columns)[0] == [];
    }
  }

  /** Every record of the export has one field per column. */
  lemma SameWidth(rows: seq<Row>, columns: seq<Column>)
    requires columns != []
    ensures ReadFile(ToCsv(rows, columns)).Some?
    ensures forall i :: 0 <= i < |ReadFile(ToCsv(rows, columns)).value| ==>
      |ReadFile(ToCsv(rows, columns)).value[i]| == |columns|
  {
    CsvRoundTrip(rows, columns);
  }

  /** Equal exports are exports of equal tables. */
  lemma CsvInjective(rows1: seq<Row>, columns1: seq<Column>, rows2: seq<Row>, columns2: seq<Column>)
    requires columns1 != [] && columns2 != []
    requires ToCsv(rows1, columns1) == ToCsv(rows2, columns2)
    ensures TableOf(rows1, columns1) == TableOf(rows2, columns2)
  {
    CsvRoundTrip(rows1, columns1);
    CsvRoundTrip(rows2, columns2);
  }
}
