/**
 * CSV field quoting (server.js:140-146) in the style of section 2 of
 * RFC 4180: a field holding a double quote, a comma or a line feed is
 * enclosed in double quotes and each of its double quotes is doubled.
 * Records are separated by a single line feed, as the export writes them.
 * The parser below is the reading side of that format; the round-trip
 * lemmas show that what is written reads back as the fields written.
 */
module Csv {

  import opened Wrappers
  import opened Text

  predicate NeedsQuotes(s: string) {
    '"' in s || ',' in s || '\n' in s
  }

  /** `s.replace(/"/g, '""')`. */
  function Escape(s: string): string
    decreases |s|
  {
    if s == [] then [] else (if s[0] == '"' then "\"\"" else [s[0]]) + Escape(s[1..])
  }

  /** `toCsv` applied to a value already rendered as text. */
  function ToCsv(s: string): string {
    if NeedsQuotes(s) then "\"" + Escape(s) + "\"" else s
  }

  /** `fields.map(toCsv)`. */
  function QuoteAll(fields: seq<string>): (r: seq<string>)
    ensures |r| == |fields|
    ensures forall i :: 0 <= i < |r| ==> r[i] == ToCsv(fields[i])
    decreases |fields|
  {
    if fields == [] then [] else [ToCsv(fields[0])] + QuoteAll(fields[1..])
  }

  /** `fields.map(toCsv).join(",")`. */
  function RenderRow(fields: seq<string>): string {
    Join(QuoteAll(fields), ",")
  }

  /** An unquoted field runs up to the next comma or line feed. */
  function ParseBare(s: string): (r: (string, string))
    ensures |r.1| <= |s|
    decreases |s|
  {
    if s == [] || s[0] == ',' || s[0] == '\n' then ([], s)
    else
      var (f, rest) := ParseBare(s[1..]);
      ([s[0]] + f, rest)
  }

  /**
   * The rest of a quoted field, after its opening quote: a doubled quote
   * stands for one quote and a single quote closes the field. None when
   * the closing quote is missing.
   */
  function ParseQuoted(s: string): (r: Option<(string, string)>)
    ensures r.Some? ==> |r.value.1| < |s|
    decreases |s|
  {
    if s == [] then None
    else if s[0] == '"' then
      if |s| >= 2 && s[1] == '"' then
        match ParseQuoted(s[2..])
        case None => None
        case Some((f, rest)) => Some(("\"" + f, rest))
      else Some(([], s[1..]))
    else
      match ParseQuoted(s[1..])
      case None => None
      case Some((f, rest)) => Some(([s[0]] + f, rest))
  }

  function ParseField(s: string): (r: Option<(string, string)>)
    ensures r.Some? ==> |r.value.1| <= |s|
  {
    if s != [] && s[0] == '"' then ParseQuoted(s[1..]) else Some(ParseBare(s))
  }

  /** The fields of one record, and what follows it (empty, or a line feed first). */
  function ParseRecord(s: string): (r: Option<(seq<string>, string)>)
    ensures r.Some? ==> |r.value.1| <= |s| && (r.value.1 == [] || r.value.1[0] == '\n')
    decreases |s|
  {
    match ParseField(s)
    case None => None
    case Some((f, rest)) =>
      if rest == [] || rest[0] == '\n' then Some(([f], rest))
      else if rest[0] == ',' then
        match ParseRecord(rest[1..])
        case None => None
        case Some((fs, tail)) => Some(([f] + fs, tail))
      else None
  }

  /** A whole CSV text: its records, in order. None when it is malformed. */
  function ParseCsv(s: string): Option<seq<seq<string>>>
    decreases |s|
  {
    match ParseRecord(s)
    case None => None
    case Some((fields, rest)) =>
      if rest == [] then Some([fields])
      else
        match ParseCsv(rest[1..])
        case None => None
        case Some(records) => Some([fields] + records)
  }

  lemma {:induction false} BareRoundTrip(f: string, rest: string)
    requires ',' !in f && '\n' !in f
    requires rest == [] || rest[0] == ',' || rest[0] == '\n'
    ensures ParseBare(f + rest) == (f, rest)
    decreases |f|
  {
    if f == [] {
      assert f + rest == rest;
    } else {
      assert (f + rest)[1..] == f[1..] + rest;
      BareRoundTrip(f[1..], rest);
      assert [f[0]] + f[1..] == f;
    }
  }

  lemma {:induction false} QuotedRoundTrip(f: string, rest: string)
    requires rest == [] || rest[0] != '"'
    ensures ParseQuoted(Escape(f) + "\"" + rest) == Some((f, rest))
    decreases |f|
  {
    var s := Escape(f) + "\"" + rest;
    if f == [] {
      assert s == "\"" + rest;
      assert s[1..] == rest;
    } else if f[0] == '"' {
      assert s == "\"\"" + (Escape(f[1..]) + "\"" + rest);
      assert s[2..] == Escape(f[1..]) + "\"" + rest;
      QuotedRoundTrip(f[1..], rest);
      assert "\"" + f[1..] == f;
    } else {
      assert s == [f[0]] + (Escape(f[1..]) + "\"" + rest);
      assert s[1..] == Escape(f[1..]) + "\"" + rest;
      QuotedRoundTrip(f[1..], rest);
      assert [f[0]] + f[1..] == f;
    }
  }

  /** Any text survives quoting and reading back, whatever delimiter follows. */
  lemma FieldRoundTrip(f: string, rest: string)
    requires rest == [] || rest[0] == ',' || rest[0] == '\n'
    ensures ParseField(ToCsv(f) + rest) == Some((f, rest))
  {
    if NeedsQuotes(f) {
      var s := ToCsv(f) + rest;
      assert s == "\"" + (Escape(f) + "\"" + rest);
      assert s[1..] == Escape(f) + "\"" + rest;
      QuotedRoundTrip(f, rest);
    } else {
      BareRoundTrip(f, rest);
      if f == [] {
        assert f + rest == rest;
      }
    }
  }

  /** A field that needs no quotes is written as it is. */
  lemma PlainFieldUnchanged(f: string)
    requires !NeedsQuotes(f)
    ensures ToCsv(f) == f
  {
  }

  /** Fields that need no quotes are rendered as they are. */
  lemma {:induction false} QuoteAllPlain(fields: seq<string>)
    requires forall i :: 0 <= i < |fields| ==> !NeedsQuotes(fields[i])
    ensures QuoteAll(fields) == fields
    decreases |fields|
  {
    if fields != [] {
      QuoteAllPlain(fields[1..]);
    }
  }

  /** A rendered row reads back as its fields, whatever their content. */
  lemma {:induction false} RowRoundTrip(fields: seq<string>, rest: string)
    requires |fields| >= 1
    requires rest == [] || rest[0] == '\n'
    ensures ParseRecord(RenderRow(fields) + rest) == Some((fields, rest))
    decreases |fields|
  {
    var quoted := QuoteAll(fields);
    if |fields| == 1 {
      assert RenderRow(fields) == quoted[0] == ToCsv(fields[0]);
      FieldRoundTrip(fields[0], rest);
      assert [fields[0]] == fields;
    } else {
      var tail := fields[1..];
      var more := RenderRow(tail) + rest;
      assert RenderRow(fields) + rest == ToCsv(fields[0]) + ("," + more);
      FieldRoundTrip(fields[0], "," + more);
      assert ("," + more)[1..] == more;
      RowRoundTrip(tail, rest);
      assert [fields[0]] + tail == fields;
    }
  }

  /** Each record rendered as one line of text. */
  function RenderLines(rows: seq<seq<string>>): (r: seq<string>)
    ensures |r| == |rows|
    decreases |rows|
  {
    if rows == [] then [] else [RenderRow(rows[0])] + RenderLines(rows[1..])
  }

  lemma {:induction false} RenderLinesAppend(rows: seq<seq<string>>, row: seq<string>)
    ensures RenderLines(rows + [row]) == RenderLines(rows) + [RenderRow(row)]
    decreases |rows|
  {
    if rows != [] {
      assert (rows + [row])[1..] == rows[1..] + [row];
      RenderLinesAppend(rows[1..], row);
    } else {
      assert rows + [row] == [row];
    }
  }

  /** The records rendered as lines and joined with line feeds. */
  function RenderCsv(rows: seq<seq<string>>): string {
    Join(RenderLines(rows), "\n")
  }

  /** Every record has at least one field (an empty line reads as one empty field). */
  predicate NoEmptyRecord(rows: seq<seq<string>>)
    decreases |rows|
  {
    rows == [] || (|rows[0]| >= 1 && NoEmptyRecord(rows[1..]))
  }

  /** A rendered CSV text reads back as its rows, field for field. */
  lemma {:induction false} CsvRoundTrip(rows: seq<seq<string>>)
    requires |rows| >= 1 && NoEmptyRecord(rows)
    ensures ParseCsv(RenderCsv(rows)) == Some(rows)
    decreases |rows|
  {
    var lines := RenderLines(rows);
    if |rows| == 1 {
      RowRoundTrip(rows[0], []);
      assert RenderCsv(rows) == lines[0] == RenderRow(rows[0]) + [];
      assert [rows[0]] == rows;
    } else {
      var tail := rows[1..];
      var more := RenderCsv(tail);
      assert RenderCsv(rows) == RenderRow(rows[0]) + ("\n" + more);
      RowRoundTrip(rows[0], "\n" + more);
      assert ("\n" + more)[1..] == more;
      CsvRoundTrip(tail);
      assert [rows[0]] + tail == rows;
    }
  }

}
