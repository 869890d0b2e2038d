/** Comma-separated text with every field quoted, in the field syntax of
    section 2 of RFC 4180: a field is enclosed in double quotes, a double
    quote inside it is written twice, and fields are separated by commas.
    Records are separated by a single line feed, as the export joins its
    lines, rather than the CRLF that RFC 4180 prescribes. A reader for exactly that shape comes with it, and reading back
    what was written returns the original fields, whatever characters they
    hold. */
module Csv {
  import opened Wrappers
  import opened Text

  /** One character as written inside quotes: a quote is doubled. */
  function EscapeChar(c: char): string {
    if c == '"' then "\"\"" else [c]
  }

  /** Doubles every double quote. */
  function Escape(f: string): (r: string)
    ensures |r| >= |f|
    ensures '"' !in f ==> r == f
  {
    if f == [] then [] else EscapeChar(f[0]) + Escape(f[1..])
  }

  function QuoteField(f: string): string {
    "\"" + Escape(f) + "\""
  }

  function QuoteAll(fields: seq<string>): (r: seq<string>)
    ensures |r| == |fields|
    ensures forall i :: 0 <= i < |fields| ==> r[i] == QuoteField(fields[i])
  {
    if fields == [] then [] else [QuoteField(fields[0])] + QuoteAll(fields[1..])
  }

  /** One record: its fields quoted and comma-separated. */
  function Record(fields: seq<string>): string {
    Join(QuoteAll(fields), ',')
  }

  function Records(rows: seq<seq<string>>): (r: seq<string>)
    ensures |r| == |rows|
    ensures forall i :: 0 <= i < |rows| ==> r[i] == Record(rows[i])
  {
    if rows == [] then [] else [Record(rows[0])] + Records(rows[1..])
  }

  /** A document: its records separated by line breaks. */
  function Document(rows: seq<seq<string>>): string {
    Join(Records(rows), '\n')
  }

  // ----------------------------------------------------------------- reader

  /** Reads the inside of a quoted field, the opening quote already consumed:
      a doubled quote stands for one quote, a single quote closes the field.
      Returns the field's value and what follows the closing quote. */
  function ReadQuoted(s: string): (r: Option<(string, string)>)
    ensures r.Some? ==> |r.value.1| < |s|
    decreases |s|
  {
    if s == [] then None
    else if s[0] == '"' then
      if |s| >= 2 && s[1] == '"' then
        match ReadQuoted(s[2..])
        case None => None
        case Some(p) => Some(("\"" + p.0, p.1))
      else Some(([], s[1..]))
    else
      match ReadQuoted(s[1..])
      case None => None
      case Some(p) => Some(([s[0]] + p.0, p.1))
  }

  /** Reads the quoted fields of one record; stops after a field that is not
      followed by a comma. */
  function ReadFields(s: string): (r: Option<(seq<string>, string)>)
    ensures r.Some? ==> |r.value.0| >= 1 && |r.value.1| < |s|
    decreases |s|
  {
    if s == [] || s[0] != '"' then None
    else
      match ReadQuoted(s[1..])
      case None => None
      case Some(p) =>
        if p.1 != [] && p.1[0] == ',' then
          match ReadFields(p.1[1..])
          case None => None
          case Some(q) => Some(([p.0] + q.0, q.1))
        else Some(([p.0], p.1))
  }

  /** Reads a whole document: records separated by single line breaks, with
      nothing left over. */
  function ReadDocument(s: string): (r: Option<seq<seq<string>>>)
    ensures r.Some? ==> |r.value| >= 1
    decreases |s|
  {
    match ReadFields(s)
    case None => None
    case Some(p) =>
      if p.1 == [] then Some([p.0])
      else if p.1[0] == '\n' then
        match ReadDocument(p.1[1..])
        case None => None
        case Some(rest) => Some([p.0] + rest)
      else None
  }

  // ------------------------------------------------------------- round trip

  /** The escaped value followed by the closing quote reads back as the
      value, provided the text after it does not begin with a quote. */
  lemma {:induction false} ReadEscaped(f: string, rest: string)
    requires rest == [] || rest[0] != '"'
    ensures ReadQuoted(Escape(f) + "\"" + rest) == Some((f, rest))
    decreases |f|
  {
    if f == [] {
      ReadClosingQuote(rest);
    } else {
      ReadEscaped(f[1..], rest);
      ReadEscapedStep(f, rest);
    }
  }

  lemma ReadClosingQuote(rest: string)
    requires rest == [] || rest[0] != '"'
    ensures ReadQuoted(Escape([]) + "\"" + rest) == Some(([], rest))
  {
    assert Escape([]) + "\"" + rest == "\"" + rest;
  }

  lemma ReadEscapedStep(f: string, rest: string)
    requires f != []
    requires ReadQuoted(Escape(f[1..]) + "\"" + rest) == Some((f[1..], rest))
    ensures ReadQuoted(Escape(f) + "\"" + rest) == Some((f, rest))
  {
    var tail := Escape(f[1..]) + "\"" + rest;
    EscapeUnfold(f, rest);
    if f[0] == '"' {
      ReadDoubledQuote(f, tail, rest);
    } else {
      ReadPlainChar(f, tail, rest);
    }
  }

  lemma EscapeUnfold(f: string, rest: string)
    requires f != []
    ensures Escape(f) + "\"" + rest == EscapeChar(f[0]) + (Escape(f[1..]) + "\"" + rest)
  {
    Associative(EscapeChar(f[0]), Escape(f[1..]), "\"" + rest);
    assert Escape(f) + "\"" + rest == Escape(f) + ("\"" + rest);
    assert Escape(f[1..]) + "\"" + rest == Escape(f[1..]) + ("\"" + rest);
  }

  lemma Associative(a: string, b: string, c: string)
    ensures (a + b) + c == a + (b + c)
  {
  }

  lemma ReadDoubledQuote(f: string, tail: string, rest: string)
    requires f != [] && f[0] == '"'
    requires ReadQuoted(tail) == Some((f[1..], rest))
    ensures ReadQuoted("\"\"" + tail) == Some((f, rest))
  {
    assert ("\"\"" + tail)[2..] == tail;
    assert "\"" + f[1..] == f;
  }

  lemma ReadPlainChar(f: string, tail: string, rest: string)
    requires f != [] && f[0] != '"'
    requires ReadQuoted(tail) == Some((f[1..], rest))
    ensures ReadQuoted([f[0]] + tail) == Some((f, rest))
  {
    assert ([f[0]] + tail)[1..] == tail;
    assert [f[0]] + f[1..] == f;
  }

  /** A record reads back as its fields, provided the text after it starts
      with neither a comma nor a quote. */
  lemma {:induction false} ReadRecord(fields: seq<string>, rest: string)
    requires |fields| >= 1
    requires rest == [] || (rest[0] != ',' && rest[0] != '"')
    ensures ReadFields(Record(fields) + rest) == Some((fields, rest))
    decreases |fields|
  {
    if |fields| == 1 {
      ReadOneFieldRecord(fields, rest);
    } else {
      ReadRecord(fields[1..], rest);
      ReadRecordStep(fields, rest);
    }
  }

  lemma ReadOneFieldRecord(fields: seq<string>, rest: string)
    requires |fields| == 1
    requires rest == [] || (rest[0] != ',' && rest[0] != '"')
    ensures ReadFields(Record(fields) + rest) == Some((fields, rest))
  {
    assert Record(fields) == QuoteField(fields[0]);
    ReadLastField(fields[0], rest);
    assert [fields[0]] == fields;
  }

  lemma ReadRecordStep(fields: seq<string>, rest: string)
    requires |fields| >= 2
    requires ReadFields(Record(fields[1..]) + rest) == Some((fields[1..], rest))
    ensures ReadFields(Record(fields) + rest) == Some((fields, rest))
  {
    RecordUnfold(fields, rest);
    ReadFieldThenMore(fields[0], Record(fields[1..]) + rest, fields[1..], rest);
    assert [fields[0]] + fields[1..] == fields;
  }

  lemma ReadLastField(f: string, rest: string)
    requires rest == [] || (rest[0] != ',' && rest[0] != '"')
    ensures ReadFields(QuoteField(f) + rest) == Some(([f], rest))
  {
    var s := QuoteField(f) + rest;
    QuotedTail(f, rest);
    ReadEscaped(f, rest);
    FieldThenEnd(s, f, rest);
  }

  lemma ReadFieldThenMore(f: string, more: string, fs: seq<string>, rest: string)
    requires ReadFields(more) == Some((fs, rest))
    ensures ReadFields(QuoteField(f) + "," + more) == Some(([f] + fs, rest))
  {
    var after := "," + more;
    var s := QuoteField(f) + after;
    assert QuoteField(f) + "," + more == s;
    QuotedTail(f, after);
    ReadEscaped(f, after);
    assert after[1..] == more;
    FieldThenComma(s, f, after, fs, rest);
  }

  /** A quoted field followed by `rest`: the opening quote, then what the
      field reader consumes. */
  lemma QuotedTail(f: string, rest: string)
    ensures (QuoteField(f) + rest)[0] == '"'
    ensures (QuoteField(f) + rest)[1..] == Escape(f) + "\"" + rest
  {
    assert QuoteField(f) + rest == "\"" + (Escape(f) + "\"" + rest);
  }

  lemma FieldThenEnd(s: string, f: string, after: string)
    requires s != [] && s[0] == '"' && ReadQuoted(s[1..]) == Some((f, after))
    requires after == [] || after[0] != ','
    ensures ReadFields(s) == Some(([f], after))
  {
  }

  lemma FieldThenComma(s: string, f: string, after: string, fs: seq<string>, rest: string)
    requires s != [] && s[0] == '"' && ReadQuoted(s[1..]) == Some((f, after))
    requires after != [] && after[0] == ',' && ReadFields(after[1..]) == Some((fs, rest))
    ensures ReadFields(s) == Some(([f] + fs, rest))
  {
  }

  lemma RecordUnfold(fields: seq<string>, rest: string)
    requires |fields| >= 2
    ensures Record(fields) + rest == QuoteField(fields[0]) + "," + (Record(fields[1..]) + rest)
  {
    assert QuoteAll(fields)[1..] == QuoteAll(fields[1..]);
  }

  /** A document reads back as its records, each of them as its fields. */
  lemma {:induction false} ReadWritten(rows: seq<seq<string>>)
    requires |rows| >= 1
    requires forall i :: 0 <= i < |rows| ==> |rows[i]| >= 1
    ensures ReadDocument(Document(rows)) == Some(rows)
    decreases |rows|
  {
    if |rows| == 1 {
      ReadLastRecord(rows);
    } else {
      ReadWritten(rows[1..]);
      ReadNextRecord(rows);
    }
  }

  lemma ReadLastRecord(rows: seq<seq<string>>)
    requires |rows| == 1 && |rows[0]| >= 1
    ensures ReadDocument(Document(rows)) == Some(rows)
  {
    assert Document(rows) == Record(rows[0]) + [];
    ReadRecord(rows[0], []);
    assert rows == [rows[0]];
  }

  lemma ReadNextRecord(rows: seq<seq<string>>)
    requires |rows| >= 2 && |rows[0]| >= 1
    requires ReadDocument(Document(rows[1..])) == Some(rows[1..])
    ensures ReadDocument(Document(rows)) == Some(rows)
  {
    var after := "\n" + Document(rows[1..]);
    assert Records(rows)[1..] == Records(rows[1..]);
    assert Document(rows) == Record(rows[0]) + after;
    ReadRecord(rows[0], after);
    assert after[1..] == Document(rows[1..]);
    RecordThenNewline(Document(rows), rows[0], after, rows[1..]);
    assert [rows[0]] + rows[1..] == rows;
  }

  lemma RecordThenNewline(s: string, fs: seq<string>, after: string, more: seq<seq<string>>)
    requires ReadFields(s) == Some((fs, after))
    requires after != [] && after[0] == '\n' && ReadDocument(after[1..]) == Some(more)
    ensures ReadDocument(s) == Some([fs] + more)
  {
  }
}
