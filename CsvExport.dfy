/**
 * CSVExporter: each cell is written as section 2 of RFC 4180 asks (a field
 * that holds a comma, a double quote or a line feed is enclosed in double
 * quotes, and every double quote inside it is written twice), the cells of
 * a row are joined by single commas, and the header line comes first,
 * followed by one line per data row.
 *
 * The writer and its platform line separator are not modelled: the export
 * is the sequence of lines it writes, each of which the writer ends with
 * a line separator.
 */
module CsvExport {
  import opened Strings

  // ---------------------------------------------------------------------
  // escapeCSV

  /** The characters that make escapeCSV quote a cell; a carriage return is not one of them. */
  predicate NeedsQuotes(s: string)
  {
    ',' in s || '"' in s || '\n' in s
  }

  /** escapeCSV: a cell that needs quotes is enclosed in them with its own quotes doubled. */
  function EscapeCsv(s: string): string
  {
    if NeedsQuotes(s) then "\"" + DoubleQuotes(s) + "\"" else s
  }

  /** A cell is changed by escaping exactly when it holds a comma, a double quote or a line feed. */
  lemma EscapeCsvChangesExactlyQuoted(s: string)
    ensures EscapeCsv(s) != s <==> NeedsQuotes(s)
  {
    if NeedsQuotes(s) {
      assert |EscapeCsv(s)| >= |s| + 2;
    }
  }

  /** A cell whose only special character is a carriage return is written as it is. */
  lemma CarriageReturnIsNotQuoted()
    ensures EscapeCsv("a\rb") == "a\rb"
  {
    assert "a\rb"[0] == 'a' && "a\rb"[1] == '\r' && "a\rb"[2] == 'b';
    assert !NeedsQuotes("a\rb");
  }

  /**
   * Section 2 of RFC 4180, rules 6 and 7, read backwards: a quoted cell is
   * recovered by stripping the enclosing quotes and reading each `""` as `"`.
   */
  lemma EscapeCsvRoundTrip(s: string)
    ensures var r := EscapeCsv(s);
      if NeedsQuotes(s) then
        |r| >= 2 && r[0] == '"' && r[|r| - 1] == '"' && Undouble(r[1..|r| - 1]) == s
      else
        r == s && ',' !in r && '"' !in r
  {
    var r := EscapeCsv(s);
    if NeedsQuotes(s) {
      assert r[1..|r| - 1] == DoubleQuotes(s);
      UndoubleDoubleQuotes(s);
    }
  }

  // ---------------------------------------------------------------------
  // escapeVectorToCSV and the row loop of exportToCSV

  /** What a cell prints as: its text, or the empty string for a null cell. */
  function CellText(cell: Option<string>): string
  {
    if cell.Some? then cell.value else ""
  }

  function CellTexts(row: seq<Option<string>>): (texts: seq<string>)
    ensures |texts| == |row|
  {
    seq(|row|, i requires 0 <= i < |row| => CellText(row[i]))
  }

  function EscapedFields(texts: seq<string>): (fields: seq<string>)
    ensures |fields| == |texts|
  {
    seq(|texts|, i requires 0 <= i < |texts| => EscapeCsv(texts[i]))
  }

  /** One line of the export: the escaped texts joined by single commas. */
  function CsvLine(texts: seq<string>): string
  {
    Join(EscapedFields(texts), ",")
  }

  /** escapeVectorToCSV: each name escaped, followed by a comma unless it is the last. */
  method EscapeVectorToCsv(data: seq<string>) returns (line: string)
    ensures line == CsvLine(data)
  {
    ghost var fields := EscapedFields(data);
    line := "";
    var i := 0;
    while i < |data|
      invariant 0 <= i <= |data|
      invariant line == Join(fields[..i], ",") + (if 0 < i < |data| then "," else "")
    {
      line := line + EscapeCsv(data[i]);
      if i > 0 {
        JoinSnoc(fields[..i], fields[i], ",");
      }
      assert fields[..i] + [fields[i]] == fields[..i + 1];
      if i < |data| - 1 {
        line := line + ",";
      }
      i := i + 1;
    }
    assert fields[..|data|] == fields;
  }

  /** The inner loop of exportToCSV: one data row, a null cell written as the empty string. */
  method RowString(row: seq<Option<string>>) returns (line: string)
    ensures line == CsvLine(CellTexts(row))
  {
    ghost var fields := EscapedFields(CellTexts(row));
    line := "";
    var i := 0;
    while i < |row|
      invariant 0 <= i <= |row|
      invariant line == Join(fields[..i], ",") + (if 0 < i < |row| then "," else "")
    {
      var cell := row[i];
      var text := if cell != None then cell.value else "";
      assert text == CellTexts(row)[i];
      line := line + EscapeCsv(text);
      assert line == Join(fields[..i], ",") + (if 0 < i then "," else "") + fields[i];
      if i > 0 {
        JoinSnoc(fields[..i], fields[i], ",");
      }
      assert fields[..i] + [fields[i]] == fields[..i + 1];
      if i < |row| - 1 {
        line := line + ",";
      }
      i := i + 1;
    }
    assert fields[..|row|] == fields;
  }

  /** exportToCSV: the lines written, the header first and then every data row in order. */
  method ExportToCsv(columnNames: seq<string>, dataRows: seq<seq<Option<string>>>)
    returns (lines: seq<string>)
    ensures |lines| == 1 + |dataRows|
    ensures lines[0] == CsvLine(columnNames)
    ensures forall k :: 0 <= k < |dataRows| ==> lines[k + 1] == CsvLine(CellTexts(dataRows[k]))
  {
    var header := EscapeVectorToCsv(columnNames);
    lines := [header];
    var r := 0;
    while r < |dataRows|
      invariant 0 <= r <= |dataRows|
      invariant |lines| == 1 + r && lines[0] == CsvLine(columnNames)
      invariant forall k :: 0 <= k < r ==> lines[k + 1] == CsvLine(CellTexts(dataRows[k]))
    {
      var rowString := RowString(dataRows[r]);
      lines := lines + [rowString];
      r := r + 1;
    }
  }

  // ---------------------------------------------------------------------
  // Reading a line back, as section 2 of RFC 4180 describes it

  /**
   * The content of a quoted field, `s` being the text after its opening
   * quote: `""` stands for `"`, a lone `"` closes the field. Returns the
   * content and the text after the closing quote.
   */
  function ReadQuoted(s: string): (r: (string, string))
    ensures |r.1| <= |s|
  {
    if s == [] then ([], [])
    else if s[0] == '"' then
      if |s| >= 2 && s[1] == '"' then
        var t := ReadQuoted(s[2..]);
        ("\"" + t.0, t.1)
      else ([], s[1..])
    else
      var t := ReadQuoted(s[1..]);
      ([s[0]] + t.0, t.1)
  }

  /** An unquoted field runs up to the next comma. */
  function ReadPlain(s: string): (r: (string, string))
    ensures |r.1| <= |s|
  {
    if s == [] || s[0] == ',' then ([], s)
    else
      var t := ReadPlain(s[1..]);
      ([s[0]] + t.0, t.1)
  }

  function ReadField(s: string): (r: (string, string))
    ensures |r.1| <= |s|
  {
    if s != [] && s[0] == '"' then ReadQuoted(s[1..]) else ReadPlain(s)
  }

  /** The fields of one record: a field, then another after each comma. */
  function DecodeRecord(s: string): (fields: seq<string>)
    ensures |fields| >= 1
    decreases |s|
  {
    var t := ReadField(s);
    if t.1 != [] && t.1[0] == ',' then [t.0] + DecodeRecord(t.1[1..]) else [t.0]
  }

  lemma {:induction false} ReadQuotedOfDoubled(c: string, rest: string)
    requires rest == [] || rest[0] != '"'
    ensures ReadQuoted(DoubleQuotes(c) + "\"" + rest) == (c, rest)
  {
    var s := DoubleQuotes(c) + "\"" + rest;
    if c == [] {
      assert s == "\"" + rest;
      assert s[1..] == rest;
    } else {
      var dt := DoubleQuotes(c[1..]);
      var tail := dt + "\"" + rest;
      var p := if c[0] == '"' then "\"\"" else [c[0]];
      ReadQuotedOfDoubled(c[1..], rest);
      assert DoubleQuotes(c) == p + dt;
      RegroupTail(p, dt, "\"", rest);
      if c[0] == '"' {
        ReadQuotedOfQuote(tail);
      } else {
        ReadQuotedOfOther(c[0], tail);
      }
      assert [c[0]] + c[1..] == c;
    }
  }

  lemma RegroupTail(p: string, d: string, q: string, rest: string)
    ensures p + d + q + rest == p + (d + q + rest)
  {
  }

  lemma ReadQuotedOfQuote(tail: string)
    ensures ReadQuoted("\"\"" + tail) == ("\"" + ReadQuoted(tail).0, ReadQuoted(tail).1)
  {
    assert ("\"\"" + tail)[2..] == tail;
  }

  lemma ReadQuotedOfOther(c: char, tail: string)
    requires c != '"'
    ensures ReadQuoted([c] + tail) == ([c] + ReadQuoted(tail).0, ReadQuoted(tail).1)
  {
    assert ([c] + tail)[1..] == tail;
  }

  lemma {:induction false} ReadPlainOfPlain(c: string, rest: string)
    requires ',' !in c
    requires rest == [] || rest[0] == ','
    ensures ReadPlain(c + rest) == (c, rest)
  {
    if c == [] {
      assert c + rest == rest;
    } else {
      assert (c + rest)[1..] == c[1..] + rest;
      ReadPlainOfPlain(c[1..], rest);
      assert [c[0]] + c[1..] == c;
    }
  }

  /** An escaped cell followed by a comma or the end of the line reads back as the cell. */
  lemma ReadFieldOfEscaped(c: string, rest: string)
    requires rest == [] || rest[0] == ','
    ensures ReadField(EscapeCsv(c) + rest) == (c, rest)
  {
    if NeedsQuotes(c) {
      ReadFieldOfQuoted(c, rest);
    } else {
      ReadFieldOfUnquoted(c, rest);
    }
  }

  lemma ReadFieldOfQuoted(c: string, rest: string)
    requires rest == [] || rest[0] == ','
    requires NeedsQuotes(c)
    ensures ReadField(EscapeCsv(c) + rest) == (c, rest)
  {
    var d := DoubleQuotes(c);
    var inner := d + "\"" + rest;
    var s := EscapeCsv(c) + rest;
    assert EscapeCsv(c) == "\"" + d + "\"";
    assert s == "\"" + inner by {
      ConcatAssoc("\"" + d, "\"", rest);
    }
    assert s[0] == '"' && s[1..] == inner;
    assert ReadField(s) == ReadQuoted(inner);
    ReadQuotedOfDoubled(c, rest);
  }

  lemma ReadFieldOfUnquoted(c: string, rest: string)
    requires rest == [] || rest[0] == ','
    requires !NeedsQuotes(c)
    ensures ReadField(EscapeCsv(c) + rest) == (c, rest)
  {
    var s := c + rest;
    assert EscapeCsv(c) == c;
    if c != [] {
      assert s[0] == c[0];
    } else {
      assert s == rest;
    }
    assert s == [] || s[0] != '"';
    ReadPlainOfPlain(c, rest);
  }

  /** Every exported line reads back as the texts it was written from. */
  lemma {:induction false} DecodeCsvLine(texts: seq<string>)
    requires texts != []
    ensures DecodeRecord(CsvLine(texts)) == texts
  {
    var h := texts[0];
    if |texts| == 1 {
      assert CsvLine(texts) == EscapeCsv(h) + [];
      ReadFieldOfEscaped(h, []);
    } else {
      var t := texts[1..];
      assert EscapedFields(texts) == [EscapeCsv(h)] + EscapedFields(t);
      JoinCons(EscapeCsv(h), EscapedFields(t), ",");
      var rest := "," + CsvLine(t);
      assert CsvLine(texts) == EscapeCsv(h) + rest;
      ReadFieldOfEscaped(h, rest);
      assert rest[1..] == CsvLine(t);
      DecodeCsvLine(t);
      assert [h] + t == texts;
    }
  }

  /** A data row with at least one cell reads back as its cell texts, a null cell as empty. */
  lemma ExportedRowReadsBack(columnNames: seq<string>, dataRows: seq<seq<Option<string>>>,
                             lines: seq<string>, k: nat)
    requires |lines| == 1 + |dataRows|
    requires forall j :: 0 <= j < |dataRows| ==> lines[j + 1] == CsvLine(CellTexts(dataRows[j]))
    requires k < |dataRows| && dataRows[k] != []
    ensures DecodeRecord(lines[k + 1]) == CellTexts(dataRows[k])
  {
    DecodeCsvLine(CellTexts(dataRows[k]));
  }

  /** A row without cells and a row of one empty cell are written as the same empty line. */
  lemma EmptyRowIsOneEmptyCell()
    ensures CsvLine([]) == CsvLine([""]) == ""
    ensures DecodeRecord("") == [""]
  {
    assert !NeedsQuotes("");
    assert EscapedFields([""]) == [""];
  }
}
