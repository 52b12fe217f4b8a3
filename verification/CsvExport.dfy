/** The CSV text of the wallet export, read back by the grammar of section 2 of RFC 4180. */
module CsvExport {

  const QUOTE := '\"'
  const CRLF := "\r\n"

  // ---------- what the export prints ----------

  /** `replaceAll('"', '""')` */
  function Doubled(v: string): string {
    if v == "" then "" else (if v[0] == QUOTE then [QUOTE, QUOTE] else [v[0]]) + Doubled(v[1..])
  }

  function Quoted(v: string): string { [QUOTE] + Doubled(v) + [QUOTE] }

  function Record(row: seq<string>): string
    requires row != []
  {
    if |row| == 1 then Quoted(row[0]) else Quoted(row[0]) + "," + Record(row[1..])
  }

  /** A table with at least its header line, each line with at least one field. */
  predicate IsTable(rows: seq<seq<string>>) {
    rows != [] && forall i :: 0 <= i < |rows| ==> rows[i] != []
  }

  function Export(rows: seq<seq<string>>): string
    requires IsTable(rows)
  {
    if |rows| == 1 then Record(rows[0]) else Record(rows[0]) + CRLF + Export(rows[1..])
  }

  // ---------- the grammar ----------

  predicate IsPlain(c: char) { c != QUOTE && c != ',' && c != '\r' && c != '\n' }

  /** *(TEXTDATA / COMMA / CR / LF / 2DQUOTE): any other character stands for itself, two quotes for one. */
  predicate DerivesContent(text: string, value: string) {
    if text == "" then value == ""
    else if text[0] != QUOTE then value != "" && value[0] == text[0] && DerivesContent(text[1..], value[1..])
    else |text| >= 2 && text[1] == QUOTE && value != "" && value[0] == QUOTE && DerivesContent(text[2..], value[1..])
  }

  /** escaped = DQUOTE *(TEXTDATA / COMMA / CR / LF / 2DQUOTE) DQUOTE */
  predicate DerivesEscaped(text: string, value: string) {
    |text| >= 2 && text[0] == QUOTE && text[|text| - 1] == QUOTE && DerivesContent(text[1..|text| - 1], value)
  }

  /** non-escaped = *TEXTDATA */
  predicate DerivesPlain(text: string, value: string) {
    text == value && forall i :: 0 <= i < |text| ==> IsPlain(text[i])
  }

  /** field = escaped / non-escaped */
  predicate DerivesField(text: string, value: string) { DerivesEscaped(text, value) || DerivesPlain(text, value) }

  /** record = field *(COMMA field) */
  ghost predicate DerivesRecord(text: string, row: seq<string>)
    decreases |row|
  {
    if |row| == 0 then false
    else if |row| == 1 then DerivesField(text, row[0])
    else exists i ::
        0 <= i < |text| && CommaAt(text, i) && DerivesField(text[..i], row[0]) && DerivesRecord(text[i + 1..], row[1..])
  }

  predicate CommaAt(text: string, i: nat) { i < |text| && text[i] == ',' }

  predicate BreakAt(text: string, i: nat) { i + 2 <= |text| && text[i..i + 2] == CRLF }

  /** file = record *(CRLF record) [CRLF] */
  ghost predicate DerivesFile(text: string, rows: seq<seq<string>>)
    decreases |rows|
  {
    if |rows| == 0 then false
    else if |rows| == 1 then
      || DerivesRecord(text, rows[0])
      || (|text| >= 2 && BreakAt(text, |text| - 2) && DerivesRecord(text[..|text| - 2], rows[0]))
    else exists i ::
        0 <= i < |text| && BreakAt(text, i) && DerivesRecord(text[..i], rows[0]) &&
        DerivesFile(text[i + 2..], rows[1..])
  }

  // ---------- the export is derivable ----------

  /** Doubling the quotes is what the grammar undoes, and the only thing it undoes. */
  lemma {:induction false} ContentIff(text: string, value: string)
    ensures DerivesContent(text, value) <==> text == Doubled(value)
    decreases |text| + |value|
  {
    if value != "" && text != "" {
      var d := Doubled(value[1..]);
      if value[0] == QUOTE {
        if |text| >= 2 {
          ContentIff(text[2..], value[1..]);
          assert text == [text[0], text[1]] + text[2..] && ([QUOTE, QUOTE] + d)[2..] == d;
        }
      } else {
        ContentIff(text[1..], value[1..]);
        assert text == [text[0]] + text[1..] && ([value[0]] + d)[1..] == d;
      }
    }
  }

  lemma EscapedIff(text: string, value: string)
    ensures DerivesEscaped(text, value) <==> text == Quoted(value)
  {
    if |text| >= 2 {
      ContentIff(text[1..|text| - 1], value);
      assert text == [text[0]] + text[1..|text| - 1] + [text[|text| - 1]];
    }
    assert Quoted(value)[1..|Quoted(value)| - 1] == Doubled(value);
  }

  lemma {:induction false} RecordDerives(row: seq<string>)
    requires row != []
    ensures DerivesRecord(Record(row), row)
    decreases |row|
  {
    EscapedIff(Quoted(row[0]), row[0]);
    if |row| > 1 {
      var text, i := Record(row), |Quoted(row[0])|;
      RecordDerives(row[1..]);
      assert text[..i] == Quoted(row[0]) && text[i + 1..] == Record(row[1..]) && CommaAt(text, i);
    }
  }

  lemma {:induction false} ExportDerives(rows: seq<seq<string>>)
    requires IsTable(rows)
    ensures DerivesFile(Export(rows), rows)
    decreases |rows|
  {
    RecordDerives(rows[0]);
    if |rows| > 1 {
      var text, i := Export(rows), |Record(rows[0])|;
      ExportDerives(rows[1..]);
      assert text[..i] == Record(rows[0]) && text[i + 2..] == Export(rows[1..]) && BreakAt(text, i);
    }
  }

  // ---------- and nothing else is ----------

  predicate NoQuote(s: string) { s == "" || s[0] != QUOTE }

  /** Doubled content, its closing quote and what comes after. */
  function Tail(v: string, x: string): string {
    if v == "" then [QUOTE] + x
    else if v[0] == QUOTE then [QUOTE] + ([QUOTE] + Tail(v[1..], x))
    else [v[0]] + Tail(v[1..], x)
  }

  lemma {:induction false} TailIs(v: string, x: string)
    ensures Tail(v, x) == Doubled(v) + [QUOTE] + x
    decreases |v|
  {
    if v != "" {
      TailIs(v[1..], x);
    }
  }

  lemma SameHead(a: char, s: string, b: char, t: string)
    requires [a] + s == [b] + t
    ensures a == b && s == t
  {
    assert ([a] + s)[0] == a && ([a] + s)[1..] == s;
    assert ([b] + t)[0] == b && ([b] + t)[1..] == t;
  }

  /** A closing quote and a doubled quote cannot be taken for each other. */
  lemma CloseOrDouble(x: string, w: string, y: string)
    requires NoQuote(x) && w != ""
    ensures Tail("", x) != Tail(w, y)
  {
    if Tail("", x) == Tail(w, y) {
      SameHead(QUOTE, x, w[0], if w[0] == QUOTE then [QUOTE] + Tail(w[1..], y) else Tail(w[1..], y));
    }
  }

  /** The end of doubled content is recognised: a quote that is not followed by another. */
  lemma {:induction false} ContentEnds(v: string, x: string, w: string, y: string)
    requires Tail(v, x) == Tail(w, y) && NoQuote(x) && NoQuote(y)
    ensures v == w && x == y
    decreases |v|
  {
    if v == "" && w == "" {
      SameHead(QUOTE, x, QUOTE, y);
    } else if v == "" {
      CloseOrDouble(x, w, y);
    } else if w == "" {
      CloseOrDouble(y, v, x);
    } else {
      var restV := if v[0] == QUOTE then [QUOTE] + Tail(v[1..], x) else Tail(v[1..], x);
      var restW := if w[0] == QUOTE then [QUOTE] + Tail(w[1..], y) else Tail(w[1..], y);
      SameHead(v[0], restV, w[0], restW);
      if v[0] == QUOTE {
        SameHead(QUOTE, Tail(v[1..], x), QUOTE, Tail(w[1..], y));
      }
      ContentEnds(v[1..], x, w[1..], y);
      assert v == [v[0]] + v[1..] && w == [w[0]] + w[1..];
    }
  }

  lemma QuotedEnds(v: string, x: string, w: string, y: string)
    requires Quoted(v) + x == Quoted(w) + y && NoQuote(x) && NoQuote(y)
    ensures v == w && x == y
  {
    TailIs(v, x);
    TailIs(w, y);
    assert Quoted(v) + x == [QUOTE] + Tail(v, x) && Quoted(w) + y == [QUOTE] + Tail(w, y);
    SameHead(QUOTE, Tail(v, x), QUOTE, Tail(w, y));
    ContentEnds(v, x, w, y);
  }

  lemma StartsQuoted(field: string, rest: string, value: string)
    requires DerivesField(field, value) && NoQuote(rest) && |field + rest| > 0 && (field + rest)[0] == QUOTE
    ensures field == Quoted(value)
  {
    EscapedIff(field, value);
  }

  /** Nothing, or the start of a line break. */
  predicate LineEnd(s: string) { s == "" || s[0] == '\r' }

  /** What follows the first field of a printed record that `x` follows. */
  function AfterFirst(row: seq<string>, x: string): string
    requires row != []
  {
    if |row| == 1 then x else "," + (Record(row[1..]) + x)
  }

  lemma FirstField(row: seq<string>, x: string, value: string, y: string, field: string)
    requires row != [] && LineEnd(x) && NoQuote(y) && DerivesField(field, value)
    requires Record(row) + x == field + y
    ensures value == row[0] && y == AfterFirst(row, x)
  {
    assert Record(row) + x == Quoted(row[0]) + AfterFirst(row, x);
    assert (Record(row) + x)[0] == QUOTE;
    StartsQuoted(field, y, value);
    QuotedEnds(row[0], AfterFirst(row, x), value, y);
  }

  /** The second field on: the comma the grammar found is the comma that was printed. */
  lemma NextField(row: seq<string>, x: string, text: string, i: nat, value: string, y: string)
    requires row != [] && Record(row) + x == text + y && LineEnd(x)
    requires CommaAt(text, i) && DerivesField(text[..i], value)
    ensures value == row[0] && |row| > 1 && Record(row[1..]) + x == text[i + 1..] + y
  {
    hide Record, DerivesField;
    var rest := text[i + 1..] + y;
    assert text + y == text[..i] + ([','] + rest);
    FirstField(row, x, value, [','] + rest, text[..i]);
    assert |row| > 1 by { assert ([','] + rest)[0] == ','; }
    SameHead(',', rest, ',', Record(row[1..]) + x);
  }

  lemma SplitRecord(text: string, row: seq<string>) returns (i: nat)
    requires |row| > 1 && DerivesRecord(text, row)
    ensures CommaAt(text, i) && DerivesField(text[..i], row[0]) && DerivesRecord(text[i + 1..], row[1..])
  {
    i :| 0 <= i < |text| && CommaAt(text, i) && DerivesField(text[..i], row[0]) &&
        DerivesRecord(text[i + 1..], row[1..]);
  }

  /** Where a printed record starts, the grammar can read no other record. */
  lemma {:induction false} RecordIsUnique(row: seq<string>, x: string, text: string, other: seq<string>, y: string)
    requires row != [] && Record(row) + x == text + y
    requires LineEnd(x) && LineEnd(y) && DerivesRecord(text, other)
    ensures other == row && x == y
    decreases |row|
  {
    hide DerivesField, Record;
    if |other| == 1 {
      FirstField(row, x, other[0], y, text);
    } else {
      var i := SplitRecord(text, other);
      NextField(row, x, text, i, other[0], y);
      RecordIsUnique(row[1..], x, text[i + 1..], other[1..], y);
      assert row == [row[0]] + row[1..] && other == [other[0]] + other[1..];
    }
  }

  function AfterRecord(rows: seq<seq<string>>): string
    requires IsTable(rows)
  {
    if |rows| == 1 then "" else CRLF + Export(rows[1..])
  }

  lemma SingleRecord(rows: seq<seq<string>>, other: seq<seq<string>>)
    requires IsTable(rows) && |other| == 1 && DerivesFile(Export(rows), other)
    ensures other == rows
  {
    var text := Export(rows);
    assert text == Record(rows[0]) + AfterRecord(rows);
    if DerivesRecord(text, other[0]) {
      assert text == text + "";
      RecordIsUnique(rows[0], AfterRecord(rows), text, other[0], "");
    } else {
      assert text == text[..|text| - 2] + CRLF;
      RecordIsUnique(rows[0], AfterRecord(rows), text[..|text| - 2], other[0], CRLF);
    }
  }

  lemma SomeRecord(text: string, rows: seq<seq<string>>)
    requires DerivesFile(text, rows)
    ensures rows != []
  {
  }

  lemma SplitFile(text: string, rows: seq<seq<string>>) returns (i: nat)
    requires |rows| > 1 && DerivesFile(text, rows)
    ensures BreakAt(text, i) && DerivesRecord(text[..i], rows[0]) && DerivesFile(text[i + 2..], rows[1..])
  {
    i :| 0 <= i < |text| && BreakAt(text, i) && DerivesRecord(text[..i], rows[0]) &&
        DerivesFile(text[i + 2..], rows[1..]);
  }

  /** The line break the grammar found after the first record is the one that was printed. */
  lemma NextRecord(rows: seq<seq<string>>, i: nat, row: seq<string>)
    requires IsTable(rows) && BreakAt(Export(rows), i) && DerivesRecord(Export(rows)[..i], row)
    ensures row == rows[0] && |rows| > 1 && Export(rows)[i + 2..] == Export(rows[1..])
  {
    hide DerivesRecord, Record;
    var text, after := Export(rows), AfterRecord(rows);
    var found := CRLF + text[i + 2..];
    assert text == Record(rows[0]) + after;
    assert text == text[..i] + found;
    RecordIsUnique(rows[0], after, text[..i], row, found);
    assert found[2..] == text[i + 2..];
    assert |rows| > 1 ==> after[2..] == Export(rows[1..]);
  }

  /** The only table the grammar reads from the exported text is the table that was printed,
      whatever quotes, commas and line breaks its fields contain. */
  lemma {:induction false} ParsesBackOnlyToItself(rows: seq<seq<string>>, other: seq<seq<string>>)
    requires IsTable(rows)
    ensures DerivesFile(Export(rows), other) <==> other == rows
    decreases |rows|
  {
    hide DerivesFile, DerivesRecord, Export, BreakAt;
    ExportDerives(rows);
    if DerivesFile(Export(rows), other) {
      SomeRecord(Export(rows), other);
      if |other| == 1 {
        SingleRecord(rows, other);
      } else {
        var i := SplitFile(Export(rows), other);
        NextRecord(rows, i, other[0]);
        ParsesBackOnlyToItself(rows[1..], other[1..]);
        assert rows == [rows[0]] + rows[1..] && other == [other[0]] + other[1..];
      }
    }
  }
}
