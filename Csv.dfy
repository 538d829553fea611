/** CSV input with a header line (`splitCsvLine`, `parseCsv`). */
module Csv {
  import opened Wrappers
  import opened Strings
  import opened Messages

  /** `splitCsvLine` from a given quote state: a `"` toggles the state and is
      dropped, a `,` outside quotes ends a field, anything else is kept. */
  function SplitCsvFrom(s: string, inQuote: bool): (r: seq<string>)
    ensures |r| >= 1
    decreases |s|
  {
    if s == [] then [""]
    else if s[0] == '"' then SplitCsvFrom(s[1..], !inQuote)
    else if s[0] == ',' && !inQuote then [""] + SplitCsvFrom(s[1..], inQuote)
    else
      var r := SplitCsvFrom(s[1..], inQuote);
      [[s[0]] + r[0]] + r[1..]
  }

  function SplitCsv(line: string): seq<string> {
    SplitCsvFrom(line, false)
  }

  function PrependToFirst(cur: string, fields: seq<string>): seq<string>
    requires |fields| >= 1
  {
    [cur + fields[0]] + fields[1..]
  }

  /** `splitCsvLine`. */
  method SplitCsvLine(line: string) returns (result: seq<string>)
    ensures result == SplitCsv(line)
  {
    result := [];
    var cur := "";
    var inQuote := false;
    var i := 0;
    assert PrependToFirst("", SplitCsv(line)) == SplitCsv(line) by {
      assert "" + SplitCsv(line)[0] == SplitCsv(line)[0];
    }
    assert line[0..] == line;
    while i < |line|
      invariant 0 <= i <= |line|
      invariant result + PrependToFirst(cur, SplitCsvFrom(line[i..], inQuote)) == SplitCsv(line)
    {
      var ch := line[i];
      var rest := SplitCsvFrom(line[i + 1..], if ch == '"' then !inQuote else inQuote);
      assert line[i..][0] == ch && line[i..][1..] == line[i + 1..];
      if ch == '"' {
        assert SplitCsvFrom(line[i..], inQuote) == rest;
        inQuote := !inQuote;
      } else if ch == ',' && !inQuote {
        assert SplitCsvFrom(line[i..], inQuote) == [""] + rest;
        assert PrependToFirst(cur, [""] + rest) == [cur] + rest by {
          assert cur + "" == cur;
        }
        assert PrependToFirst("", rest) == rest by {
          assert "" + rest[0] == rest[0];
        }
        result := result + [cur];
        cur := "";
      } else {
        assert SplitCsvFrom(line[i..], inQuote) == [[ch] + rest[0]] + rest[1..];
        assert cur + ([ch] + rest[0]) == (cur + [ch]) + rest[0];
        cur := cur + [ch];
      }
      i := i + 1;
    }
    assert SplitCsvFrom(line[i..], inQuote) == [""];
    assert cur + "" == cur;
    result := result + [cur];
  }

  /** The number of commas outside quotes, from a given quote state. */
  function CommasOutside(s: string, inQuote: bool): nat
    decreases |s|
  {
    if s == [] then 0
    else if s[0] == '"' then CommasOutside(s[1..], !inQuote)
    else (if s[0] == ',' && !inQuote then 1 else 0) + CommasOutside(s[1..], inQuote)
  }

  function RemoveChar(s: string, c: char): (r: string)
    ensures c !in r
  {
    if s == [] then [] else (if s[0] == c then [] else [s[0]]) + RemoveChar(s[1..], c)
  }

  /** A CSV line splits into one more field than it has commas outside
      quotes. */
  lemma {:induction false} SplitCsvFieldCount(s: string, inQuote: bool)
    ensures |SplitCsvFrom(s, inQuote)| == CommasOutside(s, inQuote) + 1
    decreases |s|
  {
    if s != [] {
      if s[0] == '"' { SplitCsvFieldCount(s[1..], !inQuote); }
      else { SplitCsvFieldCount(s[1..], inQuote); }
    }
  }

  /** No field contains a double quote. */
  lemma {:induction false} SplitCsvFieldsHaveNoQuotes(s: string, inQuote: bool)
    ensures forall i :: 0 <= i < |SplitCsvFrom(s, inQuote)| ==> '"' !in SplitCsvFrom(s, inQuote)[i]
    decreases |s|
  {
    if s != [] {
      var q := if s[0] == '"' then !inQuote else inQuote;
      SplitCsvFieldsHaveNoQuotes(s[1..], q);
      var r := SplitCsvFrom(s[1..], q);
      if s[0] != '"' && !(s[0] == ',' && !inQuote) {
        var r' := [[s[0]] + r[0]] + r[1..];
        assert SplitCsvFrom(s, inQuote) == r';
        forall i | 0 <= i < |r'| ensures '"' !in r'[i] {
          if i > 0 { assert r'[i] == r[i]; }
        }
      }
    }
  }

  /** The fields joined with commas give the line with every double quote
      removed: a doubled `""` inside a quoted field is dropped rather than
      unescaped. */
  lemma {:induction false} SplitCsvJoinDropsQuotes(s: string, inQuote: bool)
    ensures Join(SplitCsvFrom(s, inQuote), ",") == RemoveChar(s, '"')
    decreases |s|
  {
    if s != [] {
      var q := if s[0] == '"' then !inQuote else inQuote;
      SplitCsvJoinDropsQuotes(s[1..], q);
      var r := SplitCsvFrom(s[1..], q);
      assert RemoveChar(s, '"') == (if s[0] == '"' then [] else [s[0]]) + RemoveChar(s[1..], '"');
      if s[0] == '"' {
      } else if s[0] == ',' && !inQuote {
        JoinAfterEmptyField(r, ",");
      } else {
        assert SplitCsvFrom(s, inQuote) == PrependToFirst([s[0]], r);
        JoinPrependToFirst([s[0]], r, ",");
      }
    }
  }

  lemma JoinAfterEmptyField(r: seq<string>, sep: string)
    requires |r| >= 1
    ensures Join([""] + r, sep) == sep + Join(r, sep)
  {
    var r' := [""] + r;
    assert r'[1..] == r;
    assert Join(r', sep) == "" + sep + Join(r, sep);
    assert "" + sep == sep;
  }

  lemma JoinPrependToFirst(c: string, r: seq<string>, sep: string)
    requires |r| >= 1
    ensures Join(PrependToFirst(c, r), sep) == c + Join(r, sep)
  {
    var r' := PrependToFirst(c, r);
    if |r| > 1 {
      assert r'[1..] == r[1..];
      assert Join(r', sep) == (c + r[0]) + sep + Join(r[1..], sep);
      assert (c + r[0]) + sep + Join(r[1..], sep) == c + (r[0] + sep + Join(r[1..], sep));
    }
  }

  /** Characters other than `"` (and, outside quotes, `,`) simply extend the
      current field. */
  lemma {:induction false} SplitCsvPlainRun(f: string, t: string, inQuote: bool)
    requires '"' !in f && (inQuote || ',' !in f)
    ensures SplitCsvFrom(f + t, inQuote) == PrependToFirst(f, SplitCsvFrom(t, inQuote))
    decreases |f|
  {
    if f == [] {
      assert f + t == t;
      assert "" + SplitCsvFrom(t, inQuote)[0] == SplitCsvFrom(t, inQuote)[0];
    } else {
      assert (f + t)[0] == f[0] && (f + t)[1..] == f[1..] + t;
      SplitCsvPlainRun(f[1..], t, inQuote);
      var r := SplitCsvFrom(t, inQuote);
      assert [f[0]] + (f[1..] + r[0]) == f + r[0];
    }
  }

  /** A quoted field keeps the commas inside it. */
  lemma QuotedFieldKeepsCommas(f: string, rest: string)
    requires '"' !in f
    ensures SplitCsv("\"" + f + "\"" + rest) == PrependToFirst(f, SplitCsv(rest))
  {
    var s := "\"" + f + "\"" + rest;
    assert s[0] == '"' && s[1..] == f + ("\"" + rest);
    SplitCsvPlainRun(f, "\"" + rest, true);
    var t := "\"" + rest;
    assert t[0] == '"' && t[1..] == rest;
  }

  /** Without double quotes, the split is `line.split(',')`. */
  lemma {:induction false} SplitCsvWithoutQuotes(s: string, inQuote: bool)
    requires '"' !in s && !inQuote
    ensures SplitCsvFrom(s, inQuote) == SplitOn(s, ',')
    decreases |s|
  {
    if s != [] {
      SplitCsvWithoutQuotes(s[1..], inQuote);
      SplitOnFirst(s, ',');
    }
  }

  /** `"a""b"` is one field `ab`, not the RFC 4180 unescaping `a"b`. */
  lemma DoubledQuoteIsDropped()
    ensures SplitCsv("\"a\"\"b\"") == ["ab"]
  {
    assert SplitCsvFrom("\"", true) == [""] by {
      assert "\""[1..] == "";
    }
    assert SplitCsvFrom("b\"", true) == ["b"] by {
      assert "b\""[0] == 'b' && "b\""[1..] == "\"";
      assert ['b'] + "" == "b";
    }
    assert SplitCsvFrom("\"b\"", false) == ["b"] by {
      assert "\"b\""[1..] == "b\"";
    }
    assert SplitCsvFrom("\"\"b\"", true) == ["b"] by {
      assert "\"\"b\""[1..] == "\"b\"";
    }
    assert SplitCsvFrom("a\"\"b\"", true) == ["ab"] by {
      assert "a\"\"b\""[0] == 'a' && "a\"\"b\""[1..] == "\"\"b\"";
      assert ['a'] + "b" == "ab";
    }
    assert "\"a\"\"b\""[1..] == "a\"\"b\"";
  }

  predicate IsQuote(c: char) { c == '"' || c == '\'' }

  /** `.replace(/^["']|["']$/g, '')`: one leading and one trailing quote
      character are removed. */
  function StripQuoteEnds(s: string): (r: string)
    ensures |r| <= |s|
  {
    var s1 := if s != [] && IsQuote(s[0]) then s[1..] else s;
    if s1 != [] && IsQuote(s1[|s1| - 1]) then s1[..|s1| - 1] else s1
  }

  function RemoveQuoteChars(s: string): string {
    RemoveChar(RemoveChar(s, '"'), '\'')
  }

  /** A header cell: quotes removed, trimmed, lower-cased. */
  function HeaderName(cell: string): string {
    Lower(Trim(RemoveQuoteChars(cell)))
  }

  function HeaderNames(cells: seq<string>): (r: seq<string>)
    ensures |r| == |cells|
    ensures forall i :: 0 <= i < |cells| ==> r[i] == HeaderName(cells[i])
  {
    seq(|cells|, i requires 0 <= i < |cells| => HeaderName(cells[i]))
  }

  /** `headers.findIndex(h => keys.includes(h))`. */
  function FindIndex(headers: seq<string>, keys: seq<string>): (r: int)
    ensures -1 <= r < |headers|
    ensures r >= 0 ==> headers[r] in keys && forall j :: 0 <= j < r ==> headers[j] !in keys
    ensures r == -1 ==> forall j :: 0 <= j < |headers| ==> headers[j] !in keys
  {
    if headers == [] then -1
    else if headers[0] in keys then 0
    else
      var r := FindIndex(headers[1..], keys);
      if r == -1 then -1 else r + 1
  }

  /** A lower-cased header never equals the mixed-case synonym `createdAt`,
      so that column is never chosen as the timestamp. */
  lemma CreatedAtNeverMatches(cell: string)
    ensures HeaderName(cell) != "createdAt"
  {
    assert "createdAt"[7] == 'A';
  }

  /** `cols[i] ?? ''`. */
  function Cell(cols: seq<string>, i: int): string {
    if 0 <= i < |cols| then cols[i] else ""
  }

  function CellText(cols: seq<string>, i: int): string {
    Trim(StripQuoteEnds(Cell(cols, i)))
  }

  /** The record one CSV data row yields, given its fields. */
  function CsvRecord(h: Host, cols: seq<string>, textIdx: int, authorIdx: int, tsIdx: int): (r: Option<Message>)
    ensures r.Some? ==> r.value.text != [] && IsTrimmed(r.value.text)
    ensures r.Some? ==> r.value.author.None? || r.value.author.value != []
  {
    var text := CellText(cols, textIdx);
    if text == [] then None
    else
      var author := if authorIdx >= 0 && CellText(cols, authorIdx) != [] then Some(CellText(cols, authorIdx)) else None;
      var ts := if tsIdx >= 0 then Some(h.toDate(JStr(Cell(cols, tsIdx)))) else None;
      Some(Message(text, author, ts))
  }

  function CsvRows(h: Host, rows: seq<string>, textIdx: int, authorIdx: int, tsIdx: int): (r: seq<Message>)
    ensures |r| <= |rows|
  {
    if rows == [] then []
    else CsvRows(h, rows[..|rows| - 1], textIdx, authorIdx, tsIdx)
         + ToSeq(CsvRecord(h, SplitCsv(rows[|rows| - 1]), textIdx, authorIdx, tsIdx))
  }


  /** What `parseCsv` returns. */
  function CsvMessages(h: Host, raw: string): seq<Message>
  {
    var lines := TrimmedLines(SplitOn(raw, '\n'));
    if |lines| < 2 then []
    else
      var headers := HeaderNames(SplitOn(lines[0], ','));
      var textIdx := FindIndex(headers, TextKeys);
      if textIdx == -1 then []
      else CsvRows(h, lines[1..], textIdx, FindIndex(headers, AuthorKeys), FindIndex(headers, TimeKeys))
  }

  /** `parseCsv`. */
  method ParseCsv(h: Host, raw: string) returns (msgs: seq<Message>)
    ensures msgs == CsvMessages(h, raw)
  {
    var lines := TrimmedLines(SplitOn(raw, '\n'));
    if |lines| < 2 {
      return [];
    }
    var headers := HeaderNames(SplitOn(lines[0], ','));
    var textIdx := FindIndex(headers, TextKeys);
    if textIdx == -1 {
      return [];
    }
    var authorIdx := FindIndex(headers, AuthorKeys);
    var tsIdx := FindIndex(headers, TimeKeys);
    msgs := ParseCsvRows(h, lines[1..], textIdx, authorIdx, tsIdx);
  }

  /** The row loop of `parseCsv`, given the column of each field (-1 when
      the header has no such column). */
  lemma CsvRowsStep(h: Host, rows: seq<string>, i: nat, textIdx: int, authorIdx: int, tsIdx: int)
    requires i < |rows|
    ensures CsvRows(h, rows[..i + 1], textIdx, authorIdx, tsIdx)
         == CsvRows(h, rows[..i], textIdx, authorIdx, tsIdx)
            + ToSeq(CsvRecord(h, SplitCsv(rows[i]), textIdx, authorIdx, tsIdx))
  {
    var next := rows[..i + 1];
    assert next[..|next| - 1] == rows[..i] && next[|next| - 1] == rows[i];
  }

  /** One data row of `parseCsv`: the text cell, then the optional author
      and timestamp cells. */
  method RowRecord(h: Host, row: string, textIdx: int, authorIdx: int, tsIdx: int)
    returns (rec: Option<Message>)
    ensures rec == CsvRecord(h, SplitCsv(row), textIdx, authorIdx, tsIdx)
  {
    var cols := SplitCsvLine(row);
    var text := CellText(cols, textIdx);
    if text == [] {
      return None;
    }
    var author := if authorIdx >= 0 && CellText(cols, authorIdx) != [] then Some(CellText(cols, authorIdx)) else None;
    var ts := if tsIdx >= 0 then Some(h.toDate(JStr(Cell(cols, tsIdx)))) else None;
    rec := Some(Message(text, author, ts));
  }

  method ParseCsvRows(h: Host, rows: seq<string>, textIdx: int, authorIdx: int, tsIdx: int)
    returns (msgs: seq<Message>)
    ensures msgs == CsvRows(h, rows, textIdx, authorIdx, tsIdx)
  {
    msgs := [];
    var i := 0;
    assert rows[..0] == [];
    while i < |rows|
      invariant 0 <= i <= |rows|
      invariant msgs == CsvRows(h, rows[..i], textIdx, authorIdx, tsIdx)
    {
      var rec := RowRecord(h, rows[i], textIdx, authorIdx, tsIdx);
      CsvRowsStep(h, rows, i, textIdx, authorIdx, tsIdx);
      if rec.Some? {
        msgs := msgs + [rec.value];
      }
      i := i + 1;
    }
    assert rows[..i] == rows;
  }

  /** CSV yields nothing without a header and a data line, or when no header
      names the text column. */
  lemma CsvNeedsHeaderAndText(h: Host, raw: string)
    ensures |TrimmedLines(SplitOn(raw, '\n'))| < 2 ==> CsvMessages(h, raw) == []
    ensures var lines := TrimmedLines(SplitOn(raw, '\n'));
            |lines| >= 2 && (forall c :: c in SplitOn(lines[0], ',') ==> HeaderName(c) !in TextKeys)
            ==> CsvMessages(h, raw) == []
  {
    var lines := TrimmedLines(SplitOn(raw, '\n'));
    if |lines| >= 2 {
      var cells := SplitOn(lines[0], ',');
      var headers := HeaderNames(cells);
      var textIdx := FindIndex(headers, TextKeys);
      if textIdx != -1 {
        assert headers[textIdx] == HeaderName(cells[textIdx]);
      }
    }
  }

  predicate AuthorsNonEmpty(ms: seq<Message>) {
    forall i :: 0 <= i < |ms| ==> ms[i].author.None? || ms[i].author.value != []
  }

  /** Every CSV record has a non-empty trimmed text, and an empty author cell
      leaves the author absent rather than empty. */
  lemma CsvRecordsWellFormed(h: Host, raw: string)
    ensures AllTextsTrimmed(CsvMessages(h, raw))
    ensures AuthorsNonEmpty(CsvMessages(h, raw))
  {
    var lines := TrimmedLines(SplitOn(raw, '\n'));
    if |lines| >= 2 {
      var headers := HeaderNames(SplitOn(lines[0], ','));
      var textIdx := FindIndex(headers, TextKeys);
      if textIdx != -1 {
        CsvRowsWellFormed(h, lines[1..], textIdx, FindIndex(headers, AuthorKeys), FindIndex(headers, TimeKeys));
      }
    }
  }

  lemma {:induction false} CsvRowsWellFormed(h: Host, rows: seq<string>, textIdx: int, authorIdx: int, tsIdx: int)
    ensures AllTextsTrimmed(CsvRows(h, rows, textIdx, authorIdx, tsIdx))
    ensures AuthorsNonEmpty(CsvRows(h, rows, textIdx, authorIdx, tsIdx))
  {
    if rows != [] {
      var init := rows[..|rows| - 1];
      var prev := CsvRows(h, init, textIdx, authorIdx, tsIdx);
      CsvRowsWellFormed(h, init, textIdx, authorIdx, tsIdx);
      var rec := CsvRecord(h, SplitCsv(rows[|rows| - 1]), textIdx, authorIdx, tsIdx);
      assert CsvRows(h, rows, textIdx, authorIdx, tsIdx) == prev + ToSeq(rec);
      RecordsStep(prev, rec);
    }
  }

  lemma RecordsStep(ms: seq<Message>, rec: Option<Message>)
    requires AllTextsTrimmed(ms) && AuthorsNonEmpty(ms)
    requires rec.Some? ==> rec.value.text != [] && IsTrimmed(rec.value.text)
    requires rec.Some? ==> rec.value.author.None? || rec.value.author.value != []
    ensures AllTextsTrimmed(ms + ToSeq(rec)) && AuthorsNonEmpty(ms + ToSeq(rec))
  {
    AllTextsTrimmedStep(ms, rec);
  }

  /** Two quoted fields separated by a comma split into exactly those two
      fields, whatever commas they contain. */
  lemma TwoQuotedFields(a: string, b: string)
    requires '"' !in a && '"' !in b
    ensures SplitCsv("\"" + a + "\",\"" + b + "\"") == [a, b]
  {
    var last := "\"" + b + "\"" + "";
    QuotedFieldKeepsCommas(b, "");
    assert SplitCsv("") == [""];
    assert SplitCsv(last) == [b] by {
      assert b + "" == b;
    }
    var rest := "," + last;
    assert rest[0] == ',' && rest[1..] == last;
    assert SplitCsv(rest) == [""] + [b];
    var line := "\"" + a + "\"" + rest;
    QuotedFieldKeepsCommas(a, rest);
    assert a + "" == a;
    assert SplitCsv(line) == [a, b];
    assert "\"" + a + "\",\"" + b + "\"" == line;
  }
}
