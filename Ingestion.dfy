/** Format detection (`parseRawInput`): JSON-lines, then a JSON array,
    then CSV, then the plain-text chat log. */
module Ingestion {
  import opened Wrappers
  import opened Strings
  import opened Messages
  import opened Jsonl
  import opened Csv
  import opened ChatLog

  /** The JSON-array path: each element is re-serialised on a line of its
      own and the result parsed as JSON-lines. */
  function ArrayMessages(h: Host, t: string): seq<Message> {
    if !StartsWith(t, "[") then []
    else
      match h.parse(t)
      case Some(JArr(items)) =>
        JsonlMessages(h, SplitOn(Join(Stringified(h, items), "\n"), '\n'))
      case _ => []
  }

  function Stringified(h: Host, items: seq<Json>): (r: seq<string>)
    ensures |r| == |items|
    ensures forall i :: 0 <= i < |items| ==> r[i] == h.stringify(items[i])
  {
    if items == [] then [] else [h.stringify(items[0])] + Stringified(h, items[1..])
  }

  /** What `parseRawInput` returns: the first of JSON-lines, JSON array and
      CSV that yields at least one record, and otherwise the plain-text
      parse, all on the trimmed input. */
  function RawInputMessages(h: Host, raw: string): seq<Message> {
    var t := Trim(raw);
    if t == [] then [] else FromJsonl(h, t)
  }

  /** JSON-lines is tried only when the input starts with `{` and spans
      more than one line. */
  function JsonlAttempt(h: Host, t: string): seq<Message> {
    if StartsWith(t, "{") && '\n' in t then JsonlMessages(h, SplitOn(t, '\n')) else []
  }

  /** CSV is tried only when the first line holds a comma. */
  function CsvAttempt(h: Host, t: string): seq<Message> {
    if ',' in SplitOn(t, '\n')[0] then CsvMessages(h, t) else []
  }

  function FromJsonl(h: Host, t: string): seq<Message> {
    var jsonl := JsonlAttempt(h, t);
    if jsonl != [] then jsonl else FromArray(h, t)
  }

  function FromArray(h: Host, t: string): seq<Message> {
    var arr := ArrayMessages(h, t);
    if arr != [] then arr else FromCsv(h, t)
  }

  function FromCsv(h: Host, t: string): seq<Message> {
    var csv := CsvAttempt(h, t);
    if csv != [] then csv else PlainMessages(h, t)
  }

  /** `parseRawInput`. */
  method ParseRawInput(h: Host, raw: string) returns (msgs: seq<Message>)
    ensures msgs == RawInputMessages(h, raw)
  {
    var trimmed := Trim(raw);
    if trimmed == [] {
      return [];
    }
    if StartsWith(trimmed, "{") && '\n' in trimmed {
      msgs := ParseJsonl(h, trimmed);
      if msgs != [] {
        assert msgs == JsonlAttempt(h, trimmed);
        return;
      }
    }
    assert JsonlAttempt(h, trimmed) == [];
    if StartsWith(trimmed, "[") {
      var arr := h.parse(trimmed);
      if arr.Some? && arr.value.JArr? {
        var asJsonl := Join(Stringified(h, arr.value.items), "\n");
        msgs := ParseJsonl(h, asJsonl);
        if msgs != [] {
          assert msgs == ArrayMessages(h, trimmed);
          return;
        }
      }
    }
    assert ArrayMessages(h, trimmed) == [];
    var firstLine := SplitOn(trimmed, '\n')[0];
    if ',' in firstLine {
      msgs := ParseCsv(h, trimmed);
      if msgs != [] {
        assert msgs == CsvAttempt(h, trimmed);
        return;
      }
    }
    assert CsvAttempt(h, trimmed) == [];
    msgs := ParsePlainText(h, trimmed);
  }

  /** Blank input yields no records. */
  lemma RawInputBlank(h: Host, raw: string)
    requires IsBlank(raw)
    ensures RawInputMessages(h, raw) == []
  {
    TrimIsCore(raw);
  }

  /** `JSON.stringify` without indentation never emits a raw newline. */
  ghost predicate StringifyIsOneLine(h: Host) {
    forall v :: '\n' !in h.stringify(v)
  }

  /** A JSON array yields exactly the records its elements would yield as
      lines of JSON-lines input, element by element. An empty array joins to
      `""`, whose single blank line yields nothing, like no lines at all. */
  lemma ArrayOneRecordPerElement(h: Host, items: seq<Json>)
    requires StringifyIsOneLine(h)
    ensures JsonlMessages(h, SplitOn(Join(Stringified(h, items), "\n"), '\n'))
         == JsonlMessages(h, Stringified(h, items))
  {
    if items == [] {
      assert SplitOn("", '\n') == [""];
      assert JsonlRecord(h, "") == None;
      assert [""][..0] == [];
    } else {
      SplitJoin(Stringified(h, items), '\n');
    }
  }

  /** Every record `parseRawInput` returns has a non-empty text without
      surrounding whitespace. */
  lemma RawInputTextsTrimmed(h: Host, raw: string)
    requires BodiesAreSuffixes(h)
    ensures AllTextsTrimmed(RawInputMessages(h, raw))
  {
    var t := Trim(raw);
    if t != [] {
      JsonlAttemptTrimmed(h, t);
      ArrayTextsTrimmed(h, t);
      CsvAttemptTrimmed(h, t);
      PlainTextsTrimmed(h, t);
    }
  }

  lemma JsonlAttemptTrimmed(h: Host, t: string)
    ensures AllTextsTrimmed(JsonlAttempt(h, t))
  {
    JsonlTextsTrimmed(h, SplitOn(t, '\n'));
  }

  lemma CsvAttemptTrimmed(h: Host, t: string)
    ensures AllTextsTrimmed(CsvAttempt(h, t))
  {
    CsvRecordsWellFormed(h, t);
  }

  lemma PlainTextsTrimmed(h: Host, t: string)
    requires BodiesAreSuffixes(h)
    ensures AllTextsTrimmed(PlainMessages(h, t))
  {
    PlainRecordsWellFormed(h, TrimmedLines(SplitOn(t, '\n')));
  }

  lemma ArrayTextsTrimmed(h: Host, t: string)
    ensures AllTextsTrimmed(ArrayMessages(h, t))
  {
    if StartsWith(t, "[") {
      match h.parse(t)
      case Some(JArr(items)) =>
        JsonlTextsTrimmed(h, SplitOn(Join(Stringified(h, items), "\n"), '\n'));
      case _ =>
    }
  }
}
