/** JSON-lines input (`parseJsonl`). */
module Jsonl {
  import opened Wrappers
  import opened Strings
  import opened Messages

  /** `keys.find(k => obj[k] !== undefined)`: the first synonym present. */
  function FirstKey(keys: seq<string>, fields: map<string, Json>): (r: Option<string>)
    ensures r.Some? ==> r.value in fields
    ensures r.Some? ==> exists i :: 0 <= i < |keys| && keys[i] == r.value
                                  && forall j :: 0 <= j < i ==> keys[j] !in fields
    ensures r.None? ==> forall i :: 0 <= i < |keys| ==> keys[i] !in fields
  {
    if keys == [] then None
    else if keys[0] in fields then Some(keys[0])
    else
      var r := FirstKey(keys[1..], fields);
      if r.Some? then FirstKeyShift(keys, fields, r.value); r else r
  }

  lemma FirstKeyShift(keys: seq<string>, fields: map<string, Json>, v: string)
    requires keys != [] && keys[0] !in fields
    requires exists i :: 0 <= i < |keys[1..]| && keys[1..][i] == v
                         && forall j :: 0 <= j < i ==> keys[1..][j] !in fields
    ensures exists i :: 0 <= i < |keys| && keys[i] == v
                        && forall j :: 0 <= j < i ==> keys[j] !in fields
  {
    var i :| 0 <= i < |keys[1..]| && keys[1..][i] == v
             && forall j :: 0 <= j < i ==> keys[1..][j] !in fields;
    assert keys[i + 1] == v;
    assert forall j :: 0 <= j < i + 1 ==> keys[j] !in fields by {
      forall j | 0 < j < i + 1 ensures keys[j] !in fields {
        assert keys[j] == keys[1..][j - 1];
      }
    }
  }

  /** The record one line of JSON-lines input yields: none for a blank line,
      a line `JSON.parse` rejects or that is not an object, an object without
      a text key, or a text that is blank. */
  function JsonlRecord(h: Host, line: string): (r: Option<Message>)
    ensures r.Some? ==> r.value.text != [] && IsTrimmed(r.value.text)
  {
    var t := Trim(line);
    if t == [] then None
    else
      match h.parse(t)
      case Some(JObj(fields)) =>
        (match FirstKey(TextKeys, fields)
         case None => None
         case Some(k) =>
           var text := Trim(h.toText(fields[k]));
           if text == [] then None
           else
             var author := match FirstKey(AuthorKeys, fields)
                           case Some(a) => Some(h.toText(fields[a]))
                           case None => None;
             var ts := match FirstKey(TimeKeys, fields)
                       case Some(d) => Some(h.toDate(fields[d]))
                       case None => None;
             Some(Message(text, author, ts)))
      case _ => None
  }



  /** The records of a sequence of lines, in line order. */
  function JsonlMessages(h: Host, lines: seq<string>): (r: seq<Message>)
    ensures |r| <= |lines|
  {
    if lines == [] then []
    else JsonlMessages(h, lines[..|lines| - 1]) + ToSeq(JsonlRecord(h, lines[|lines| - 1]))
  }

  /** `parseJsonl`. */
  method ParseJsonl(h: Host, raw: string) returns (msgs: seq<Message>)
    ensures msgs == JsonlMessages(h, SplitOn(raw, '\n'))
  {
    var lines := SplitOn(raw, '\n');
    msgs := [];
    var i := 0;
    while i < |lines|
      invariant 0 <= i <= |lines|
      invariant msgs == JsonlMessages(h, lines[..i])
    {
      var rec := JsonlRecord(h, lines[i]);
      assert lines[..i + 1][..i] == lines[..i];
      var next := lines[..i + 1];
      assert next[..|next| - 1] == lines[..i] && next[|next| - 1] == lines[i];
      assert JsonlMessages(h, next) == msgs + ToSeq(rec);
      if rec.Some? {
        msgs := msgs + [rec.value];
      }
      i := i + 1;
    }
    assert lines[..i] == lines;
  }

  function NonBlankCount(lines: seq<string>): (n: nat)
    ensures n <= |lines|
  {
    if lines == [] then 0
    else NonBlankCount(lines[..|lines| - 1]) + (if Trim(lines[|lines| - 1]) == [] then 0 else 1)
  }

  /** JSON-lines parsing emits at most one record per non-blank line. */
  lemma {:induction false} JsonlAtMostOnePerLine(h: Host, lines: seq<string>)
    ensures |JsonlMessages(h, lines)| <= NonBlankCount(lines)
  {
    if lines != [] {
      JsonlAtMostOnePerLine(h, lines[..|lines| - 1]);
    }
  }

  /** When every non-blank line holds an object with a recognised, non-blank
      text, there is exactly one record per non-blank line. */
  lemma {:induction false} JsonlOnePerLine(h: Host, lines: seq<string>)
    requires forall i :: 0 <= i < |lines| && Trim(lines[i]) != [] ==> JsonlRecord(h, lines[i]).Some?
    ensures |JsonlMessages(h, lines)| == NonBlankCount(lines)
  {
    if lines != [] {
      JsonlOnePerLine(h, lines[..|lines| - 1]);
    }
  }

  /** Records keep the order of their lines: the records of two runs of lines
      are those of the first run followed by those of the second. */
  lemma {:induction false} JsonlKeepsOrder(h: Host, a: seq<string>, b: seq<string>)
    ensures JsonlMessages(h, a + b) == JsonlMessages(h, a) + JsonlMessages(h, b)
    decreases |b|
  {
    if b != [] {
      var b' := b[..|b| - 1];
      assert (a + b)[..|a + b| - 1] == a + b';
      JsonlKeepsOrder(h, a, b');
    } else {
      assert a + b == a;
    }
  }

  /** Every JSON-lines record has a non-empty text without surrounding
      whitespace. */
  lemma {:induction false} JsonlTextsTrimmed(h: Host, lines: seq<string>)
    ensures AllTextsTrimmed(JsonlMessages(h, lines))
  {
    if lines != [] {
      JsonlTextsTrimmed(h, lines[..|lines| - 1]);
      AllTextsTrimmedStep(JsonlMessages(h, lines[..|lines| - 1]), JsonlRecord(h, lines[|lines| - 1]));
    }
  }
}
