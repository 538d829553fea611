/** Plain-text chat logs (`PATTERNS`, `parsePlainText`). */
module ChatLog {
  import opened Wrappers
  import opened Strings
  import opened Messages

  /** The characters `.` does not match. */
  predicate IsLineTerminator(c: char) {
    c == '\n' || c == '\r' || c == '\U{2028}' || c == '\U{2029}'
  }

  predicate NoLineTerminator(s: string) {
    forall i :: 0 <= i < |s| ==> !IsLineTerminator(s[i])
  }

  predicate NameChars(s: string) {
    forall i :: 0 <= i < |s| ==> IsAsciiLetter(s[i]) || IsSpace(s[i])
  }

  /** `line.match(/^([A-Za-z][A-Za-z\s]{0,25}):\s+(.+)$/)`: the name before
      the first colon and the body after the whitespace that follows it.
      The whitespace run is greedy and gives back one character only when
      nothing else is left for the body. */
  function MatchName(line: string): (r: Option<(string, string)>)
    ensures r.Some? ==> var (name, body) := r.value;
              1 <= |name| <= 26 && IsAsciiLetter(name[0]) && NameChars(name)
              && StartsWith(line, name + ":")
              && body != [] && |body| < |line| - |name| && line[|line| - |body|..] == body
              && NoLineTerminator(body)
  {
    var k := IndexOf(line, ':');
    if k < 1 || k > 26 || !IsAsciiLetter(line[0]) || !NameChars(line[..k]) then None
    else
      var rest := line[k + 1..];
      var w := SpaceRunEnd(rest, 0);
      assert line[..k] + ":" == line[..k + 1];
      if w == 0 then None
      else if w < |rest| then
        (if NoLineTerminator(rest[w..]) then Some((line[..k], rest[w..])) else None)
      else if w >= 2 && !IsLineTerminator(rest[w - 1]) then Some((line[..k], rest[w - 1..]))
      else None
  }

  /** Conversely, a name of at most 26 letters and spaces that starts with
      a letter, a colon, a space and a one-line body that does not start
      with whitespace form a name line with exactly that name and body. */
  lemma MatchNameAccepts(name: string, body: string)
    requires 1 <= |name| <= 26 && IsAsciiLetter(name[0]) && NameChars(name)
    requires body != [] && !IsSpace(body[0]) && NoLineTerminator(body)
    ensures MatchName(name + ": " + body) == Some((name, body))
  {
    var line := name + ": " + body;
    var k := |name|;
    assert line[..k] == name && line[k] == ':';
    forall i | 0 <= i < |name| ensures name[i] != ':' {
      assert IsAsciiLetter(name[i]) || IsSpace(name[i]);
    }
    assert IndexOf(line, ':') == k;
    var rest := line[k + 1..];
    assert rest == " " + body;
    assert rest[1..] == body;
    assert SpaceRunEnd(rest, 1) == 1;
    assert SpaceRunEnd(rest, 0) == 1;
  }

  /** A link is not a name line: no whitespace follows the colon of
      `https://`, so the line is kept as a plain message. */
  lemma MatchNameRejectsLink(line: string)
    requires line == "https://example.com"
    ensures MatchName(line) == None
  {
    assert line[5] == ':' && ':' !in line[..5];
    assert line[5 + 1..][0] == '/';
  }

  /** The first of the three timestamped patterns the line matches, trying
      them from `p` on. */
  function FirstStamped(h: Host, line: string, p: nat): (r: Option<Groups>)
    ensures r.Some? ==> exists q: nat :: p <= q < 3 && h.stamped(q, line) == r
    decreases 3 - p
  {
    if p >= 3 then None
    else if h.stamped(p, line).Some? then h.stamped(p, line)
    else FirstStamped(h, line, p + 1)
  }

  /** The record of a line a timestamped pattern matched: if the first group
      is a date it is the timestamp and the second the author, otherwise the
      first is the author and the second the timestamp, if it is a date. */
  function StampedRecord(h: Host, g: Groups): (r: Message)
    ensures r.author.Some?
  {
    var ts := h.toDate(JStr(g.first));
    if ts.Valid? then Message(Trim(g.body), Some(Trim(g.second)), Some(ts))
    else
      var ts2 := h.toDate(JStr(g.second));
      Message(Trim(g.body), Some(Trim(g.first)), if ts2.Valid? then Some(ts2) else None)
  }

  /** The record one trimmed, non-empty line of a chat log yields. */
  function PlainRecord(h: Host, line: string): (r: Option<Message>)
    ensures r.Some? && r.value.author.None? ==> r.value.text == line && |line| > 2
    ensures r.None? ==> |line| <= 2
  {
    match FirstStamped(h, line, 0)
    case Some(g) => Some(StampedRecord(h, g))
    case None =>
      match MatchName(line)
      case Some((name, body)) => Some(Message(Trim(body), Some(Trim(name)), None))
      case None => if |line| > 2 then Some(Message(line, None, None)) else None
  }

  function PlainRecords(h: Host, lines: seq<string>): (r: seq<Message>)
    ensures |r| <= |lines|
  {
    if lines == [] then []
    else PlainRecords(h, lines[..|lines| - 1]) + ToSeq(PlainRecord(h, lines[|lines| - 1]))
  }

  /** What `parsePlainText` returns. */
  function PlainMessages(h: Host, raw: string): seq<Message> {
    PlainRecords(h, TrimmedLines(SplitOn(raw, '\n')))
  }

  /** `parsePlainText`. */
  method ParsePlainText(h: Host, raw: string) returns (msgs: seq<Message>)
    ensures msgs == PlainMessages(h, raw)
  {
    var lines := TrimmedLines(SplitOn(raw, '\n'));
    msgs := ParseLines(h, lines);
  }

  /** The line loop of `parsePlainText`, over the trimmed non-blank lines. */
  method ParseLines(h: Host, lines: seq<string>) returns (msgs: seq<Message>)
    ensures msgs == PlainRecords(h, lines)
  {
    msgs := [];
    var i := 0;
    assert lines[..0] == [];
    while i < |lines|
      invariant 0 <= i <= |lines|
      invariant msgs == PlainRecords(h, lines[..i])
    {
      var rec := ParseLine(h, lines[i]);
      PlainRecordsStep(h, lines, i);
      if rec.Some? {
        msgs := msgs + [rec.value];
      }
      i := i + 1;
    }
    assert lines[..i] == lines;
  }

  lemma PlainRecordsStep(h: Host, lines: seq<string>, i: nat)
    requires i < |lines|
    ensures PlainRecords(h, lines[..i + 1]) == PlainRecords(h, lines[..i]) + ToSeq(PlainRecord(h, lines[i]))
  {
    var next := lines[..i + 1];
    assert next[..|next| - 1] == lines[..i] && next[|next| - 1] == lines[i];
  }

  /** The body of the line loop of `parsePlainText`: the timestamped
      patterns in turn, then the name pattern, then the bare line. */
  method ParseLine(h: Host, line: string) returns (rec: Option<Message>)
    ensures rec == PlainRecord(h, line)
  {
    var matched := false;
    rec := None;
    var p := 0;
    while p < 3
      invariant 0 <= p <= 3
      invariant !matched && rec == None
      invariant FirstStamped(h, line, 0) == FirstStamped(h, line, p)
    {
      var m := h.stamped(p, line);
      if m.Some? {
        var g := m.value;
        var ts := h.toDate(JStr(g.first));
        if ts.Valid? {
          rec := Some(Message(Trim(g.body), Some(Trim(g.second)), Some(ts)));
        } else {
          var ts2 := h.toDate(JStr(g.second));
          rec := Some(Message(Trim(g.body), Some(Trim(g.first)), if ts2.Valid? then Some(ts2) else None));
        }
        matched := true;
        break;
      }
      p := p + 1;
    }
    if !matched {
      var nameMsg := MatchName(line);
      if nameMsg.Some? {
        rec := Some(Message(Trim(nameMsg.value.1), Some(Trim(nameMsg.value.0)), None));
        matched := true;
      }
    }
    if !matched && |line| > 2 {
      rec := Some(Message(line, None, None));
    }
  }

  /** Every record of a chat log has a non-empty trimmed text. */
  lemma PlainRecordWellFormed(h: Host, line: string)
    requires BodiesAreSuffixes(h)
    requires line != [] && IsTrimmed(line)
    ensures PlainRecord(h, line).Some? ==>
              PlainRecord(h, line).value.text != [] && IsTrimmed(PlainRecord(h, line).value.text)
  {
    match FirstStamped(h, line, 0)
    case Some(g) =>
      var body := g.body;
      assert body != [] && line[|line| - |body|..] == body;
      assert body[|body| - 1] == line[|line| - 1];
      TrimIsCore(body);
    case None =>
      match MatchName(line)
      case Some((name, body)) =>
        assert body[|body| - 1] == line[|line| - 1];
        TrimIsCore(body);
      case None =>
  }

  lemma {:induction false} PlainRecordsWellFormed(h: Host, lines: seq<string>)
    requires BodiesAreSuffixes(h)
    requires forall i :: 0 <= i < |lines| ==> lines[i] != [] && IsTrimmed(lines[i])
    ensures AllTextsTrimmed(PlainRecords(h, lines))
  {
    if lines != [] {
      PlainRecordsWellFormed(h, lines[..|lines| - 1]);
      PlainRecordWellFormed(h, lines[|lines| - 1]);
      AllTextsTrimmedStep(PlainRecords(h, lines[..|lines| - 1]), PlainRecord(h, lines[|lines| - 1]));
    }
  }
}
