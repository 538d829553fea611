/** The message record every ingestion path produces, the JSON values and
    dates the parsers read, and what they take from the JavaScript runtime.
    backend/src/lib/ingestion.ts and frontend/netlify/lib/ingestion.ts hold
    the same code; the modules `Messages`, `Hashing`, `Jsonl`, `Csv`,
    `ChatLog`, `Ingestion` and `AuthorFilter` model both. */
module Messages {
  import opened Wrappers
  import opened Strings

  /** A `Date` object: its time value in milliseconds since the epoch, or an
      Invalid Date, whose time value is NaN. */
  datatype Instant = Valid(ms: int) | Invalid

  /** `ParsedMessage`. */
  datatype Message = Message(text: string, author: Option<string>, timestamp: Option<Instant>)

  /** A value `JSON.parse` can produce. */
  datatype Json =
    | JNull
    | JBool(b: bool)
    | JNum(n: real)
    | JStr(s: string)
    | JArr(items: seq<Json>)
    | JObj(fields: map<string, Json>)

  /** The three capture groups of a chat-log line pattern: timestamp or name,
      name or timestamp, and the message body. */
  datatype Groups = Groups(first: string, second: string, body: string)

  /** What the parsers take from the JavaScript runtime:
      `parse` is `JSON.parse` (None where it throws), `stringify` is
      `JSON.stringify`, `toText` is `String(v)`, `toDate` is `new Date(v)`,
      and `stamped(p, line)` is `line.match(PATTERNS[p])` for the three
      timestamped patterns p = 0, 1, 2. */
  datatype Host = Host(
    parse: string -> Option<Json>,
    stringify: Json -> string,
    toText: Json -> string,
    toDate: Json -> Instant,
    stamped: (nat, string) -> Option<Groups>)

  /** Every timestamped pattern ends in `(.+)$`: its body group is a
      non-empty suffix of the line. */
  ghost predicate BodiesAreSuffixes(h: Host) {
    forall p: nat, line: string :: h.stamped(p, line).Some? ==>
      var body := h.stamped(p, line).value.body;
      body != [] && |body| <= |line| && line[|line| - |body|..] == body
  }


  const TextKeys: seq<string> := ["text", "message", "content", "body", "msg"]
  const AuthorKeys: seq<string> := ["author", "sender", "from", "name", "who"]
  const TimeKeys: seq<string> := ["timestamp", "ts", "time", "date", "created_at", "createdAt"]

  function ToSeq<T>(o: Option<T>): (r: seq<T>)
    ensures |r| <= 1
  {
    match o
    case Some(v) => [v]
    case None => []
  }

  predicate AllTextsTrimmed(ms: seq<Message>) {
    forall i :: 0 <= i < |ms| ==> ms[i].text != [] && IsTrimmed(ms[i].text)
  }

  lemma AllTextsTrimmedStep(ms: seq<Message>, rec: Option<Message>)
    requires AllTextsTrimmed(ms)
    requires rec.Some? ==> rec.value.text != [] && IsTrimmed(rec.value.text)
    ensures AllTextsTrimmed(ms + ToSeq(rec))
  {
  }

  /** `raw.split('\n').map(l => l.trim()).filter(...)`: the trimmed,
      non-empty lines. */
  function TrimmedLines(lines: seq<string>): (r: seq<string>)
    ensures |r| <= |lines|
    ensures forall i :: 0 <= i < |r| ==> r[i] != [] && IsTrimmed(r[i])
  {
    if lines == [] then []
    else
      var t := Trim(lines[|lines| - 1]);
      TrimmedLines(lines[..|lines| - 1]) + (if t == [] then [] else [t])
  }
}
