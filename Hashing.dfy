/** The deduplication key of a message (`hashMessage`). */
module Hashing {
  import opened Wrappers
  import opened Strings
  import opened Messages

  const MinuteMs: int := 60000

  /** `${rounded}`: the time value rounded down to the minute, "0" without a
      timestamp and "NaN" for an Invalid Date. */
  function RoundedTime(ts: Option<Instant>): string {
    match ts
    case None => "0"
    case Some(Invalid) => "NaN"
    case Some(Valid(ms)) => IntToString(ms / MinuteMs * MinuteMs)
  }

  /** The canonical string that `hashMessage` digests. */
  function HashKey(text: string, author: Option<string>, ts: Option<Instant>): string {
    Trim(text) + "::" + author.GetOr("") + "::" + RoundedTime(ts)
  }

  /** `hashMessage`: the first 32 hex digits of the SHA-256 digest of the
      canonical key; the digest is a parameter. */
  function HashMessage(sha256Hex: string -> string, text: string, author: Option<string>,
                       ts: Option<Instant>): (r: string)
    requires forall s :: |sha256Hex(s)| == 64
    ensures |r| == 32
    ensures StartsWith(sha256Hex(HashKey(text, author, ts)), r)
  {
    sha256Hex(HashKey(text, author, ts))[..32]
  }

  /** Whitespace around the text does not change the hash. */
  lemma HashIgnoresSurroundingSpace(sha256Hex: string -> string, t1: string, t2: string,
                                    author: Option<string>, ts: Option<Instant>)
    requires forall s :: |sha256Hex(s)| == 64
    requires Trim(t1) == Trim(t2)
    ensures HashMessage(sha256Hex, t1, author, ts) == HashMessage(sha256Hex, t2, author, ts)
  {
  }

  /** Timestamps in the same minute give the same hash. */
  lemma HashSameMinute(sha256Hex: string -> string, text: string, author: Option<string>,
                       ms1: int, ms2: int)
    requires forall s :: |sha256Hex(s)| == 64
    requires ms1 / MinuteMs == ms2 / MinuteMs
    ensures HashMessage(sha256Hex, text, author, Some(Valid(ms1)))
         == HashMessage(sha256Hex, text, author, Some(Valid(ms2)))
  {
  }

  /** A missing author and an empty author give the same key; so do a missing
      timestamp and one in the first minute of the epoch. */
  lemma HashKeyDefaults(text: string, ms: int)
    requires 0 <= ms < MinuteMs
    ensures HashKey(text, None, None) == HashKey(text, Some(""), None)
    ensures HashKey(text, None, None) == HashKey(text, None, Some(Valid(ms)))
  {
    assert ms / MinuteMs * MinuteMs == 0;
    assert NatToString(0) == "0";
  }

  /** Non-negative timestamps in different minutes give different keys, so
      they can be stored as distinct messages. */
  lemma HashKeySeparatesMinutes(text: string, author: Option<string>, ms1: nat, ms2: nat)
    requires ms1 / MinuteMs != ms2 / MinuteMs
    ensures HashKey(text, author, Some(Valid(ms1))) != HashKey(text, author, Some(Valid(ms2)))
  {
    var prefix := Trim(text) + "::" + author.GetOr("") + "::";
    var r1, r2 := MinuteStart(ms1), MinuteStart(ms2);
    MinuteStartsDiffer(ms1, ms2);
    assert HashKey(text, author, Some(Valid(ms1))) == prefix + NatToString(r1);
    assert HashKey(text, author, Some(Valid(ms2))) == prefix + NatToString(r2);
    if prefix + NatToString(r1) == prefix + NatToString(r2) {
      SuffixOfSame(prefix, NatToString(r1), NatToString(r2));
      NatToStringInjective(r1, r2);
    }
  }

  /** The start of the minute a non-negative time value falls in. */
  function MinuteStart(ms: nat): (r: nat)
    ensures RoundedTime(Some(Valid(ms))) == NatToString(r)
  {
    ms / MinuteMs * MinuteMs
  }

  lemma MinuteStartsDiffer(ms1: nat, ms2: nat)
    requires ms1 / MinuteMs != ms2 / MinuteMs
    ensures MinuteStart(ms1) != MinuteStart(ms2)
  {
  }

  lemma SuffixOfSame(p: string, a: string, b: string)
    requires p + a == p + b
    ensures a == b
  {
    assert a == (p + a)[|p|..];
    assert b == (p + b)[|p|..];
  }
}
