/** `computeFingerprint`: integer statistics over a user's messages, the
    most frequent words, and curated example messages. */
module VoiceFingerprint {
  import opened Wrappers
  import opened Strings
  import opened Sorting
  import opened Sequences
  import opened Tally

  /** `STOP_WORDS`. */
  const StopWords: set<string> := {
    "a", "an", "the", "and", "or", "but", "in", "on", "at", "to", "for", "of", "with",
    "is", "are", "was", "were", "be", "been", "have", "has", "had", "do", "does",
    "did", "will", "would", "could", "should", "may", "might", "i", "me", "my", "we",
    "you", "your", "he", "she", "it", "they", "this", "that", "what", "how", "when",
    "where", "why", "if", "its", "us", "can", "just", "so", "no", "not", "yeah",
    "like", "get", "got", "ok", "okay", "lol", "im", "dont", "cant", "thats"
  }

  /** The optional qualitative traits produced by a separate analysis. */
  datatype Quirks = Quirks(
    humorLevel: Option<string>,
    bluntness: Option<string>,
    commonTopics: Option<seq<string>>,
    slang: Option<seq<string>>,
    catchphrases: Option<seq<string>>)

  datatype Fingerprint = Fingerprint(
    totalMessages: nat,
    avgWords: nat,
    medianWords: nat,
    shortMsgPct: nat,
    lowercaseStartPct: nat,
    periodEndPct: nat,
    questionPct: nat,
    ellipsisPct: nat,
    emojiPct: nat,
    exclamationPct: nat,
    topWords: seq<string>,
    styleAnchors: seq<string>,
    reactionExamples: seq<string>,
    humorStyle: string,
    topicAffinity: seq<string>,
    bluntness: string,
    slang: seq<string>,
    catchphrases: seq<string>)

  /** What an input without any non-blank message yields. */
  const EmptyFingerprint: Fingerprint :=
    Fingerprint(0, 0, 0, 0, 0, 0, 0, 0, 0, 0, [], [], [], "", [], "", [], [])

  predicate NotBlank(m: string) { Trim(m) != [] }

  predicate NotEmpty(w: string) { w != [] }

  /** The number of words of a message: `m.trim().split(/\s+/)` with empty
      pieces dropped. */
  function WordCount(m: string): nat {
    |Filter(SplitWs(Trim(m)), NotEmpty)|
  }

  /** The same without dropping empty pieces, as the example filters count. */
  function PieceCount(m: string): nat {
    |SplitWs(Trim(m))|
  }

  /** Dropping empty pieces changes nothing on a non-blank message, so the
      two counts agree. */
  lemma PieceCountIsWordCount(m: string)
    requires NotBlank(m)
    ensures PieceCount(m) == WordCount(m) >= 1
  {
    var t := Trim(m);
    SplitWsTrimmedNonEmpty(t);
    FilterAll(SplitWs(t), NotEmpty);
  }

  function WordCounts(ms: seq<string>): (r: seq<nat>)
    ensures |r| == |ms|
    ensures forall i :: 0 <= i < |ms| ==> r[i] == WordCount(ms[i])
  {
    if ms == [] then [] else [WordCount(ms[0])] + WordCounts(ms[1..])
  }

  /** `Math.round(a / b)` on exact rationals: the nearest integer, halves
      rounding up. */
  function RoundDiv(a: nat, b: nat): (r: nat)
    requires b > 0
    ensures 2 * r * b <= 2 * a + b < 2 * r * b + 2 * b
  {
    (2 * a + b) / (2 * b)
  }

  /** `Math.round((count / n) * 100)`. */
  function Percent(count: nat, n: nat): (r: nat)
    requires n > 0
    ensures count <= n ==> r <= 100
    ensures count == n ==> r == 100
    ensures count == 0 ==> r == 0
  {
    var r := RoundDiv(100 * count, n);
    PercentBounds(count, n, r);
    r
  }

  lemma MulLe(a: nat, b: nat, n: nat)
    requires a <= b
    ensures a * n <= b * n
  {
  }

  lemma PercentBounds(count: nat, n: nat, r: nat)
    requires n > 0
    requires 2 * (r * n) <= 200 * count + n < 2 * (r * n) + 2 * n
    ensures count <= n ==> r <= 100
    ensures count == n ==> r == 100
    ensures count == 0 ==> r == 0
  {
    if r > 100 {
      MulLe(101, r, n);
    }
    if r < 100 {
      MulLe(r, 99, n);
    }
    if r >= 1 {
      MulLe(1, r, n);
    }
  }

  /** `/^[a-z]/` on the trimmed message. */
  predicate LowercaseStart(m: string) {
    var t := Trim(m);
    t != [] && IsAsciiLowerLetter(t[0])
  }

  /** The pattern `/c\s*$/`: `c` followed only by whitespace up to the end. */
  predicate EndsWithMark(t: string, c: char) {
    exists i :: 0 <= i < |t| && t[i] == c && IsBlank(t[i + 1..])
  }

  /** On a trimmed message the pattern holds iff the last character is `c`. */
  lemma EndsWithMarkTrimmed(t: string, c: char)
    requires IsTrimmed(t) && !IsSpace(c)
    ensures EndsWithMark(t, c) <==> t != [] && t[|t| - 1] == c
  {
    if EndsWithMark(t, c) {
      var i :| 0 <= i < |t| && t[i] == c && IsBlank(t[i + 1..]);
    }
    if t != [] && t[|t| - 1] == c {
      assert IsBlank(t[|t|..]);
    }
  }

  predicate PeriodEnd(m: string) { EndsWithMark(Trim(m), '.') }

  predicate QuestionEnd(m: string) { EndsWithMark(Trim(m), '?') }

  /** `/\.{3}|…/`. */
  predicate HasEllipsis(m: string) { Contains(m, "...") || '\U{2026}' in m }

  predicate HasExclamation(m: string) { '!' in m }

  predicate IsShortCount(c: nat) { c <= 5 }

  /** `Math.round(c / n * 100)` where `c` counts the messages with `p`. */
  function Share(msgs: seq<string>, p: string -> bool): (r: nat)
    requires msgs != []
    ensures r <= 100
  {
    Percent(|Filter(msgs, p)|, |msgs|)
  }

  /** The ascending numeric sort `(a, b) => a - b`, as the descending sort on
      the negated value. */
  function Ascending(c: nat): real { -(c as real) }

  /** `sortedCounts[Math.floor(sortedCounts.length / 2)]`: for an even count
      this is the upper of the two middle elements. */
  function Median(counts: seq<nat>): nat
    requires counts != []
  {
    SortDesc(counts, Ascending)[|counts| / 2]
  }

  /** The median is one of the counts. */
  lemma MedianIsACount(counts: seq<nat>)
    requires counts != []
    ensures Median(counts) in multiset(counts)
  {
    var t := SortDesc(counts, Ascending);
    SortDescPermutation(counts, Ascending);
    assert t[|counts| / 2] in multiset(t);
  }

  /** The median is no greater than every count sorted after it and no
      smaller than every count sorted before it. */
  lemma MedianSplits(counts: seq<nat>)
    requires counts != []
    ensures var t := SortDesc(counts, Ascending);
            && (forall i :: 0 <= i <= |t| / 2 ==> t[i] <= Median(counts))
            && (forall i :: |t| / 2 <= i < |t| ==> t[i] >= Median(counts))
  {
    SortDescSorted(counts, Ascending);
    AscendingOrder(SortDesc(counts, Ascending));
  }

  /** Sorting by `Ascending` puts the counts in non-decreasing order. */
  lemma AscendingOrder(t: seq<nat>)
    requires SortedDesc(t, Ascending)
    ensures forall i, j :: 0 <= i < j < |t| ==> t[i] <= t[j]
  {
    forall i, j | 0 <= i < j < |t| ensures t[i] <= t[j] {
      assert Ascending(t[i]) >= Ascending(t[j]);
    }
  }

  /** For two messages of 1 and 3 words the median is 3, not 2. */
  lemma MedianTakesUpperMiddle()
    ensures Median([1, 3]) == 3
  {
    var c: seq<nat> := [1, 3];
    var t := SortDesc(c, Ascending);
    SortDescPermutation(c, Ascending);
    SortDescSorted(c, Ascending);
    assert multiset(t) == multiset{1, 3};
    assert t[0] in multiset(t) && t[1] in multiset(t);
    assert Ascending(t[0]) >= Ascending(t[1]);
  }

  /** `msg.toLowerCase().replace(/[^a-z0-9\s]/g, ' ')`. */
  function ScrubChar(c: char): char {
    if IsAsciiLowerLetter(c) || IsDigit(c) || IsSpace(c) then c else ' '
  }

  function Scrub(s: string): (r: string)
    ensures |r| == |s|
    ensures forall i :: 0 <= i < |s| ==> r[i] == ScrubChar(s[i])
  {
    if s == [] then [] else [ScrubChar(s[0])] + Scrub(s[1..])
  }

  /** A word counts when it is longer than one character and not a stop word. */
  predicate KeepWord(w: string) { |w| > 1 && w !in StopWords }

  function Pieces(m: string): seq<string> {
    SplitWs(Scrub(ScrubFold(m)))
  }

  function WordTokens(m: string): seq<string> {
    Filter(Pieces(m), KeepWord)
  }

  /** Every counted word of the messages, in the order the loops visit them. */
  function AllTokens(ms: seq<string>): (r: seq<string>)
    ensures forall w :: w in r ==> KeepWord(w)
  {
    if ms == [] then [] else AllTokens(ms[..|ms| - 1]) + WordTokens(ms[|ms| - 1])
  }

  /** The counted words hold only lower-case ASCII letters and digits. */
  lemma TokenCharacters(ms: seq<string>, w: string)
    requires w in AllTokens(ms)
    ensures forall i :: 0 <= i < |w| ==> IsAsciiLowerLetter(w[i]) || IsDigit(w[i])
  {
    if ms != [] {
      var m := ms[|ms| - 1];
      if w in AllTokens(ms[..|ms| - 1]) {
        TokenCharacters(ms[..|ms| - 1], w);
      } else {
        assert w in Pieces(m);
        var k :| 0 <= k < |Pieces(m)| && Pieces(m)[k] == w;
        SplitWsChars(Scrub(ScrubFold(m)), k, c => IsAsciiLowerLetter(c) || IsDigit(c));
      }
    }
  }

  /** `[...wordFreq.entries()]`: each word with its count, in the `Map`'s
      insertion order. */
  function EntriesOf(order: seq<string>, freq: map<string, nat>): (r: seq<(string, nat)>)
    requires forall k :: k in order ==> k in freq
    ensures |r| == |order|
    ensures forall i :: 0 <= i < |r| ==> r[i] == (order[i], freq[order[i]])
  {
    if order == [] then [] else [(order[0], freq[order[0]])] + EntriesOf(order[1..], freq)
  }

  function Frequency(e: (string, nat)): real { e.1 as real }

  function Words(es: seq<(string, nat)>): (r: seq<string>)
    ensures |r| == |es|
    ensures forall i :: 0 <= i < |es| ==> r[i] == es[i].0
  {
    if es == [] then [] else [es[0].0] + Words(es[1..])
  }

  /** The entries sorted by falling count, ties kept in insertion order. */
  function RankedEntries(tokens: seq<string>): seq<(string, nat)> {
    SortDesc(EntriesOf(Order(tokens), Counts(tokens)), Frequency)
  }

  /** `topWords`: the 25 most frequent counted words. */
  function TopWords(msgs: seq<string>): seq<string> {
    Words(Take(RankedEntries(AllTokens(msgs)), 25))
  }

  /** `styleAnchors`' test: 3 to 15 words, one line, no link at the start,
      no code fence. */
  predicate IsAnchor(m: string) {
    3 <= PieceCount(m) <= 15 && '\n' !in m && !StartsWith(m, "http") && !Contains(m, "```")
  }

  /** `reactionExamples`' test: 1 to 3 words and no link at the start. */
  predicate IsReaction(m: string) {
    1 <= PieceCount(m) <= 3 && !StartsWith(m, "http")
  }

  /** `avgWords`: the rounded mean word count. */
  function AvgWords(msgs: seq<string>): nat
    requires msgs != []
  {
    RoundDiv(Sum(WordCounts(msgs)), |msgs|)
  }

  /** `medianWords`. */
  function MedianWords(msgs: seq<string>): nat
    requires msgs != []
  {
    Median(WordCounts(msgs))
  }

  /** `shortMsgPct`: the share of messages of at most five words. */
  function ShortMsgPct(msgs: seq<string>): (r: nat)
    requires msgs != []
    ensures r <= 100
  {
    Percent(|Filter(WordCounts(msgs), IsShortCount)|, |msgs|)
  }

  /** `styleAnchors`: the first twelve anchor-like messages. */
  function StyleAnchors(msgs: seq<string>): seq<string> {
    Take(Filter(msgs, IsAnchor), 12)
  }

  /** `reactionExamples`: the first eight reaction-like messages. */
  function ReactionExamples(msgs: seq<string>): seq<string> {
    Take(Filter(msgs, IsReaction), 8)
  }

  /** The fingerprint `computeFingerprint` returns. Emoji detection
      (`\p{Emoji_Presentation}`) is the parameter `hasEmoji`. */
  function FingerprintOf(messages: seq<string>, quirks: Option<Quirks>, hasEmoji: string -> bool): Fingerprint {
    var msgs := Filter(messages, NotBlank);
    if msgs == [] then EmptyFingerprint
    else
      Fingerprint(
        |msgs|,
        AvgWords(msgs),
        MedianWords(msgs),
        ShortMsgPct(msgs),
        Share(msgs, LowercaseStart),
        Share(msgs, PeriodEnd),
        Share(msgs, QuestionEnd),
        Share(msgs, HasEllipsis),
        Share(msgs, hasEmoji),
        Share(msgs, HasExclamation),
        TopWords(msgs),
        StyleAnchors(msgs),
        ReactionExamples(msgs),
        if quirks.Some? then quirks.value.humorLevel.GetOr("") else "",
        if quirks.Some? then quirks.value.commonTopics.GetOr([]) else [],
        if quirks.Some? then quirks.value.bluntness.GetOr("") else "",
        if quirks.Some? then quirks.value.slang.GetOr([]) else [],
        if quirks.Some? then quirks.value.catchphrases.GetOr([]) else [])
  }

  /** `computeFingerprint`. */
  method ComputeFingerprint(messages: seq<string>, quirks: Option<Quirks>, hasEmoji: string -> bool)
    returns (fp: Fingerprint)
    ensures fp == FingerprintOf(messages, quirks, hasEmoji)
  {
    var msgs := Filter(messages, NotBlank);
    if |msgs| == 0 {
      return EmptyFingerprint;
    }
    var freq, order := CountWords(msgs);
    var ranked := SortDesc(EntriesOf(order, freq), Frequency);
    var topWords := Words(Take(ranked, 25));
    fp := Fingerprint(
      |msgs|,
      AvgWords(msgs),
      MedianWords(msgs),
      ShortMsgPct(msgs),
      Share(msgs, LowercaseStart),
      Share(msgs, PeriodEnd),
      Share(msgs, QuestionEnd),
      Share(msgs, HasEllipsis),
      Share(msgs, hasEmoji),
      Share(msgs, HasExclamation),
      topWords,
      StyleAnchors(msgs),
      ReactionExamples(msgs),
      if quirks.Some? then quirks.value.humorLevel.GetOr("") else "",
      if quirks.Some? then quirks.value.commonTopics.GetOr([]) else [],
      if quirks.Some? then quirks.value.bluntness.GetOr("") else "",
      if quirks.Some? then quirks.value.slang.GetOr([]) else [],
      if quirks.Some? then quirks.value.catchphrases.GetOr([]) else []);
  }

  /** The `wordFreq` loops: the count of every counted word, and the words in
      order of first occurrence. */
  method CountWords(msgs: seq<string>) returns (freq: map<string, nat>, order: seq<string>)
    ensures freq == Counts(AllTokens(msgs))
    ensures order == Order(AllTokens(msgs))
  {
    freq := map[];
    order := [];
    assert msgs[..0] == [];
    for i := 0 to |msgs|
      invariant freq == Counts(AllTokens(msgs[..i])) && order == Order(AllTokens(msgs[..i]))
    {
      freq, order := CountMessageWords(Pieces(msgs[i]), freq, order, AllTokens(msgs[..i]));
      assert msgs[..i + 1][..i] == msgs[..i];
    }
    assert msgs[..|msgs|] == msgs;
  }

  lemma KeptStep(words: seq<string>, j: nat)
    requires j < |words|
    ensures Filter(words[..j + 1], KeepWord)
            == Filter(words[..j], KeepWord) + (if KeepWord(words[j]) then [words[j]] else [])
  {
    assert words[..j + 1] == words[..j] + [words[j]];
    FilterAppend(words[..j], [words[j]], KeepWord);
    assert [words[j]][1..] == [];
  }

  /** The inner loop over the words of one message. */
  method CountMessageWords(words: seq<string>, freq0: map<string, nat>, order0: seq<string>, ghost seen0: seq<string>)
    returns (freq: map<string, nat>, order: seq<string>)
    requires freq0 == Counts(seen0) && order0 == Order(seen0)
    ensures freq == Counts(seen0 + Filter(words, KeepWord))
    ensures order == Order(seen0 + Filter(words, KeepWord))
  {
    freq, order := freq0, order0;
    ghost var seen := seen0;
    assert words[..0] == [];
    for j := 0 to |words|
      invariant seen == seen0 + Filter(words[..j], KeepWord)
      invariant freq == Counts(seen) && order == Order(seen)
    {
      var w := words[j];
      KeptStep(words, j);
      if KeepWord(w) {
        TallyStep(seen, w, freq, order);
        AppendAssoc(seen0, Filter(words[..j], KeepWord), [w]);
        order := if w in freq then order else order + [w];
        freq := freq[w := (if w in freq then freq[w] else 0) + 1];
        seen := seen + [w];
      }
    }
    assert words[..|words|] == words;
  }
}
