/** What `computeFingerprint` promises about its statistics, its top words
    and its curated examples. */
module FingerprintLaws {
  import opened Wrappers
  import opened Strings
  import opened Sorting
  import opened Sequences
  import opened Tally
  import opened VoiceFingerprint

  /** The fingerprint is the empty one exactly when every message is blank. */
  lemma EmptyExactlyWhenAllBlank(messages: seq<string>, quirks: Option<Quirks>, hasEmoji: string -> bool)
    ensures FingerprintOf(messages, quirks, hasEmoji) == EmptyFingerprint
            <==> forall i :: 0 <= i < |messages| ==> IsBlank(messages[i])
  {
    var msgs := Filter(messages, NotBlank);
    forall i | 0 <= i < |messages| ensures IsBlank(messages[i]) <==> !NotBlank(messages[i]) {
      TrimIsCore(messages[i]);
    }
    if msgs != [] {
      assert msgs[0] in messages;
    }
  }

  lemma {:induction false} SumBounds(xs: seq<nat>, lo: nat, hi: nat)
    requires forall i :: 0 <= i < |xs| ==> lo <= xs[i] <= hi
    ensures |xs| * lo <= Sum(xs) <= |xs| * hi
  {
    if xs != [] {
      SumBounds(xs[1..], lo, hi);
      assert |xs| * lo == lo + |xs[1..]| * lo;
      assert |xs| * hi == hi + |xs[1..]| * hi;
    }
  }

  lemma MulCancel(a: nat, b: nat, c: nat)
    requires c > 0 && a * c < b * c
    ensures a < b
  {
  }

  /** A rounded mean of values in `[lo, hi]` stays in `[lo, hi]`. */
  lemma RoundDivBounds(total: nat, n: nat, lo: nat, hi: nat)
    requires n > 0 && n * lo <= total <= n * hi
    ensures lo <= RoundDiv(total, n) <= hi
  {
    var r := RoundDiv(total, n);
    assert 2 * r * n <= 2 * total + n < 2 * r * n + 2 * n;
    assert 2 * total + n < (hi + 1) * (2 * n);
    MulCancel(r, hi + 1, 2 * n);
    assert lo * (2 * n) < (r + 1) * (2 * n);
    MulCancel(lo, r + 1, 2 * n);
  }

  /** A median of values in `[lo, hi]` is in `[lo, hi]`. */
  lemma MedianBounds(counts: seq<nat>, lo: nat, hi: nat)
    requires counts != []
    requires forall i :: 0 <= i < |counts| ==> lo <= counts[i] <= hi
    ensures lo <= Median(counts) <= hi
  {
    MedianIsACount(counts);
    var k :| 0 <= k < |counts| && counts[k] == Median(counts);
  }

  /** When every message has between `lo` and `hi` words, the average and
      the median word counts lie between them too. */
  lemma WordStatsWithinRange(msgs: seq<string>, lo: nat, hi: nat)
    requires msgs != []
    requires forall i :: 0 <= i < |msgs| ==> lo <= WordCount(msgs[i]) <= hi
    ensures lo <= AvgWords(msgs) <= hi
    ensures lo <= MedianWords(msgs) <= hi
  {
    var counts := WordCounts(msgs);
    SumBounds(counts, lo, hi);
    RoundDivBounds(Sum(counts), |msgs|, lo, hi);
    MedianBounds(counts, lo, hi);
  }

  /** When every message has at most five words the short-message share is
      100; when none does it is 0. */
  lemma ShortShareExtremes(msgs: seq<string>)
    requires msgs != []
    ensures (forall i :: 0 <= i < |msgs| ==> WordCount(msgs[i]) <= 5) ==> ShortMsgPct(msgs) == 100
    ensures (forall i :: 0 <= i < |msgs| ==> WordCount(msgs[i]) > 5) ==> ShortMsgPct(msgs) == 0
  {
    if forall i :: 0 <= i < |msgs| ==> WordCount(msgs[i]) <= 5 {
      AllShort(msgs);
    }
    if forall i :: 0 <= i < |msgs| ==> WordCount(msgs[i]) > 5 {
      NoneShort(msgs);
    }
  }

  lemma AllShort(msgs: seq<string>)
    requires msgs != []
    requires forall i :: 0 <= i < |msgs| ==> WordCount(msgs[i]) <= 5
    ensures ShortMsgPct(msgs) == 100
  {
    var counts := WordCounts(msgs);
    forall i | 0 <= i < |counts| ensures IsShortCount(counts[i]) {
      assert counts[i] == WordCount(msgs[i]);
    }
    FilterAll(counts, IsShortCount);
    assert |Filter(counts, IsShortCount)| == |msgs|;
  }

  lemma NoneShort(msgs: seq<string>)
    requires msgs != []
    requires forall i :: 0 <= i < |msgs| ==> WordCount(msgs[i]) > 5
    ensures ShortMsgPct(msgs) == 0
  {
    var counts := WordCounts(msgs);
    forall i | 0 <= i < |counts| ensures !IsShortCount(counts[i]) {
      assert counts[i] == WordCount(msgs[i]);
    }
    FilterNone(counts, IsShortCount);
    assert |Filter(counts, IsShortCount)| == 0;
  }

  /** Before sorting, each entry is a distinct counted word with its count. */
  lemma EntriesFacts(toks: seq<string>)
    ensures var es := EntriesOf(Order(toks), Counts(toks));
            Distinct(es) && forall i :: 0 <= i < |es| ==> es[i].0 in toks && es[i].1 == CountOf(toks, es[i].0)
  {
    var es := EntriesOf(Order(toks), Counts(toks));
    forall i, j | 0 <= i < j < |es| ensures es[i] != es[j] {
      assert es[i].0 == Order(toks)[i] && es[j].0 == Order(toks)[j];
    }
  }

  /** After sorting: the same entries, each a counted word with its count. */
  lemma RankedCounts(toks: seq<string>)
    ensures var ranked := RankedEntries(toks);
            && |ranked| == |Order(toks)|
            && forall i :: 0 <= i < |ranked| ==> ranked[i].0 in toks && ranked[i].1 == CountOf(toks, ranked[i].0)
  {
    var es := EntriesOf(Order(toks), Counts(toks));
    EntriesFacts(toks);
    SortDescMembers(es, Frequency);
  }

  /** After sorting, no word appears twice. */
  lemma RankedDistinct(toks: seq<string>)
    ensures var ranked := RankedEntries(toks);
            forall i, j :: 0 <= i < j < |ranked| ==> ranked[i].0 != ranked[j].0
  {
    var es := EntriesOf(Order(toks), Counts(toks));
    EntriesFacts(toks);
    RankedCounts(toks);
    SortDescDistinct(es, Frequency);
    RankedWordsDistinct(toks, RankedEntries(toks));
  }

  /** After sorting, every counted word has its entry. */
  lemma RankedCovers(toks: seq<string>)
    ensures var ranked := RankedEntries(toks);
            forall w :: w in toks ==> exists i :: 0 <= i < |ranked| && ranked[i].0 == w
  {
    var es := EntriesOf(Order(toks), Counts(toks));
    var ranked := RankedEntries(toks);
    SortDescMembers(es, Frequency);
    forall w | w in toks ensures exists i :: 0 <= i < |ranked| && ranked[i].0 == w {
      var k :| 0 <= k < |Order(toks)| && Order(toks)[k] == w;
      assert es[k] in ranked;
      var i :| 0 <= i < |ranked| && ranked[i] == es[k];
    }
  }

  /** Entries that carry the count of their word and do not repeat do not
      repeat a word either. */
  lemma RankedWordsDistinct(toks: seq<string>, ranked: seq<(string, nat)>)
    requires Distinct(ranked)
    requires forall i :: 0 <= i < |ranked| ==> ranked[i].1 == CountOf(toks, ranked[i].0)
    ensures forall i, j :: 0 <= i < j < |ranked| ==> ranked[i].0 != ranked[j].0
  {
  }

  /** `topWords` holds min(25, number of distinct counted words) distinct
      counted words. */
  lemma TopWordsCounted(msgs: seq<string>)
    ensures var toks := AllTokens(msgs);
            var top := TopWords(msgs);
            && |top| == (if |Order(toks)| < 25 then |Order(toks)| else 25)
            && (forall i :: 0 <= i < |top| ==> top[i] in toks && KeepWord(top[i]))
            && Distinct(top)
  {
    var toks := AllTokens(msgs);
    RankedCounts(toks);
    RankedDistinct(toks);
  }

  /** `topWords` is ordered by falling count. */
  lemma TopWordsByCount(msgs: seq<string>)
    ensures var toks := AllTokens(msgs);
            var top := TopWords(msgs);
            forall i, j :: 0 <= i < j < |top| ==> CountOf(toks, top[i]) >= CountOf(toks, top[j])
  {
    var toks := AllTokens(msgs);
    var ranked := RankedEntries(toks);
    var top := TopWords(msgs);
    RankedCounts(toks);
    SortDescSorted(EntriesOf(Order(toks), Counts(toks)), Frequency);
    forall i, j | 0 <= i < j < |top| ensures CountOf(toks, top[i]) >= CountOf(toks, top[j]) {
      assert top[i] == ranked[i].0 && top[j] == ranked[j].0;
      assert Frequency(ranked[i]) >= Frequency(ranked[j]);
    }
  }

  /** In a list sorted by falling count, an entry whose word is not among
      the first `n` words counts no more than any of those. */
  lemma LeftOutCountsLess(ranked: seq<(string, nat)>, n: nat)
    requires SortedDesc(ranked, Frequency)
    ensures var top := Words(Take(ranked, n));
            forall i, k :: 0 <= i < |top| && 0 <= k < |ranked| && ranked[k].0 !in top ==> ranked[k].1 <= ranked[i].1
  {
    var top := Words(Take(ranked, n));
    forall i, k | 0 <= i < |top| && 0 <= k < |ranked| && ranked[k].0 !in top ensures ranked[k].1 <= ranked[i].1 {
      assert k >= |top|;
      assert Frequency(ranked[i]) >= Frequency(ranked[k]);
    }
  }

  /** For any ranking that lists each counted word once with its count, in
      non-increasing order, no word left out of the first `n` is more
      frequent than one kept. */
  lemma LeftOutWordsLess(toks: seq<string>, ranked: seq<(string, nat)>, n: nat)
    requires SortedDesc(ranked, Frequency)
    requires forall i :: 0 <= i < |ranked| ==> ranked[i].1 == CountOf(toks, ranked[i].0)
    requires forall w :: w in toks ==> exists i :: 0 <= i < |ranked| && ranked[i].0 == w
    ensures var top := Words(Take(ranked, n));
            forall i, w :: 0 <= i < |top| && w in toks && w !in top ==> CountOf(toks, w) <= CountOf(toks, top[i])
  {
    var top := Words(Take(ranked, n));
    LeftOutCountsLess(ranked, n);
    forall i, w | 0 <= i < |top| && w in toks && w !in top ensures CountOf(toks, w) <= CountOf(toks, top[i]) {
      var k :| 0 <= k < |ranked| && ranked[k].0 == w;
      assert top[i] == ranked[i].0;
    }
  }

  /** No counted word left out of `topWords` is more frequent than a word
      in it. */
  lemma TopWordsBeatTheRest(msgs: seq<string>)
    ensures var toks := AllTokens(msgs);
            var top := TopWords(msgs);
            forall i, w :: 0 <= i < |top| && w in toks && w !in top ==> CountOf(toks, w) <= CountOf(toks, top[i])
  {
    var toks := AllTokens(msgs);
    var ranked := RankedEntries(toks);
    RankedCounts(toks);
    RankedCovers(toks);
    SortDescSorted(EntriesOf(Order(toks), Counts(toks)), Frequency);
    LeftOutWordsLess(toks, ranked, 25);
    assert TopWords(msgs) == Words(Take(ranked, 25));
  }

  /** Words with equal counts keep the order of their first use: those of
      count `c` that make the list are the first ones of that count. */
  lemma TopWordsTies(msgs: seq<string>, c: nat)
    ensures var toks := AllTokens(msgs);
            WithKey(Take(RankedEntries(toks), 25), Frequency, c as real)
            <= WithKey(EntriesOf(Order(toks), Counts(toks)), Frequency, c as real)
  {
    var toks := AllTokens(msgs);
    var ranked := RankedEntries(toks);
    SortDescStable(EntriesOf(Order(toks), Counts(toks)), Frequency, c as real);
    WithKeyPrefix(ranked, |Take(ranked, 25)|, Frequency, c as real);
  }

  /** `styleAnchors`: the first twelve messages of 3 to 15 words on one line
      that neither start with a link nor hold a code fence, in order. */
  lemma StyleAnchorsChosen(msgs: seq<string>)
    ensures var a := StyleAnchors(msgs);
            && |a| == (if |Filter(msgs, IsAnchor)| < 12 then |Filter(msgs, IsAnchor)| else 12)
            && a == Filter(msgs, IsAnchor)[..|a|]
            && (|Filter(msgs, IsAnchor)| <= 12 ==> a == Filter(msgs, IsAnchor))
            && forall i :: 0 <= i < |a| ==>
                 a[i] in msgs && 3 <= WordCount(a[i]) <= 15 && '\n' !in a[i]
                 && !StartsWith(a[i], "http") && !Contains(a[i], "```")
  {
    var f := Filter(msgs, IsAnchor);
    var a := StyleAnchors(msgs);
    assert a == f[..|a|];
    forall i | 0 <= i < |a|
      ensures a[i] in msgs && 3 <= WordCount(a[i]) <= 15 && '\n' !in a[i]
      ensures !StartsWith(a[i], "http") && !Contains(a[i], "```")
    {
      assert a[i] == f[i] && f[i] in msgs && IsAnchor(f[i]);
      AnchorNotBlank(f[i]);
      PieceCountIsWordCount(f[i]);
    }
  }

  /** An anchor has at least three pieces, so it is not blank. */
  lemma AnchorNotBlank(m: string)
    requires IsAnchor(m)
    ensures NotBlank(m)
  {
    assert |SplitWs([])| == 1;
  }

  /** `reactionExamples`: the first eight messages of 1 to 3 words that do
      not start with a link, in order. */
  lemma ReactionExamplesChosen(msgs: seq<string>)
    requires forall i :: 0 <= i < |msgs| ==> NotBlank(msgs[i])
    ensures var r := ReactionExamples(msgs);
            && |r| == (if |Filter(msgs, IsReaction)| < 8 then |Filter(msgs, IsReaction)| else 8)
            && r == Filter(msgs, IsReaction)[..|r|]
            && (|Filter(msgs, IsReaction)| <= 8 ==> r == Filter(msgs, IsReaction))
            && forall i :: 0 <= i < |r| ==>
                 r[i] in msgs && 1 <= WordCount(r[i]) <= 3 && !StartsWith(r[i], "http")
  {
    var f := Filter(msgs, IsReaction);
    var r := ReactionExamples(msgs);
    assert r == f[..|r|];
    forall i | 0 <= i < |r|
      ensures r[i] in msgs && 1 <= WordCount(r[i]) <= 3 && !StartsWith(r[i], "http")
    {
      assert r[i] == f[i] && f[i] in msgs && IsReaction(f[i]);
      var j :| 0 <= j < |msgs| && msgs[j] == f[i];
      PieceCountIsWordCount(f[i]);
    }
  }
}
