/** What the memory search promises: which documents are hits, how many
    results come back, in which order, and what a shortened excerpt looks
    like. */
module RagLaws {
  import opened Sequences
  import opened Sorting
  import opened Rag

  /** Some query token is one of the document's tokens. */
  predicate SharesTerm(d: Doc, query: seq<string>) {
    exists i :: 0 <= i < |query| && query[i] in d.tokens
  }

  lemma MulPositive(a: real, b: real)
    requires a > 0.0 && b >= 1.0
    ensures a * b > 0.0
  {
  }

  /** A score is never negative, and it is positive exactly when a query
      token has a frequency, provided every frequency is positive and
      every such term has an idf of at least 1. */
  lemma {:induction false} ScoreSign(d: Doc, idf: map<string, real>, query: seq<string>)
    requires forall t :: t in d.tf ==> d.tf[t] > 0.0 && t in idf && idf[t] >= 1.0
    ensures Score(d, idf, query) >= 0.0
    ensures Score(d, idf, query) > 0.0 <==> exists i :: 0 <= i < |query| && query[i] in d.tf
  {
    if query != [] {
      var init := query[..|query| - 1];
      var t := query[|query| - 1];
      ScoreSign(d, idf, init);
      if t in d.tf {
        MulPositive(d.tf[t], idf[t]);
      }
      if exists i :: 0 <= i < |query| && query[i] in d.tf {
        var i :| 0 <= i < |query| && query[i] in d.tf;
        if i < |init| {
          assert init[i] == query[i];
        }
      }
      if exists i :: 0 <= i < |init| && init[i] in d.tf {
        var i :| 0 <= i < |init| && init[i] in d.tf;
        assert query[i] == init[i];
      }
    }
  }

  /** With the idf of the documents, a document scores above 0 exactly
      when it shares a token with the query. */
  lemma ScorePositiveIff(ln: real -> real, docs: seq<Doc>, j: nat, query: seq<string>)
    requires LogNonNegative(ln)
    requires j < |docs| && WellFormed(docs[j])
    ensures Score(docs[j], IdfOf(ln, docs), query) > 0.0 <==> SharesTerm(docs[j], query)
  {
    var d := docs[j];
    var idf := IdfOf(ln, docs);
    IdfAtLeastOne(ln, docs);
    forall t | t in d.tf ensures d.tf[t] > 0.0 && t in idf && idf[t] >= 1.0 {
      TermFrequencyRange(d.tokens, t);
      TermsOfDocs(docs, t);
    }
    ScoreSign(d, idf, query);
  }

  /** The candidates are exactly the documents with a positive score,
      each paired with that score. */
  lemma {:induction false} CandidatesAreHits(docs: seq<Doc>, idf: map<string, real>, query: seq<string>)
    ensures |Candidates(docs, idf, query)| <= |docs|
    ensures forall e :: e in Candidates(docs, idf, query) ==>
              e.1 in docs && e.0 == Score(e.1, idf, query) && e.0 > 0.0
    ensures forall i :: 0 <= i < |docs| && Score(docs[i], idf, query) > 0.0 ==>
              (Score(docs[i], idf, query), docs[i]) in Candidates(docs, idf, query)
  {
    if docs != [] {
      var init := docs[..|docs| - 1];
      CandidatesAreHits(init, idf, query);
      forall i | 0 <= i < |docs| && Score(docs[i], idf, query) > 0.0
        ensures (Score(docs[i], idf, query), docs[i]) in Candidates(docs, idf, query)
      {
        if i < |init| {
          assert init[i] == docs[i];
        }
      }
    }
  }

  /** The ranking orders the candidates by non-increasing score, keeps the
      candidates with equal scores in insertion order, and drops or adds
      nothing. */
  lemma RankedOrder(docs: seq<Doc>, idf: map<string, real>, query: seq<string>)
    ensures multiset(Ranked(docs, idf, query)) == multiset(Candidates(docs, idf, query))
    ensures forall i, j :: 0 <= i < j < |Ranked(docs, idf, query)| ==>
              Ranked(docs, idf, query)[i].0 >= Ranked(docs, idf, query)[j].0
    ensures forall k :: WithKey(Ranked(docs, idf, query), ScoreOf, k)
                        == WithKey(Candidates(docs, idf, query), ScoreOf, k)
  {
    var c := Candidates(docs, idf, query);
    SortDescPermutation(c, ScoreOf);
    SortDescSorted(c, ScoreOf);
    forall k ensures WithKey(SortDesc(c, ScoreOf), ScoreOf, k) == WithKey(c, ScoreOf, k) {
      SortDescStable(c, ScoreOf, k);
    }
  }

  /** At most `topK` results, and never more than there are documents;
      with a non-negative `topK` exactly `min(topK, hits)`. */
  lemma SearchCount(docs: seq<Doc>, idf: map<string, real>, query: seq<string>, topK: int)
    ensures |SearchResults(docs, idf, query, topK)| <= |docs|
    ensures topK >= 0 ==> |SearchResults(docs, idf, query, topK)| <= topK
    ensures topK >= 0 && docs != [] ==>
              |SearchResults(docs, idf, query, topK)|
              == if topK < |Candidates(docs, idf, query)| then topK else |Candidates(docs, idf, query)|
  {
    CandidatesAreHits(docs, idf, query);
  }

  /** A smaller `topK` gives a prefix of the results of a larger one. */
  lemma TopKPrefix(docs: seq<Doc>, idf: map<string, real>, query: seq<string>, j: nat, k: nat)
    requires j <= k
    ensures SearchResults(docs, idf, query, j) <= SearchResults(docs, idf, query, k)
  {
    if docs != [] {
      var r := Ranked(docs, idf, query);
      var small := SliceTo(r, j);
      var large := SliceTo(r, k);
      assert small == large[..|small|];
      forall i | 0 <= i < |small| ensures Texts(small)[i] == Texts(large)[i] {
      }
    }
  }

  /** A query without tokens matches nothing. */
  lemma {:induction false} EmptyQueryNoCandidates(docs: seq<Doc>, idf: map<string, real>)
    ensures Candidates(docs, idf, []) == []
  {
    if docs != [] {
      EmptyQueryNoCandidates(docs[..|docs| - 1], idf);
    }
  }

  lemma EmptyQueryNoResults(docs: seq<Doc>, idf: map<string, real>, topK: int)
    ensures SearchResults(docs, idf, [], topK) == []
  {
    EmptyQueryNoCandidates(docs, idf);
  }

  /** Every ranked entry is a candidate, and every candidate is ranked. */
  lemma RankedMembers(docs: seq<Doc>, idf: map<string, real>, query: seq<string>)
    ensures forall e :: e in Ranked(docs, idf, query) <==> e in Candidates(docs, idf, query)
  {
    var c := Candidates(docs, idf, query);
    SortDescPermutation(c, ScoreOf);
    forall e ensures e in SortDesc(c, ScoreOf) <==> e in c {
      assert e in SortDesc(c, ScoreOf) <==> e in multiset(SortDesc(c, ScoreOf));
      assert e in c <==> e in multiset(c);
    }
  }

  /** Every result is the text of a document that shares a token with the
      query. */
  lemma ResultsAreHits(ln: real -> real, docs: seq<Doc>, query: seq<string>, topK: int)
    requires LogNonNegative(ln)
    requires forall i :: 0 <= i < |docs| ==> WellFormed(docs[i])
    ensures var results := SearchResults(docs, IdfOf(ln, docs), query, topK);
            forall k :: 0 <= k < |results| ==>
              exists i :: 0 <= i < |docs| && docs[i].text == results[k] && SharesTerm(docs[i], query)
  {
    var idf := IdfOf(ln, docs);
    var results := SearchResults(docs, idf, query, topK);
    CandidatesAreHits(docs, idf, query);
    RankedMembers(docs, idf, query);
    var r := Ranked(docs, idf, query);
    forall k | 0 <= k < |results|
      ensures exists i :: 0 <= i < |docs| && docs[i].text == results[k] && SharesTerm(docs[i], query)
    {
      var e := r[k];
      assert results[k] == e.1.text;
      assert e in Candidates(docs, idf, query);
      var i :| 0 <= i < |docs| && docs[i] == e.1;
      ScorePositiveIff(ln, docs, i, query);
    }
  }

  /** When `topK` admits every document, every document that shares a
      token with the query has its text among the results. */
  lemma AllHitsReturned(ln: real -> real, docs: seq<Doc>, query: seq<string>, topK: int)
    requires LogNonNegative(ln)
    requires forall i :: 0 <= i < |docs| ==> WellFormed(docs[i])
    requires |docs| <= topK
    ensures forall i :: 0 <= i < |docs| && SharesTerm(docs[i], query) ==>
              docs[i].text in SearchResults(docs, IdfOf(ln, docs), query, topK)
  {
    var idf := IdfOf(ln, docs);
    var results := SearchResults(docs, idf, query, topK);
    CandidatesAreHits(docs, idf, query);
    RankedMembers(docs, idf, query);
    var r := Ranked(docs, idf, query);
    assert SliceTo(r, topK) == r;
    forall i | 0 <= i < |docs| && SharesTerm(docs[i], query) ensures docs[i].text in results {
      ScorePositiveIff(ln, docs, i, query);
      var e := (Score(docs[i], idf, query), docs[i]);
      assert e in r;
      var k :| 0 <= k < |r| && r[k] == e;
      assert results[k] == docs[i].text;
    }
  }

  /** The shortened results: at most `maxK`, each made from the text of
      a document that shares a token with the query. */
  lemma ExcerptsOfHits(ln: real -> real, docs: seq<Doc>, query: seq<string>, maxK: int, suffix: string)
    requires LogNonNegative(ln)
    requires forall i :: 0 <= i < |docs| ==> WellFormed(docs[i])
    ensures var ex := ShortenAll(SearchResults(docs, IdfOf(ln, docs), query, maxK), suffix);
            |ex| <= |docs| && (maxK >= 0 ==> |ex| <= maxK)
            && forall k :: 0 <= k < |ex| ==>
                 exists i :: 0 <= i < |docs| && SharesTerm(docs[i], query) && IsExcerptOf(ex[k], docs[i].text, suffix)
  {
    SearchCount(docs, IdfOf(ln, docs), query, maxK);
    ResultsAreHits(ln, docs, query, maxK);
  }

  lemma IndexedWellFormed(messages: seq<Row>)
    ensures forall i :: 0 <= i < |messages| ==> WellFormed(IndexedDocs(messages)[i])
  {
    forall i | 0 <= i < |messages| ensures WellFormed(IndexedDocs(messages)[i]) {
      assert IndexedDocs(messages)[i] == MakeDoc(messages[i].id, messages[i].text);
    }
  }

  /** What `searchMemory` returns for the query's tokens: at most `maxK`
      excerpts, each from a message sharing a token with the query, whole
      when the message has at most 200 characters and otherwise cut to 200
      characters followed by the suffix. */
  lemma MemoryExcerpts(ln: real -> real, messages: seq<Row>, query: seq<string>, maxK: int, suffix: string)
    requires LogNonNegative(ln)
    ensures |MemoryResults(ln, messages, query, maxK, suffix)| <= |messages|
    ensures maxK >= 0 ==> |MemoryResults(ln, messages, query, maxK, suffix)| <= maxK
    ensures forall k :: 0 <= k < |MemoryResults(ln, messages, query, maxK, suffix)| ==>
              exists i :: 0 <= i < |messages| && SharesTerm(IndexedDocs(messages)[i], query)
                && IsExcerptOf(MemoryResults(ln, messages, query, maxK, suffix)[k], messages[i].text, suffix)
  {
    var docs := IndexedDocs(messages);
    IndexedWellFormed(messages);
    ExcerptsOfRows(ln, docs, messages, query, maxK, suffix);
    assert MemoryResults(ln, messages, query, maxK, suffix)
        == ShortenAll(SearchResults(docs, IdfOf(ln, docs), query, maxK), suffix);
  }

  /** `ExcerptsOfHits` for documents indexed from rows, stated on the rows'
      texts. */
  lemma ExcerptsOfRows(ln: real -> real, docs: seq<Doc>, messages: seq<Row>, query: seq<string>, maxK: int,
                       suffix: string)
    requires LogNonNegative(ln)
    requires |docs| == |messages|
    requires forall i :: 0 <= i < |docs| ==> WellFormed(docs[i]) && docs[i].text == messages[i].text
    ensures var ex := ShortenAll(SearchResults(docs, IdfOf(ln, docs), query, maxK), suffix);
            |ex| <= |messages| && (maxK >= 0 ==> |ex| <= maxK)
            && forall k :: 0 <= k < |ex| ==>
                 exists i :: 0 <= i < |messages| && SharesTerm(docs[i], query)
                   && IsExcerptOf(ex[k], messages[i].text, suffix)
  {
    ExcerptsOfHits(ln, docs, query, maxK, suffix);
    var ex := ShortenAll(SearchResults(docs, IdfOf(ln, docs), query, maxK), suffix);
    forall k | 0 <= k < |ex|
      ensures exists i :: 0 <= i < |messages| && SharesTerm(docs[i], query)
                && IsExcerptOf(ex[k], messages[i].text, suffix)
    {
      var i :| 0 <= i < |docs| && SharesTerm(docs[i], query) && IsExcerptOf(ex[k], docs[i].text, suffix);
    }
  }

  /** As written, the frontend marks a shortened excerpt with three
      characters that are not `…`, so the excerpt has 203 characters. */
  lemma FrontendSuffixMisencoded(r: string)
    requires |r| > ExcerptLength
    ensures |Shorten(r, FrontendSuffix)| == ExcerptLength + 3
    ensures Shorten(r, FrontendSuffix)[ExcerptLength..] != BackendSuffix
    ensures '\U{2026}' !in Shorten(r, FrontendSuffix)[ExcerptLength..]
  {
    assert Shorten(r, FrontendSuffix)[ExcerptLength..] == FrontendSuffix;
  }

  /** With the intended suffix an excerpt has at most 201 characters, and a
      shortened one is the first 200 characters followed by `…`. */
  lemma BackendExcerptBound(r: string)
    ensures |Shorten(r, BackendSuffix)| <= ExcerptLength + 1
    ensures |r| > ExcerptLength ==>
              Shorten(r, BackendSuffix)[..ExcerptLength] == r[..ExcerptLength]
              && Shorten(r, BackendSuffix)[ExcerptLength] == '\U{2026}'
    ensures |r| <= ExcerptLength ==> Shorten(r, BackendSuffix) == r
  {
  }
}
