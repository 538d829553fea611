/** The TF-IDF memory index behind the "memory excerpts" of the prompts:
    `tokenize`, the `TfIdfIndex` class and `searchMemory`. The backend and
    the frontend carry the same code; they differ only in the suffix that
    marks a shortened excerpt, which is a parameter here. Scores are exact
    reals, and the natural logarithm is supplied by the caller as any
    function that is non-negative from 1 on. */
module Rag {
  import opened Strings
  import opened Sequences
  import opened Sorting
  import opened Tally

  const StopWords: set<string> := {
    "a", "an", "the", "and", "or", "but", "in", "on", "at", "to", "for", "of", "with",
    "is", "are", "was", "were", "be", "been", "being", "have", "has", "had", "do", "does",
    "did", "will", "would", "could", "should", "may", "might", "shall", "can", "not",
    "no", "nor", "so", "yet", "both", "either", "neither", "just", "i", "me", "my", "we",
    "our", "you", "your", "he", "she", "it", "they", "them", "their", "this", "that",
    "these", "those", "what", "which", "who", "how", "when", "where", "why", "if"
  }

  /** The replacement `/[^a-z0-9\s']/g → ' '`. */
  function ScrubChar(c: char): char {
    if IsAsciiLowerLetter(c) || IsDigit(c) || IsSpace(c) || c == '\'' then c else ' '
  }

  function Scrub(s: string): (r: string)
    ensures |r| == |s|
    ensures forall i :: 0 <= i < |s| ==> r[i] == ScrubChar(s[i])
  {
    if s == [] then [] else [ScrubChar(s[0])] + Scrub(s[1..])
  }

  predicate IsTermChar(c: char) { IsAsciiLowerLetter(c) || IsDigit(c) || c == '\'' }

  /** A token is kept when it is longer than one character and not a stop word. */
  predicate IsTerm(t: string) { |t| > 1 && t !in StopWords }

  /** `tokenize`: lower-case, blank out everything but letters, digits,
      whitespace and apostrophes, split on whitespace runs, keep the terms. */
  function Tokenize(text: string): seq<string> {
    Filter(SplitWs(Scrub(ScrubFold(text))), IsTerm)
  }

  /** Every token is a term built only of `a-z`, `0-9` and `'`. */
  lemma TokensAreTerms(text: string)
    ensures forall i :: 0 <= i < |Tokenize(text)| ==> IsTerm(Tokenize(text)[i])
    ensures forall i, j :: 0 <= i < |Tokenize(text)| && 0 <= j < |Tokenize(text)[i]|
              ==> IsTermChar(Tokenize(text)[i][j])
  {
    var pieces := SplitWs(Scrub(ScrubFold(text)));
    forall i, j | 0 <= i < |Tokenize(text)| && 0 <= j < |Tokenize(text)[i]|
      ensures IsTermChar(Tokenize(text)[i][j])
    {
      var t := Tokenize(text)[i];
      var k :| 0 <= k < |pieces| && pieces[k] == t;
      SplitWsChars(Scrub(ScrubFold(text)), k, IsTermChar);
    }
  }

  /** `m.get(k) ?? 0`. */
  function Get(m: map<string, real>, k: string): real {
    if k in m then m[k] else 0.0
  }

  /** An indexed message: its tokens and the term frequency of each. */
  datatype Doc = Doc(id: string, text: string, tokens: seq<string>, tf: map<string, real>)

  /** The frequencies after counting `ks`, each occurrence adding `1 / n`. */
  function PartialFrequencies(ks: seq<string>, n: real): (tf: map<string, real>)
    requires n > 0.0
  {
    map t | t in ks :: CountOf(ks, t) as real / n
  }

  /** Term frequency: the occurrences of a term over the number of tokens. */
  function TermFrequencies(tokens: seq<string>): map<string, real> {
    if tokens == [] then map[] else PartialFrequencies(tokens, |tokens| as real)
  }

  function MakeDoc(id: string, text: string): Doc {
    Doc(id, text, Tokenize(text), TermFrequencies(Tokenize(text)))
  }

  /** A document's frequencies are those of its tokens. */
  predicate WellFormed(d: Doc) {
    d.tf == TermFrequencies(d.tokens)
  }

  lemma DivAdd(a: real, b: real, n: real)
    requires n > 0.0
    ensures a / n + b / n == (a + b) / n
  {
  }

  lemma DivPositive(c: real, n: real)
    requires c > 0.0 && n >= c
    ensures 0.0 < c / n <= 1.0
  {
  }

  lemma DivAtLeastOne(n: real, d: real)
    requires 0.0 < d <= n
    ensures n / d >= 1.0
  {
  }

  lemma DivSelf(n: real)
    requires n > 0.0
    ensures n / n == 1.0
  {
  }

  /** Exactly the terms of a document have a frequency, and it lies in (0, 1]. */
  lemma TermFrequencyRange(tokens: seq<string>, t: string)
    ensures t in TermFrequencies(tokens) <==> t in tokens
    ensures t in tokens ==> 0.0 < TermFrequencies(tokens)[t] <= 1.0
  {
    if t in tokens {
      DivPositive(CountOf(tokens, t) as real, |tokens| as real);
    }
  }

  /** The frequencies of the distinct terms, in first-occurrence order, added up. */
  function FrequencyTotal(order: seq<string>, tf: map<string, real>): real {
    if order == [] then 0.0
    else (if order[0] in tf then tf[order[0]] else 0.0) + FrequencyTotal(order[1..], tf)
  }

  lemma {:induction false} FrequencyTotalIsCountSum(order: seq<string>, tokens: seq<string>)
    requires tokens != []
    requires forall t :: t in order ==> t in tokens
    ensures FrequencyTotal(order, TermFrequencies(tokens)) == CountSum(order, tokens) as real / |tokens| as real
  {
    if order != [] {
      FrequencyTotalIsCountSum(order[1..], tokens);
      TermFrequencyRange(tokens, order[0]);
      DivAdd(CountOf(tokens, order[0]) as real, CountSum(order[1..], tokens) as real, |tokens| as real);
    }
  }

  /** The term frequencies of a non-empty document add up to 1. */
  lemma TermFrequenciesSumToOne(tokens: seq<string>)
    requires tokens != []
    ensures FrequencyTotal(Order(tokens), TermFrequencies(tokens)) == 1.0
  {
    FrequencyTotalIsCountSum(Order(tokens), tokens);
    CountsAddUp(tokens);
    DivSelf(|tokens| as real);
  }

  lemma FrequencyStep(ks: seq<string>, t: string, n: real)
    requires n > 0.0
    ensures PartialFrequencies(ks + [t], n)
            == PartialFrequencies(ks, n)[t := Get(PartialFrequencies(ks, n), t) + 1.0 / n]
  {
    var ks1 := ks + [t];
    assert ks1[..|ks1| - 1] == ks;
    DivAdd(CountOf(ks, t) as real, 1.0, n);
  }

  /** The `tf` loop of `add`: each token adds `1 / tokens.length`. */
  method ComputeTermFrequencies(tokens: seq<string>) returns (tf: map<string, real>)
    ensures tf == TermFrequencies(tokens)
  {
    tf := map[];
    if tokens == [] {
      return;
    }
    var n := |tokens| as real;
    for i := 0 to |tokens|
      invariant tf == PartialFrequencies(tokens[..i], n)
    {
      var t := tokens[i];
      FrequencyStep(tokens[..i], t, n);
      assert tokens[..i + 1] == tokens[..i] + [t];
      tf := tf[t := Get(tf, t) + 1.0 / n];
    }
    assert tokens[..|tokens|] == tokens;
  }

  /** The number of documents whose tokens include `t`. */
  function DocFreq(docs: seq<Doc>, t: string): (n: nat)
    ensures n <= |docs|
  {
    if docs == [] then 0
    else DocFreq(docs[..|docs| - 1], t) + (if t in docs[|docs| - 1].tokens then 1 else 0)
  }

  /** `new Set(doc.tokens)`. */
  function TermSet(d: Doc): (r: set<string>)
    ensures forall t :: t in r <==> t in d.tokens
  {
    set t | t in d.tokens
  }

  /** The terms that occur in some document. */
  function Terms(docs: seq<Doc>): (r: set<string>)
    ensures forall t :: t in r <==> DocFreq(docs, t) >= 1
  {
    if docs == [] then {}
    else Terms(docs[..|docs| - 1]) + TermSet(docs[|docs| - 1])
  }

  lemma {:induction false} TermsOfDocs(docs: seq<Doc>, t: string)
    ensures t in Terms(docs) <==> exists i :: 0 <= i < |docs| && t in docs[i].tokens
  {
    if docs != [] {
      var init := docs[..|docs| - 1];
      TermsOfDocs(init, t);
      if t in Terms(docs) && t !in docs[|docs| - 1].tokens {
        var i :| 0 <= i < |init| && t in init[i].tokens;
        assert docs[i] == init[i];
      }
      if exists i :: 0 <= i < |docs| && t in docs[i].tokens {
        var i :| 0 <= i < |docs| && t in docs[i].tokens;
        if i < |init| {
          assert init[i] == docs[i];
        }
      }
    }
  }

  /** The `df` map `build` fills: the document frequency of every term. */
  function DocFreqs(docs: seq<Doc>): (df: map<string, nat>)
    ensures df.Keys == Terms(docs)
  {
    map t | t in Terms(docs) :: DocFreq(docs, t)
  }

  /** `ln` as the index uses it: never negative from 1 on. */
  ghost predicate LogNonNegative(ln: real -> real) {
    forall x: real :: x >= 1.0 ==> ln(x) >= 0.0
  }

  /** `Math.log(N / count) + 1` for each entry of a `df` map. */
  function IdfFrom(ln: real -> real, n: nat, df: map<string, nat>): (idf: map<string, real>)
    requires forall t :: t in df ==> df[t] > 0
    ensures idf.Keys == df.Keys
  {
    map t | t in df :: ln(n as real / df[t] as real) + 1.0
  }

  /** The idf of every term of the documents. */
  function IdfOf(ln: real -> real, docs: seq<Doc>): (idf: map<string, real>)
    ensures idf.Keys == Terms(docs)
  {
    IdfFrom(ln, |docs|, DocFreqs(docs))
  }

  /** Every indexed term has an idf of at least 1, since 1 ≤ df ≤ N. */
  lemma IdfAtLeastOne(ln: real -> real, docs: seq<Doc>)
    requires LogNonNegative(ln)
    ensures forall t :: t in IdfOf(ln, docs) ==> IdfOf(ln, docs)[t] >= 1.0
  {
    forall t | t in Terms(docs) ensures IdfOf(ln, docs)[t] >= 1.0 {
      DivAtLeastOne(|docs| as real, DocFreq(docs, t) as real);
    }
  }

  /** A document's score for the query tokens: the sum of `tf · idf`, with a
      term missing from either map counting 0. */
  function Score(d: Doc, idf: map<string, real>, query: seq<string>): real {
    if query == [] then 0.0
    else Score(d, idf, query[..|query| - 1]) + Get(d.tf, query[|query| - 1]) * Get(idf, query[|query| - 1])
  }

  /** A score pairs with its document, as in the `scores` array. */
  function ScoreOf(e: (real, Doc)): real { e.0 }

  /** The scored documents the loop of `search` pushes: those with a
      positive score, in insertion order. */
  function Candidates(docs: seq<Doc>, idf: map<string, real>, query: seq<string>): seq<(real, Doc)> {
    if docs == [] then []
    else
      var d := docs[|docs| - 1];
      Candidates(docs[..|docs| - 1], idf, query)
      + (if Score(d, idf, query) > 0.0 then [(Score(d, idf, query), d)] else [])
  }

  /** `scores.sort((a, b) => b[0] - a[0])`. */
  function Ranked(docs: seq<Doc>, idf: map<string, real>, query: seq<string>): seq<(real, Doc)> {
    SortDesc(Candidates(docs, idf, query), ScoreOf)
  }

  function Texts(es: seq<(real, Doc)>): (r: seq<string>)
    ensures |r| == |es|
    ensures forall i :: 0 <= i < |es| ==> r[i] == es[i].1.text
  {
    if es == [] then [] else [es[0].1.text] + Texts(es[1..])
  }

  /** What `search` returns for the documents and the idf it has once built. */
  function SearchResults(docs: seq<Doc>, idf: map<string, real>, query: seq<string>, topK: int): seq<string> {
    if docs == [] then [] else Texts(SliceTo(Ranked(docs, idf, query), topK))
  }

  class TfIdfIndex {
    var docs: seq<Doc>
    var idf: map<string, real>
    var built: bool
    const ln: real -> real

    /** The frequencies of every document are those of its tokens; idf
        holds only terms of the documents, each at least 1, and once built
        it is the idf of exactly the current documents. */
    ghost predicate Valid()
      reads this
    {
      LogNonNegative(ln)
      && (forall i :: 0 <= i < |docs| ==> WellFormed(docs[i]))
      && idf.Keys <= Terms(docs)
      && (forall t :: t in idf ==> idf[t] >= 1.0)
      && (built ==> docs != [] && idf == IdfOf(ln, docs))
    }

    constructor (ln: real -> real)
      requires LogNonNegative(ln)
      ensures Valid()
      ensures docs == [] && idf == map[] && !built && this.ln == ln
    {
      docs := [];
      idf := map[];
      built := false;
      this.ln := ln;
    }

    /** `add`: one more document, and the index must be built again. */
    method Add(id: string, text: string)
      requires Valid()
      modifies this
      ensures Valid()
      ensures docs == old(docs) + [MakeDoc(id, text)]
      ensures idf == old(idf) && !built
    {
      var tokens := Tokenize(text);
      var tf := ComputeTermFrequencies(tokens);
      AddDoc(Doc(id, text, tokens, tf));
    }

    /** `this.docs.push(...)` and `this.built = false`. */
    method AddDoc(d: Doc)
      requires Valid() && WellFormed(d)
      modifies this
      ensures Valid()
      ensures docs == old(docs) + [d]
      ensures idf == old(idf) && !built
    {
      ghost var prev := docs;
      docs := docs + [d];
      built := false;
      assert docs[..|docs| - 1] == prev;
    }

    /** `build`: nothing happens without documents; otherwise every term
        of the documents gets its idf and the index is built. */
    method Build()
      requires Valid()
      modifies this
      ensures Valid()
      ensures docs == old(docs)
      ensures old(docs) == [] ==> idf == old(idf) && built == old(built)
      ensures old(docs) != [] ==> built && idf == old(idf) + IdfOf(ln, docs)
      ensures old(docs) != [] ==> idf == IdfOf(ln, docs)
    {
      if |docs| == 0 {
        return;
      }
      var df := DocumentFrequencies(docs);
      idf := SetIdf(idf, ln, |docs|, df);
      built := true;
      OverrideAll(old(idf), IdfOf(ln, docs));
      IdfAtLeastOne(ln, docs);
    }

    /** `search`: builds first when documents were added since the last
        build, then ranks the documents that share a term with the query. */
    method Search(query: string, topK: int) returns (results: seq<string>)
      requires Valid()
      modifies this
      ensures Valid()
      ensures docs == old(docs)
      ensures built == (docs != [])
      ensures docs == [] ==> idf == old(idf)
      ensures results == SearchResults(docs, IdfOf(ln, docs), Tokenize(query), topK)
    {
      if !built {
        Build();
      }
      if |docs| == 0 {
        return [];
      }
      var scores := ScoreAll(docs, idf, Tokenize(query));
      scores := SortDesc(scores, ScoreOf);
      results := Texts(SliceTo(scores, topK));
    }
  }

  /** Overriding every key of a map leaves only the new values. */
  lemma OverrideAll(m: map<string, real>, n: map<string, real>)
    requires m.Keys <= n.Keys
    ensures m + n == n
  {
  }

  /** The loop `for (const [term, count] of df) this.idf.set(...)`. */
  method SetIdf(idf0: map<string, real>, ln: real -> real, n: nat, df: map<string, nat>)
    returns (idf: map<string, real>)
    requires forall t :: t in df ==> df[t] > 0
    ensures idf == idf0 + IdfFrom(ln, n, df)
  {
    idf := idf0;
    var pending := df.Keys;
    while pending != {}
      invariant pending <= df.Keys
      invariant idf == idf0 + IdfFrom(ln, n, df - pending)
      decreases pending
    {
      var t :| t in pending;
      var v := ln(n as real / df[t] as real) + 1.0;
      IdfStep(ln, n, df, pending, t);
      UpdateOverride(idf0, IdfFrom(ln, n, df - pending), t, v);
      idf := idf[t := v];
      pending := pending - {t};
    }
    assert df - {} == df;
  }

  lemma UpdateOverride(m: map<string, real>, n: map<string, real>, k: string, v: real)
    ensures (m + n)[k := v] == m + n[k := v]
  {
  }

  lemma IdfStep(ln: real -> real, n: nat, df: map<string, nat>, pending: set<string>, t: string)
    requires forall t :: t in df ==> df[t] > 0
    requires t in pending && pending <= df.Keys
    ensures IdfFrom(ln, n, df - (pending - {t}))
            == IdfFrom(ln, n, df - pending)[t := ln(n as real / df[t] as real) + 1.0]
  {
  }

  /** The outer loop of `search`: each document with a positive score is
      pushed with it. */
  method ScoreAll(docs: seq<Doc>, idf: map<string, real>, query: seq<string>) returns (scores: seq<(real, Doc)>)
    ensures scores == Candidates(docs, idf, query)
  {
    scores := [];
    for i := 0 to |docs|
      invariant scores == Candidates(docs[..i], idf, query)
    {
      var d := docs[i];
      var score := ScoreDoc(d, idf, query);
      assert docs[..i + 1][..i] == docs[..i];
      if score > 0.0 {
        scores := scores + [(score, d)];
      }
    }
    assert docs[..|docs|] == docs;
  }

  /** The inner loop of `search`: one document's score. */
  method ScoreDoc(d: Doc, idf: map<string, real>, query: seq<string>) returns (score: real)
    ensures score == Score(d, idf, query)
  {
    score := 0.0;
    for j := 0 to |query|
      invariant score == Score(d, idf, query[..j])
    {
      var term := query[j];
      assert query[..j + 1][..j] == query[..j];
      score := score + Get(d.tf, term) * Get(idf, term);
    }
    assert query[..|query|] == query;
  }

  /** The inner loop of `build`'s `df` count: one document counts once for
      each of its distinct terms. */
  method CountTerms(df0: map<string, nat>, d: Doc) returns (df: map<string, nat>)
    ensures df.Keys == df0.Keys + TermSet(d)
    ensures forall t :: t in df ==> df[t] == (if t in df0 then df0[t] else 0) + (if t in d.tokens then 1 else 0)
  {
    df := df0;
    var terms := TermSet(d);
    while terms != {}
      invariant terms <= TermSet(d)
      invariant df.Keys == df0.Keys + (TermSet(d) - terms)
      invariant forall t :: t in df ==>
                  df[t] == (if t in df0 then df0[t] else 0) + (if t in d.tokens && t !in terms then 1 else 0)
      decreases terms
    {
      var term :| term in terms;
      df := df[term := (if term in df then df[term] else 0) + 1];
      terms := terms - {term};
    }
  }

  lemma DocFreqsStep(docs: seq<Doc>, d: Doc)
    ensures DocFreqs(docs + [d]).Keys == DocFreqs(docs).Keys + TermSet(d)
    ensures forall t :: t in DocFreqs(docs + [d]) ==>
              DocFreqs(docs + [d])[t]
              == (if t in DocFreqs(docs) then DocFreqs(docs)[t] else 0) + (if t in d.tokens then 1 else 0)
  {
    var ds := docs + [d];
    assert ds[..|ds| - 1] == docs;
  }

  /** The `df` loop of `build`. */
  method DocumentFrequencies(docs: seq<Doc>) returns (df: map<string, nat>)
    ensures df == DocFreqs(docs)
  {
    df := map[];
    for i := 0 to |docs|
      invariant df == DocFreqs(docs[..i])
    {
      assert docs[..i + 1] == docs[..i] + [docs[i]];
      DocFreqsStep(docs[..i], docs[i]);
      df := CountTerms(df, docs[i]);
    }
    assert docs[..|docs|] == docs;
  }

  /** A message row as `searchMemory` receives it. */
  datatype Row = Row(id: string, text: string)

  /** The longest excerpt kept whole. */
  const ExcerptLength: nat := 200

  /** The suffix of a shortened backend excerpt: `…`. */
  const BackendSuffix: string := "\U{2026}"

  /** The suffix of a shortened frontend excerpt: the three characters
      `â€¦`, which is `…` encoded as UTF-8 and read back as Windows-1252. */
  const FrontendSuffix: string := "\U{E2}\U{20AC}\U{A6}"

  /** `r.length > 200 ? r.slice(0, 200) + suffix : r`. */
  function Shorten(r: string, suffix: string): string {
    if |r| > ExcerptLength then r[..ExcerptLength] + suffix else r
  }

  /** `e` is what `searchMemory` makes of the text `t`. */
  predicate IsExcerptOf(e: string, t: string, suffix: string) {
    (|t| <= ExcerptLength && e == t) || (|t| > ExcerptLength && e == t[..ExcerptLength] + suffix)
  }

  function ShortenAll(rs: seq<string>, suffix: string): (r: seq<string>)
    ensures |r| == |rs|
    ensures forall i :: 0 <= i < |rs| ==> r[i] == Shorten(rs[i], suffix)
  {
    if rs == [] then [] else [Shorten(rs[0], suffix)] + ShortenAll(rs[1..], suffix)
  }

  /** The documents after adding every row in order. */
  function IndexedDocs(rows: seq<Row>): (r: seq<Doc>)
    ensures |r| == |rows|
    ensures forall i :: 0 <= i < |rows| ==> r[i] == MakeDoc(rows[i].id, rows[i].text)
    ensures forall i :: 0 <= i < |rows| ==> r[i].text == rows[i].text
  {
    if rows == [] then []
    else
      var init := rows[..|rows| - 1];
      assert forall i :: 0 <= i < |init| ==> init[i] == rows[i];
      IndexedDocs(init) + [MakeDoc(rows[|rows| - 1].id, rows[|rows| - 1].text)]
  }

  /** The excerpts for the given query tokens: the results of searching
      the indexed rows, each shortened. */
  function MemoryResults(ln: real -> real, messages: seq<Row>, query: seq<string>, maxK: int, suffix: string)
    : seq<string>
  {
    ShortenAll(SearchResults(IndexedDocs(messages), IdfOf(ln, IndexedDocs(messages)), query, maxK), suffix)
  }

  /** `searchMemory`: index every row, build, search and shorten each hit. */
  method SearchMemory(ln: real -> real, messages: seq<Row>, query: string, maxK: int, suffix: string)
    returns (excerpts: seq<string>)
    requires LogNonNegative(ln)
    ensures excerpts == MemoryResults(ln, messages, Tokenize(query), maxK, suffix)
  {
    var idx := new TfIdfIndex(ln);
    AddAll(idx, messages);
    idx.Build();
    var results := idx.Search(query, maxK);
    excerpts := ShortenAll(results, suffix);
  }

  /** `for (const m of messages) idx.add(m.id, m.text)` on a new index. */
  method AddAll(idx: TfIdfIndex, messages: seq<Row>)
    requires idx.Valid() && idx.docs == []
    modifies idx
    ensures idx.Valid() && idx.docs == IndexedDocs(messages)
  {
    for i := 0 to |messages|
      invariant idx.Valid()
      invariant idx.docs == IndexedDocs(messages[..i])
    {
      assert messages[..i + 1][..i] == messages[..i];
      idx.Add(messages[i].id, messages[i].text);
    }
    assert messages[..|messages|] == messages;
  }
}
