/** The crisis detector: eight case-insensitive regular expressions with
    word boundaries, any one of which flags a message, and the fixed reply
    sent instead of an in-character answer. */
module Safety {
  import opened Strings

  /** The fragment of JavaScript regular expressions the patterns use,
      under the `i` flag without `u`. */
  datatype Re =
    | Word(w: string)        // literal lower-case text, compared case-insensitively
    | Spaces                 // `\s+`
    | SpaceOrDash            // `[\s-]`
    | Boundary               // `\b`
    | Optional(r: Re)        // `(r)?`
    | Either(a: Re, b: Re)   // `(a|b)`
    | Then(a: Re, b: Re)     // `ab`

  /** `\b`: exactly one of the characters on either side of position `i`
      is a word character, the outside of the string counting as none. */
  predicate AtBoundary(s: string, i: nat)
    requires i <= |s|
  {
    (i > 0 && IsWordChar(s[i - 1])) != (i < |s| && IsWordChar(s[i]))
  }

  /** `r` can match exactly the characters `s[i..j]`. Under the `i` flag
      without `u`, two characters are equal when their canonical upper-case
      forms are, and no character outside ASCII folds onto an ASCII one, so
      comparing after lower-casing the ASCII letters is exact for the
      all-ASCII patterns below. */
  predicate Spans(r: Re, s: string, i: nat, j: nat)
    requires i <= j <= |s|
    decreases r
  {
    match r
    case Word(w) => j == i + |w| && Lower(s[i..j]) == w
    case Spaces => i < j && IsBlank(s[i..j])
    case SpaceOrDash => j == i + 1 && (IsSpace(s[i]) || s[i] == '-')
    case Boundary => j == i && AtBoundary(s, i)
    case Optional(a) => j == i || Spans(a, s, i, j)
    case Either(a, b) => Spans(a, s, i, j) || Spans(b, s, i, j)
    case Then(a, b) => exists k :: i <= k <= j && Spans(a, s, i, k) && Spans(b, s, k, j)
  }

  /** `RegExp.prototype.test`: a match of `r` starts and ends somewhere in
      `s`. Backtracking tries every alternative, so the search succeeds iff
      such a span exists. */
  predicate Matches(r: Re, s: string) {
    exists i: nat, j: nat :: i <= j <= |s| && Spans(r, s, i, j)
  }

  function Seq(rs: seq<Re>): Re
    requires rs != []
  {
    if |rs| == 1 then rs[0] else Then(rs[0], Seq(rs[1..]))
  }

  /** `\b...\b` around a sequence of parts. */
  function Bounded(rs: seq<Re>): Re {
    Then(Boundary, Seq(rs + [Boundary]))
  }

  const KillSelf: Re := Bounded([Word("kill"), Spaces, Optional(Word("my")), Word("self")])
  const Suicide: Re := Bounded([Word("suicid"), Either(Word("e"), Word("al"))])
  const WantToDie: Re := Bounded([Word("want"), Spaces, Word("to"), Spaces, Word("die")])
  const EndIt: Re := Bounded([Word("end"), Spaces, Either(Word("it"), Word("my life"))])
  const SelfHarm: Re := Bounded([Word("self"), Optional(SpaceOrDash), Word("harm")])
  const CutSelf: Re := Bounded([Word("cut"), Spaces, Optional(Word("my")), Word("self")])
  const NotAlive: Re := Bounded([Word("don"), Optional(Word("'")), Word("t"), Spaces, Word("want"), Spaces,
                                 Word("to"), Spaces, Optional(Then(Word("be"), Spaces)), Word("alive")])
  const NoReason: Re := Bounded([Word("no"), Spaces, Word("reason"), Spaces, Word("to"), Spaces, Word("live")])

  const CrisisPatterns: seq<Re> := [KillSelf, Suicide, WantToDie, EndIt, SelfHarm, CutSelf, NotAlive, NoReason]

  /** `CRISIS_PATTERNS.some(p => p.test(text))`. */
  function AnyMatches(ps: seq<Re>, text: string): (r: bool)
    ensures r <==> exists k :: 0 <= k < |ps| && Matches(ps[k], text)
  {
    if ps == [] then false
    else if Matches(ps[0], text) then true
    else
      var rest := AnyMatches(ps[1..], text);
      assert forall k :: 1 <= k < |ps| ==> ps[k] == ps[1..][k - 1];
      rest
  }

  /** `detectCrisis`. */
  predicate DetectCrisis(text: string) {
    AnyMatches(CrisisPatterns, text)
  }

  /** `CRISIS_RESPONSE`, line group by line group. */
  const CrisisResponse: string := CrisisOpening + CrisisTextLine + CrisisLifeline + CrisisClosing

  const CrisisOpening: string :=
    "hey \U{2014} stepping outside the bit for a sec.\n\nare you actually okay?\n\n"
    + "if you're going through something real, please reach out:\n"
  const CrisisTextLine: string := CrisisTextLead + "741741" + "\n"
  const CrisisTextLead: string := "\U{2022} crisis text line: text HOME to "
  const CrisisLifeline: string := CrisisLifelineLead + "988" + "\n"
  const CrisisLifelineLead: string := "\U{2022} 988 suicide & crisis lifeline: " + "call or text "
  const CrisisClosing: string :=
    "\U{2022} international: findahelpline.com\n\n"
    + "i'm a model of you, not the real you \U{2014} but the real you matters. \U{1F499}"

  /** The detector is the disjunction of its eight patterns. */
  lemma DetectCrisisCases(text: string)
    ensures DetectCrisis(text) <==>
      Matches(KillSelf, text) || Matches(Suicide, text) || Matches(WantToDie, text) || Matches(EndIt, text)
      || Matches(SelfHarm, text) || Matches(CutSelf, text) || Matches(NotAlive, text) || Matches(NoReason, text)
  {
    var ps := CrisisPatterns;
    assert ps[0] == KillSelf && ps[1] == Suicide && ps[2] == WantToDie && ps[3] == EndIt;
    assert ps[4] == SelfHarm && ps[5] == CutSelf && ps[6] == NotAlive && ps[7] == NoReason;
    assert |ps| == 8;
  }

  /** Both numbers the reply points to are in it. */
  lemma CrisisResponseHasHotlines()
    ensures Contains(CrisisResponse, "741741")
    ensures Contains(CrisisResponse, "988")
  {
    ContainsLast(CrisisTextLead, "741741");
    ContainsExtend(CrisisTextLead + "741741", "741741", "\n");
    ContainsPrepend(CrisisOpening, CrisisTextLine, "741741");
    ContainsExtend(CrisisOpening + CrisisTextLine, "741741", CrisisLifeline);
    ContainsExtend(CrisisOpening + CrisisTextLine + CrisisLifeline, "741741", CrisisClosing);
    ContainsLast(CrisisLifelineLead, "988");
    ContainsExtend(CrisisLifelineLead + "988", "988", "\n");
    ContainsPrepend(CrisisOpening + CrisisTextLine, CrisisLifeline, "988");
    ContainsExtend(CrisisOpening + CrisisTextLine + CrisisLifeline, "988", CrisisClosing);
  }

  lemma SameCaseFoldChar(a: char, b: char)
    requires LowerChar(a) == LowerChar(b)
    ensures IsSpace(a) == IsSpace(b) && IsWordChar(a) == IsWordChar(b) && (a == '-') == (b == '-')
  {
  }

  lemma LowerSlice(s: string, i: nat, j: nat)
    requires i <= j <= |s|
    ensures Lower(s[i..j]) == Lower(s)[i..j]
  {
    assert forall k :: 0 <= k < j - i ==> Lower(s[i..j])[k] == LowerChar(s[i + k]) == Lower(s)[i..j][k];
  }

  /** The characters of two strings with the same lower-case form agree on
      every class the patterns test. */
  lemma SameCaseFold(s: string, t: string)
    requires |s| == |t| && Lower(s) == Lower(t)
    ensures forall k :: 0 <= k < |s| ==>
              IsSpace(s[k]) == IsSpace(t[k]) && IsWordChar(s[k]) == IsWordChar(t[k]) && (s[k] == '-') == (t[k] == '-')
  {
    forall k | 0 <= k < |s|
      ensures IsSpace(s[k]) == IsSpace(t[k]) && IsWordChar(s[k]) == IsWordChar(t[k]) && (s[k] == '-') == (t[k] == '-')
    {
      assert Lower(s)[k] == Lower(t)[k];
      SameCaseFoldChar(s[k], t[k]);
    }
  }

  lemma SpacesIgnoreCase(s: string, t: string, i: nat, j: nat)
    requires |s| == |t| && Lower(s) == Lower(t) && i <= j <= |s|
    ensures IsBlank(s[i..j]) == IsBlank(t[i..j])
  {
    SameCaseFold(s, t);
    assert forall k :: 0 <= k < j - i ==> s[i..j][k] == s[k + i] && t[i..j][k] == t[k + i];
  }

  /** A pattern cannot tell apart two strings that differ only in the case
      of ASCII letters. */
  lemma {:induction false} SpansIgnoreCase(r: Re, s: string, t: string, i: nat, j: nat)
    requires |s| == |t| && Lower(s) == Lower(t) && i <= j <= |s|
    ensures Spans(r, s, i, j) == Spans(r, t, i, j)
    decreases r
  {
    match r
    case Word(w) =>
      LowerSlice(s, i, j);
      LowerSlice(t, i, j);
    case Spaces =>
      SpacesIgnoreCase(s, t, i, j);
    case SpaceOrDash =>
      SameCaseFold(s, t);
    case Boundary =>
      SameCaseFold(s, t);
    case Optional(a) =>
      SpansIgnoreCase(a, s, t, i, j);
    case Either(a, b) =>
      SpansIgnoreCase(a, s, t, i, j);
      SpansIgnoreCase(b, s, t, i, j);
    case Then(a, b) =>
      forall k | i <= k <= j
        ensures Spans(a, s, i, k) == Spans(a, t, i, k) && Spans(b, s, k, j) == Spans(b, t, k, j)
      {
        SpansIgnoreCase(a, s, t, i, k);
        SpansIgnoreCase(b, s, t, k, j);
      }
  }

  /** Every pattern is case-insensitive, so the detector is too. */
  lemma DetectCrisisIgnoresCase(s: string, t: string)
    requires |s| == |t| && Lower(s) == Lower(t)
    ensures DetectCrisis(s) == DetectCrisis(t)
  {
    forall r: Re, i: nat, j: nat | i <= j <= |s|
      ensures Spans(r, s, i, j) == Spans(r, t, i, j)
    {
      SpansIgnoreCase(r, s, t, i, j);
    }
    assert forall k :: 0 <= k < |CrisisPatterns| ==> Matches(CrisisPatterns[k], s) == Matches(CrisisPatterns[k], t);
  }

  /** Letters (in lower case) that every match of `r` contains. */
  function MustSee(r: Re): set<char> {
    match r
    case Word(w) => set c | c in w
    case Optional(_) => {}
    case Either(a, b) => MustSee(a) * MustSee(b)
    case Then(a, b) => MustSee(a) + MustSee(b)
    case _ => {}
  }

  predicate Sees(s: string, i: nat, j: nat, c: char)
    requires i <= j <= |s|
  {
    exists k :: i <= k < j && LowerChar(s[k]) == c
  }

  /** A match of `r` from `i` to `j` contains, up to case, every letter of
      `MustSee(r)`. */
  lemma {:induction false} MustSeeSound(r: Re, s: string, i: nat, j: nat, c: char)
    requires i <= j <= |s| && Spans(r, s, i, j) && c in MustSee(r)
    ensures Sees(s, i, j, c)
    decreases r
  {
    match r
    case Word(w) =>
      var m :| 0 <= m < |w| && w[m] == c;
      LowerSlice(s, i, j);
      assert LowerChar(s[i + m]) == c;
    case Either(a, b) =>
      if Spans(a, s, i, j) {
        MustSeeSound(a, s, i, j, c);
      } else {
        MustSeeSound(b, s, i, j, c);
      }
    case Then(a, b) =>
      var k :| i <= k <= j && Spans(a, s, i, k) && Spans(b, s, k, j);
      if c in MustSee(a) {
        MustSeeSound(a, s, i, k, c);
      } else {
        MustSeeSound(b, s, k, j, c);
      }
  }

  lemma {:induction false} MustSeeSeq(rs: seq<Re>, k: nat)
    requires k < |rs|
    ensures MustSee(rs[k]) <= MustSee(Seq(rs))
    decreases |rs|
  {
    if |rs| > 1 && k > 0 {
      MustSeeSeq(rs[1..], k - 1);
    }
  }

  /** A part of a bounded pattern needs what the whole needs. */
  lemma MustSeeBounded(rs: seq<Re>, k: nat)
    requires k < |rs|
    ensures MustSee(rs[k]) <= MustSee(Bounded(rs))
  {
    MustSeeSeq(rs + [Boundary], k);
  }

  /** A pattern that needs the letter `c` never matches a text without it. */
  lemma NoMatchWithout(r: Re, s: string, c: char)
    requires c in MustSee(r)
    requires forall k :: 0 <= k < |s| ==> LowerChar(s[k]) != c
    ensures !Matches(r, s)
  {
    if Matches(r, s) {
      var i: nat, j: nat :| i <= j <= |s| && Spans(r, s, i, j);
      MustSeeSound(r, s, i, j, c);
    }
  }

  /** The letter each pattern cannot do without. */
  lemma CrisisLettersSelf()
    ensures 'f' in MustSee(KillSelf) && 'f' in MustSee(SelfHarm) && 'c' in MustSee(CutSelf)
  {
    MustSeeBounded([Word("kill"), Spaces, Optional(Word("my")), Word("self")], 3);
    MustSeeBounded([Word("self"), Optional(SpaceOrDash), Word("harm")], 0);
    MustSeeBounded([Word("cut"), Spaces, Optional(Word("my")), Word("self")], 0);
  }

  lemma CrisisLettersDie()
    ensures 'u' in MustSee(Suicide) && 'd' in MustSee(WantToDie) && 'd' in MustSee(EndIt)
  {
    MustSeeBounded([Word("suicid"), Either(Word("e"), Word("al"))], 0);
    MustSeeBounded([Word("want"), Spaces, Word("to"), Spaces, Word("die")], 4);
    MustSeeBounded([Word("end"), Spaces, Either(Word("it"), Word("my life"))], 0);
  }

  lemma CrisisLettersLive()
    ensures 'd' in MustSee(NotAlive) && 'r' in MustSee(NoReason)
  {
    MustSeeBounded([Word("don"), Optional(Word("'")), Word("t"), Spaces, Word("want"), Spaces,
                    Word("to"), Spaces, Optional(Then(Word("be"), Spaces)), Word("alive")], 0);
    MustSeeBounded([Word("no"), Spaces, Word("reason"), Spaces, Word("to"), Spaces, Word("live")], 2);
  }

  /** Each pattern spells out at least one of the letters c, d, f, r, u, so
      a text holding none of them, in either case, is never flagged. */
  lemma NoCrisisWithoutLetters(text: string)
    requires forall k :: 0 <= k < |text| ==> LowerChar(text[k]) !in "cdfru"
    ensures !DetectCrisis(text)
  {
    CrisisLettersSelf();
    CrisisLettersDie();
    CrisisLettersLive();
    NoMatchWithout(KillSelf, text, 'f');
    NoMatchWithout(Suicide, text, 'u');
    NoMatchWithout(WantToDie, text, 'd');
    NoMatchWithout(EndIt, text, 'd');
    NoMatchWithout(SelfHarm, text, 'f');
    NoMatchWithout(CutSelf, text, 'c');
    NoMatchWithout(NotAlive, text, 'd');
    NoMatchWithout(NoReason, text, 'r');
    DetectCrisisCases(text);
  }

  /** "kill" followed by something other than "(my)self" is not flagged. */
  lemma KillItIsNotACrisis(text: string)
    requires text == "let's kill it at the meeting"
    ensures !DetectCrisis(text)
  {
    forall k | 0 <= k < |text|
      ensures LowerChar(text[k]) !in "cdfru"
    {
    }
    NoCrisisWithoutLetters(text);
  }

  lemma ThenSpans(a: Re, b: Re, s: string, i: nat, k: nat, j: nat)
    requires i <= k <= j <= |s| && Spans(a, s, i, k) && Spans(b, s, k, j)
    ensures Spans(Then(a, b), s, i, j)
  {
  }

  lemma BoundedFour(a: Re, b: Re, c: Re, d: Re)
    ensures Bounded([a, b, c, d]) == Then(Boundary, Then(a, Then(b, Then(c, Then(d, Boundary)))))
  {
    assert [a, b, c, d] + [Boundary] == [a, b, c, d, Boundary];
    assert [d, Boundary][1..] == [Boundary];
    assert Seq([d, Boundary]) == Then(d, Boundary);
    assert [c, d, Boundary][1..] == [d, Boundary];
    assert Seq([c, d, Boundary]) == Then(c, Then(d, Boundary));
    assert [b, c, d, Boundary][1..] == [c, d, Boundary];
    assert Seq([b, c, d, Boundary]) == Then(b, Then(c, Then(d, Boundary)));
    assert [a, b, c, d, Boundary][1..] == [b, c, d, Boundary];
  }

  lemma BoundedTwo(a: Re, b: Re)
    ensures Bounded([a, b]) == Then(Boundary, Then(a, Then(b, Boundary)))
  {
    assert [a, b] + [Boundary] == [a, b, Boundary];
    assert [b, Boundary][1..] == [Boundary];
    assert Seq([b, Boundary]) == Then(b, Boundary);
    assert [a, b, Boundary][1..] == [b, Boundary];
  }

  lemma BoundedThree(a: Re, b: Re, c: Re)
    ensures Bounded([a, b, c]) == Then(Boundary, Then(a, Then(b, Then(c, Boundary))))
  {
    assert [a, b, c] + [Boundary] == [a, b, c, Boundary];
    assert [c, Boundary][1..] == [Boundary];
    assert Seq([c, Boundary]) == Then(c, Boundary);
    assert [b, c, Boundary][1..] == [c, Boundary];
    assert Seq([b, c, Boundary]) == Then(b, Then(c, Boundary));
    assert [a, b, c, Boundary][1..] == [b, c, Boundary];
  }

  lemma Bounded2Spans(a: Re, b: Re, s: string, p0: nat, p1: nat, p2: nat)
    requires p0 <= p1 <= p2 <= |s|
    requires Spans(a, s, p0, p1) && Spans(b, s, p1, p2)
    requires AtBoundary(s, p0) && AtBoundary(s, p2)
    ensures Spans(Then(Boundary, Then(a, Then(b, Boundary))), s, p0, p2)
  {
    ThenSpans(b, Boundary, s, p1, p2, p2);
    ThenSpans(a, Then(b, Boundary), s, p0, p1, p2);
    ThenSpans(Boundary, Then(a, Then(b, Boundary)), s, p0, p0, p2);
  }

  lemma Bounded3Spans(a: Re, b: Re, c: Re, s: string, p0: nat, p1: nat, p2: nat, p3: nat)
    requires p0 <= p1 <= p2 <= p3 <= |s|
    requires Spans(a, s, p0, p1) && Spans(b, s, p1, p2) && Spans(c, s, p2, p3)
    requires AtBoundary(s, p0) && AtBoundary(s, p3)
    ensures Spans(Then(Boundary, Then(a, Then(b, Then(c, Boundary)))), s, p0, p3)
  {
    ThenSpans(c, Boundary, s, p2, p3, p3);
    ThenSpans(b, Then(c, Boundary), s, p1, p2, p3);
    ThenSpans(a, Then(b, Then(c, Boundary)), s, p0, p1, p3);
    ThenSpans(Boundary, Then(a, Then(b, Then(c, Boundary))), s, p0, p0, p3);
  }

  /** Four parts that match one after the other between two word
      boundaries make their bounded pattern match. */
  lemma Bounded4Spans(a: Re, b: Re, c: Re, d: Re, s: string, p0: nat, p1: nat, p2: nat, p3: nat, p4: nat)
    requires p0 <= p1 <= p2 <= p3 <= p4 <= |s|
    requires Spans(a, s, p0, p1) && Spans(b, s, p1, p2) && Spans(c, s, p2, p3) && Spans(d, s, p3, p4)
    requires AtBoundary(s, p0) && AtBoundary(s, p4)
    ensures Spans(Then(Boundary, Then(a, Then(b, Then(c, Then(d, Boundary))))), s, p0, p4)
  {
    ThenSpans(d, Boundary, s, p3, p4, p4);
    ThenSpans(c, Then(d, Boundary), s, p2, p3, p4);
    ThenSpans(b, Then(c, Then(d, Boundary)), s, p1, p2, p4);
    ThenSpans(a, Then(b, Then(c, Then(d, Boundary))), s, p0, p1, p4);
    ThenSpans(Boundary, Then(a, Then(b, Then(c, Then(d, Boundary)))), s, p0, p0, p4);
  }

  lemma MatchesAt(r: Re, s: string, i: nat, j: nat)
    requires i <= j <= |s| && Spans(r, s, i, j)
    ensures Matches(r, s)
  {
  }

  lemma WordAt(s: string, i: nat, w: string)
    requires i + |w| <= |s| && s[i..i + |w|] == w && Lower(w) == w
    ensures Spans(Word(w), s, i, i + |w|)
  {
  }

  /** A string that starts with one word and ends with another has a word
      boundary at both ends. */
  lemma WordEnds(s: string, first: string, last: string)
    requires first != [] && last != [] && |first| <= |s| && |last| <= |s|
    requires s[..|first|] == first && s[|s| - |last|..] == last
    requires IsWordChar(first[0]) && IsWordChar(last[|last| - 1])
    ensures AtBoundary(s, 0) && AtBoundary(s, |s|)
  {
    assert s[0] == first[0];
    assert s[|s| - 1] == last[|last| - 1];
  }

  /** The literal words of the patterns are already in lower case. */
  lemma KillSelfLower()
    ensures Lower("kill") == "kill" && Lower("self") == "self" && Lower("my") == "my"
  {
  }

  lemma SuicideLower()
    ensures Lower("suicid") == "suicid" && Lower("e") == "e" && Lower("al") == "al"
  {
  }

  lemma HarmLower()
    ensures Lower("self") == "self" && Lower("harm") == "harm"
  {
  }

  lemma EndLower()
    ensures Lower("end") == "end" && Lower("it") == "it"
  {
  }

  lemma MyLifeLower()
    ensures Lower("my life") == "my life"
  {
  }

  lemma KillSelfParts(s: string, gap: string, mine: string)
    requires s == "kill" + gap + mine + "self"
    ensures s[..4] == "kill" && s[4..4 + |gap|] == gap
    ensures s[4 + |gap|..4 + |gap| + |mine|] == mine && s[4 + |gap| + |mine|..] == "self"
  {
  }

  lemma KillSelfWordsSpan(s: string, g: nat, n: nat)
    requires |s| == 8 + g + n && s[..4] == "kill" && s[4 + g + n..] == "self"
    ensures Spans(Word("kill"), s, 0, 4) && Spans(Word("self"), s, 4 + g + n, |s|)
  {
    KillSelfLower();
    WordAt(s, 0, "kill");
    WordAt(s, 4 + g + n, "self");
  }

  lemma KillSelfGapSpan(s: string, g: nat, n: nat)
    requires 0 < g && (n == 0 || n == 2) && 4 + g + n <= |s|
    requires IsBlank(s[4..4 + g]) && s[4 + g..4 + g + n] == "my"[..n]
    ensures Spans(Spaces, s, 4, 4 + g) && Spans(Optional(Word("my")), s, 4 + g, 4 + g + n)
  {
    if n == 2 {
      KillSelfLower();
      WordAt(s, 4 + g, "my");
    }
  }

  lemma KillSelfMatches(s: string, g: nat, n: nat)
    requires 0 < g && (n == 0 || n == 2) && |s| == 8 + g + n
    requires s[..4] == "kill" && IsBlank(s[4..4 + g])
    requires s[4 + g..4 + g + n] == "my"[..n] && s[4 + g + n..] == "self"
    ensures Matches(KillSelf, s)
  {
    KillSelfWordsSpan(s, g, n);
    KillSelfGapSpan(s, g, n);
    WordEnds(s, "kill", "self");
    Bounded4Spans(Word("kill"), Spaces, Optional(Word("my")), Word("self"), s, 0, 4, 4 + g, 4 + g + n, |s|);
    BoundedFour(Word("kill"), Spaces, Optional(Word("my")), Word("self"));
    MatchesAt(KillSelf, s, 0, |s|);
  }

  /** "kill myself" and "kill self", with any run of whitespace between
      the words, are flagged. */
  lemma KillSelfIsACrisis(gap: string, my: bool)
    requires gap != [] && IsBlank(gap)
    ensures DetectCrisis("kill" + gap + (if my then "my" else "") + "self")
  {
    var mine := if my then "my" else "";
    var s := "kill" + gap + mine + "self";
    KillSelfParts(s, gap, mine);
    KillSelfMatches(s, |gap|, |mine|);
    DetectCrisisCases(s);
  }

  lemma SuicideMatches(s: string, n: nat)
    requires n == 1 || n == 2
    requires |s| == 6 + n && s[..6] == "suicid" && s[6..] == (if n == 1 then "e" else "al")
    ensures Matches(Suicide, s)
  {
    SuicideLower();
    WordAt(s, 0, "suicid");
    if n == 1 {
      WordAt(s, 6, "e");
    } else {
      WordAt(s, 6, "al");
    }
    assert IsWordChar(s[0]) && IsWordChar(s[|s| - 1]);
    Bounded2Spans(Word("suicid"), Either(Word("e"), Word("al")), s, 0, 6, |s|);
    BoundedTwo(Word("suicid"), Either(Word("e"), Word("al")));
    MatchesAt(Suicide, s, 0, |s|);
  }

  /** "suicide" and "suicidal" are flagged. */
  lemma SuicideIsACrisis(text: string)
    requires text == "suicide" || text == "suicidal"
    ensures DetectCrisis(text)
  {
    SuicideMatches(text, |text| - 6);
    DetectCrisisCases(text);
  }

  lemma SelfHarmSpans(s: string, n: nat)
    requires n <= 1 && |s| == 8 + n && s[..4] == "self" && s[4 + n..] == "harm"
    requires n == 1 ==> IsSpace(s[4]) || s[4] == '-'
    ensures Spans(Word("self"), s, 0, 4) && Spans(Optional(SpaceOrDash), s, 4, 4 + n)
    ensures Spans(Word("harm"), s, 4 + n, |s|) && AtBoundary(s, 0) && AtBoundary(s, |s|)
  {
    HarmLower();
    WordAt(s, 0, "self");
    WordAt(s, 4 + n, "harm");
    WordEnds(s, "self", "harm");
  }

  /** "self harm", "self-harm" and "selfharm" (any single whitespace
      character in the first) are flagged. */
  lemma SelfHarmIsACrisis(sep: string)
    requires sep == "" || sep == "-" || (|sep| == 1 && IsSpace(sep[0]))
    ensures DetectCrisis("self" + sep + "harm")
  {
    var s := "self" + sep + "harm";
    assert s[..4] == "self" && s[4 + |sep|..] == "harm";
    assert |sep| == 1 ==> s[4] == sep[0];
    SelfHarmSpans(s, |sep|);
    Bounded3Spans(Word("self"), Optional(SpaceOrDash), Word("harm"), s, 0, 4, 4 + |sep|, |s|);
    BoundedThree(Word("self"), Optional(SpaceOrDash), Word("harm"));
    MatchesAt(SelfHarm, s, 0, |s|);
    DetectCrisisCases(s);
  }

  lemma EndItSpans(s: string, g: nat, tail: string)
    requires tail == "it" || tail == "my life"
    requires 0 < g && |s| == 3 + g + |tail| && s[..3] == "end" && IsBlank(s[3..3 + g]) && s[3 + g..] == tail
    ensures Spans(Word("end"), s, 0, 3) && Spans(Spaces, s, 3, 3 + g)
    ensures Spans(Either(Word("it"), Word("my life")), s, 3 + g, |s|) && AtBoundary(s, 0) && AtBoundary(s, |s|)
  {
    EndLower();
    WordAt(s, 0, "end");
    EndItTailSpan(s, 3 + g, tail);
    WordEnds(s, "end", tail);
  }

  lemma EndItTailSpan(s: string, i: nat, tail: string)
    requires tail == "it" || tail == "my life"
    requires i + |tail| == |s| && s[i..] == tail
    ensures Spans(Either(Word("it"), Word("my life")), s, i, |s|)
  {
    if tail == "it" {
      EndLower();
      WordAt(s, i, "it");
    } else {
      MyLifeLower();
      WordAt(s, i, "my life");
    }
  }

  /** The whole words "end it" and "end my life", with any run of
      whitespace after "end", are flagged. */
  lemma EndItIsACrisis(gap: string, tail: string)
    requires gap != [] && IsBlank(gap) && (tail == "it" || tail == "my life")
    ensures DetectCrisis("end" + gap + tail)
  {
    var s := "end" + gap + tail;
    assert s[..3] == "end" && s[3..3 + |gap|] == gap && s[3 + |gap|..] == tail;
    EndItSpans(s, |gap|, tail);
    Bounded3Spans(Word("end"), Spaces, Either(Word("it"), Word("my life")), s, 0, 3, 3 + |gap|, |s|);
    BoundedThree(Word("end"), Spaces, Either(Word("it"), Word("my life")));
    MatchesAt(EndIt, s, 0, |s|);
    DetectCrisisCases(s);
  }
}
