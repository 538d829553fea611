/** `buildCloneSystemPrompt` and `buildDemoSystemPrompt`: the fingerprint's
    numbers turned into rule text through fixed thresholds, followed by the
    curated examples, the word lists, the memory excerpts and a fixed
    closing. */
module ClonePrompt {
  import opened Strings
  import opened Sequences
  import opened VoiceFingerprint

  const Dash: string := "\U{2014}"
  const Bullet: string := "\U{2022} "

  /** `━━ TITLE ━━`. */
  function Heading(title: string): string {
    "\U{2501}\U{2501} " + title + " \U{2501}\U{2501}"
  }

  /** `capsRule`: ALWAYS at 75% or more, Usually at 50% or more, otherwise
      mixed. */
  function CapsRule(p: nat): string {
    if p >= 75 then
      "ALWAYS" + " start messages with a lowercase letter. " + NatToString(p)
      + "% of their messages do this " + Dash + " it is their default."
    else if p >= 50 then
      "Usually" + " start with lowercase (" + NatToString(p) + "% of their messages)."
    else
      "Capitalization" + " is mixed " + Dash + " follow their examples."
  }

  /** `periodRule`: NEVER at 15% or less, Rarely at 35% or less, otherwise
      the share is stated. */
  function PeriodRule(p: nat): string {
    if p <= 15 then
      "NEVER" + " end a message with a period. They only do it " + NatToString(p)
      + "% of the time " + Dash + " treat it as basically never."
    else if p <= 35 then
      "Rarely" + " use periods at the end (only " + NatToString(p)
      + "% of their messages). Default to no period."
    else
      "Periods" + " are used " + NatToString(p) + "% of the time " + Dash + " use them occasionally."
  }

  /** `Math.min(50, avgWords * 3)`. */
  function LengthCeiling(avg: nat): (r: nat)
    ensures r <= 50 && r <= 3 * avg
    ensures r == 50 || r == 3 * avg
  {
    if 3 * avg < 50 then 3 * avg else 50
  }

  function LengthRule(fp: Fingerprint): string {
    "Their median message is " + NatToString(fp.medianWords) + " words. Average is "
    + NatToString(fp.avgWords) + " words. " + NatToString(fp.shortMsgPct)
    + "% of messages are 5 words or fewer. Keep replies short " + Dash + " never exceed "
    + NatToString(LengthCeiling(fp.avgWords)) + " words unless genuinely necessary."
  }

  /** `emojiRule`: never below 3%, avoid below 10%, otherwise occasionally. */
  function EmojiRule(e: nat): string {
    if e < 3 then "Zero" + " emoji usage. Never use emojis."
    else if e < 10 then "Almost" + " never uses emojis (" + NatToString(e) + "%). Avoid them."
    else "Uses" + " emojis occasionally (" + NatToString(e) + "%)."
  }

  /** `exclamRule`: never below 5%, avoid below 15%, otherwise nothing. */
  function ExclamationRule(x: nat): string {
    if x < 5 then "Never" + " uses exclamation marks. Do not use them."
    else if x < 15 then "Rarely" + " uses exclamation marks (" + NatToString(x) + "%). Avoid."
    else ""
  }

  function EllipsisLine(pct: nat): string {
    Bullet + "Uses \"...\" in " + NatToString(pct) + "% of messages " + Dash + " ellipses are part of their voice."
  }

  function QuestionLine(pct: nat): string {
    Bullet + NatToString(pct) + "% of their messages are questions " + Dash + " they naturally ask back."
  }

  /** `[line]` when `present`, nothing otherwise. */
  function Optional(present: bool, line: string): seq<string> {
    if present then [line] else []
  }

  /** The four bullets that are always present. */
  function FixedRules(fp: Fingerprint): seq<string> {
    [Bullet + CapsRule(fp.lowercaseStartPct), Bullet + PeriodRule(fp.periodEndPct),
     Bullet + LengthRule(fp), Bullet + EmojiRule(fp.emojiPct)]
  }

  /** The bulleted rules: four always, then the optional ones. */
  function RuleLines(fp: Fingerprint): seq<string> {
    FixedRules(fp)
    + Optional(ExclamationRule(fp.exclamationPct) != "", Bullet + ExclamationRule(fp.exclamationPct))
    + Optional(fp.ellipsisPct > 15, EllipsisLine(fp.ellipsisPct))
    + Optional(fp.questionPct > 20, QuestionLine(fp.questionPct))
  }

  const Opening: string := "You are a digital clone built from someone's real text messages. You ARE them."
  const StatsTitle: string := "HARD STATS " + Dash + " THESE ARE LAWS"
  const TemplateTitle: string := "REAL MESSAGES " + Dash + " THIS IS THE TEMPLATE"
  const StudyLine: string := "Study these. Notice spelling, spacing, punctuation, energy. Match it exactly:"
  const ReactTitle: string := "HOW THEY REACT"
  const SlangTitle: string := "VOCABULARY THEY USE"
  const WordsTitle: string := "THEIR MOST COMMON WORDS"
  const TopicsTitle: string := "WHAT THEY THINK ABOUT"
  const MemoryTitle: string := "RELEVANT THINGS THEY'VE SAID"
  const CheckTitle: string := "FINAL CHECK"
  const CheckLine: string := "Before every reply: does this look like the messages in the template above? "
    + "Same length? Same casing? Same punctuation feel? If not, rewrite it."
  const NeverSayLine: string := "NEVER say: \"Certainly!\", \"Of course!\", \"Great question!\", \"I'd be happy to\""
  const AiLine: string := "If asked if you're AI: \"i'm a model of you based on your texts. make of that what you will\""

  function Intro(): seq<string> {
    [Opening, "", Heading(StatsTitle)]
  }

  function Quote(m: string): string { "  \"" + m + "\"" }

  /** One indented, quoted line per message. */
  function QuoteLines(ms: seq<string>): (r: seq<string>)
    ensures |r| == |ms|
    ensures forall i :: 0 <= i < |ms| ==> r[i] == Quote(ms[i])
  {
    if ms == [] then [] else [Quote(ms[0])] + QuoteLines(ms[1..])
  }

  function Numbered(i: nat, e: string): string {
    NatToString(i + 1) + ". \"" + e + "\""
  }

  /** `memoryExcerpts.forEach((e, i) => ...)`: lines numbered from `from + 1`. */
  function NumberedLines(es: seq<string>, from: nat): (r: seq<string>)
    ensures |r| == |es|
    ensures forall i :: 0 <= i < |es| ==> r[i] == Numbered(from + i, es[i])
    decreases |es|
  {
    if es == [] then [] else [Numbered(from, es[0])] + NumberedLines(es[1..], from + 1)
  }

  function TemplateBlock(anchors: seq<string>): seq<string> {
    ["", Heading(TemplateTitle), StudyLine] + QuoteLines(anchors)
  }

  function ReactionBlock(reactions: seq<string>): seq<string> {
    if reactions == [] then [] else ["", Heading(ReactTitle)] + QuoteLines(reactions)
  }

  /** A titled, comma-joined list, present only when the list is not empty. */
  function ListBlock(title: string, items: seq<string>): seq<string> {
    if items == [] then [] else ["", Heading(title), Join(items, ", ")]
  }

  function MemoryBlock(excerpts: seq<string>): seq<string> {
    if excerpts == [] then []
    else ["", Heading(MemoryTitle)] + NumberedLines(excerpts, 0)
  }

  const SafetyLine: string := "SAFETY: if real crisis (self-harm, suicide), step out of character with genuine care"

  function Closing(mode: string): seq<string> {
    ["", Heading(CheckTitle), CheckLine, NeverSayLine, "MODE: " + mode, AiLine, SafetyLine]
  }

  /** The lines of the prompt. The catchphrases, humour style and bluntness
      the fingerprint carries are not rendered. */
  function CloneLines(fp: Fingerprint, memory: seq<string>, mode: string): seq<string> {
    Intro() + RuleLines(fp) + TemplateBlock(fp.styleAnchors) + ReactionBlock(fp.reactionExamples)
    + ListBlock(SlangTitle, fp.slang)
    + ListBlock(WordsTitle, Take(fp.topWords, 15))
    + ListBlock(TopicsTitle, fp.topicAffinity)
    + MemoryBlock(memory) + Closing(mode)
  }

  /** `buildCloneSystemPrompt`: the `parts` array filled by pushes and
      joined with newlines. */
  method BuildCloneSystemPrompt(fp: Fingerprint, memory: seq<string>, mode: string) returns (prompt: string)
    ensures prompt == Join(CloneLines(fp, memory, mode), "\n")
  {
    var parts := PushRules(Intro(), fp);
    parts := PushTemplate(parts, fp.styleAnchors);
    parts := PushReactions(parts, fp.reactionExamples);
    parts := PushLists(parts, fp);
    parts := PushMemory(parts, memory);
    parts := parts + Closing(mode);
    prompt := Join(parts, "\n");
  }

  /** The rule pushes: four fixed bullets and the optional ones. */
  method PushRules(parts0: seq<string>, fp: Fingerprint) returns (parts: seq<string>)
    ensures parts == parts0 + RuleLines(fp)
  {
    var exclam := ExclamationRule(fp.exclamationPct);
    ghost var rules := FixedRules(fp);
    parts := parts0 + FixedRules(fp);
    if exclam != "" {
      parts := parts + [Bullet + exclam];
    }
    PushedOptional(parts0, rules, exclam != "", Bullet + exclam);
    rules := rules + Optional(exclam != "", Bullet + exclam);
    if fp.ellipsisPct > 15 {
      parts := parts + [EllipsisLine(fp.ellipsisPct)];
    }
    PushedOptional(parts0, rules, fp.ellipsisPct > 15, EllipsisLine(fp.ellipsisPct));
    rules := rules + Optional(fp.ellipsisPct > 15, EllipsisLine(fp.ellipsisPct));
    if fp.questionPct > 20 {
      parts := parts + [QuestionLine(fp.questionPct)];
    }
    PushedOptional(parts0, rules, fp.questionPct > 20, QuestionLine(fp.questionPct));
  }

  /** `if (present) parts.push(line)` leaves the old lines plus
      `Optional(present, line)`. */
  lemma PushedOptional(parts0: seq<string>, done: seq<string>, present: bool, line: string)
    ensures parts0 + (done + Optional(present, line))
            == if present then parts0 + done + [line] else parts0 + done
  {
    AppendAssoc(parts0, done, Optional(present, line));
    if !present {
      assert done + [] == done;
    }
  }

  method PushTemplate(parts0: seq<string>, anchors: seq<string>) returns (parts: seq<string>)
    ensures parts == parts0 + TemplateBlock(anchors)
  {
    parts := parts0 + ["", Heading(TemplateTitle), StudyLine];
    parts := PushQuoted(parts, anchors);
    AppendAssoc(parts0, ["", Heading(TemplateTitle), StudyLine], QuoteLines(anchors));
  }

  method PushReactions(parts0: seq<string>, reactions: seq<string>) returns (parts: seq<string>)
    ensures parts == parts0 + ReactionBlock(reactions)
  {
    parts := parts0;
    if |reactions| > 0 {
      parts := parts + ["", Heading(ReactTitle)];
      parts := PushQuoted(parts, reactions);
      AppendAssoc(parts0, ["", Heading(ReactTitle)], QuoteLines(reactions));
    }
  }

  method PushMemory(parts0: seq<string>, memory: seq<string>) returns (parts: seq<string>)
    ensures parts == parts0 + MemoryBlock(memory)
  {
    parts := parts0;
    if |memory| > 0 {
      parts := parts + ["", Heading(MemoryTitle)];
      parts := PushNumbered(parts, memory);
      AppendAssoc(parts0, ["", Heading(MemoryTitle)], NumberedLines(memory, 0));
    }
  }

  /** The slang, top-word and topic blocks, each pushed when its list is not
      empty. */
  method PushLists(parts0: seq<string>, fp: Fingerprint) returns (parts: seq<string>)
    ensures parts == parts0 + ListBlock(SlangTitle, fp.slang) + ListBlock(WordsTitle, Take(fp.topWords, 15))
                     + ListBlock(TopicsTitle, fp.topicAffinity)
  {
    parts := parts0;
    if |fp.slang| > 0 {
      parts := parts + ["", Heading(SlangTitle), Join(fp.slang, ", ")];
    }
    if |fp.topWords| > 0 {
      parts := parts + ["", Heading(WordsTitle), Join(Take(fp.topWords, 15), ", ")];
    }
    if |fp.topicAffinity| > 0 {
      parts := parts + ["", Heading(TopicsTitle), Join(fp.topicAffinity, ", ")];
    }
  }

  /** `for (const m of ms) parts.push(`  "${m}"`)`. */
  method PushQuoted(parts0: seq<string>, ms: seq<string>) returns (parts: seq<string>)
    ensures parts == parts0 + QuoteLines(ms)
  {
    parts := parts0;
    for i := 0 to |ms|
      invariant parts == parts0 + QuoteLines(ms[..i])
    {
      parts := parts + [Quote(ms[i])];
      assert QuoteLines(ms[..i + 1]) == QuoteLines(ms[..i]) + [Quote(ms[i])];
    }
    assert ms[..|ms|] == ms;
  }

  /** `memoryExcerpts.forEach((e, i) => parts.push(`${i + 1}. "${e}"`))`. */
  method PushNumbered(parts0: seq<string>, es: seq<string>) returns (parts: seq<string>)
    ensures parts == parts0 + NumberedLines(es, 0)
  {
    parts := parts0;
    for i := 0 to |es|
      invariant parts == parts0 + NumberedLines(es[..i], 0)
    {
      parts := parts + [Numbered(i, es[i])];
      assert NumberedLines(es[..i + 1], 0) == NumberedLines(es[..i], 0) + [Numbered(i, es[i])];
    }
    assert es[..|es|] == es;
  }

  const DemoMode: string := "casual, direct " + "\U{2014}" + " like texting a friend. be real."

  /** `buildDemoSystemPrompt`: the clone prompt with a fixed casual mode. */
  method BuildDemoSystemPrompt(fp: Fingerprint, memory: seq<string>) returns (prompt: string)
    ensures prompt == Join(CloneLines(fp, memory, DemoMode), "\n")
  {
    prompt := BuildCloneSystemPrompt(fp, memory, DemoMode);
  }

  /** The capitalisation rule opens with ALWAYS exactly from 75% on, and
      with Usually exactly from 50% up to 75%. */
  lemma CapsRuleLead(p: nat)
    ensures StartsWith(CapsRule(p), "ALWAYS") <==> p >= 75
    ensures StartsWith(CapsRule(p), "Usually") <==> 50 <= p < 75
  {
    var r := CapsRule(p);
    if p >= 75 {
      assert r[..6] == "ALWAYS";
      assert r[0] != "Usually"[0];
    } else if p >= 50 {
      assert r[..7] == "Usually";
      assert r[0] != "ALWAYS"[0];
    } else {
      assert r[0] == 'C';
    }
  }

  /** The period rule opens with NEVER exactly up to 15%, with Rarely
      exactly above 15% up to 35%, and always states the share. */
  lemma PeriodRuleLead(p: nat)
    ensures StartsWith(PeriodRule(p), "NEVER") <==> p <= 15
    ensures StartsWith(PeriodRule(p), "Rarely") <==> 15 < p <= 35
    ensures Contains(PeriodRule(p), NatToString(p))
  {
    var r := PeriodRule(p);
    var n := NatToString(p);
    if p <= 15 {
      assert r[..5] == "NEVER";
      assert r[0] != "Rarely"[0];
      var a := "NEVER" + " end a message with a period. They only do it ";
      ContainsLast(a, n);
      ContainsExtend(a + n, n, "% of the time ");
      ContainsExtend(a + n + "% of the time ", n, Dash);
      ContainsExtend(a + n + "% of the time " + Dash, n, " treat it as basically never.");
    } else if p <= 35 {
      assert r[..6] == "Rarely";
      assert r[0] != "NEVER"[0];
      var a := "Rarely" + " use periods at the end (only ";
      ContainsLast(a, n);
      ContainsExtend(a + n, n, "% of their messages). Default to no period.");
    } else {
      assert r[0] == 'P';
      var a := "Periods" + " are used ";
      ContainsLast(a, n);
      ContainsExtend(a + n, n, "% of the time ");
      ContainsExtend(a + n + "% of the time ", n, Dash);
      ContainsExtend(a + n + "% of the time " + Dash, n, " use them occasionally.");
    }
  }

  /** The emoji rule: Zero below 3%, Almost below 10%, otherwise Uses. */
  lemma EmojiRuleLead(e: nat)
    ensures StartsWith(EmojiRule(e), "Zero") <==> e < 3
    ensures StartsWith(EmojiRule(e), "Almost") <==> 3 <= e < 10
    ensures StartsWith(EmojiRule(e), "Uses") <==> e >= 10
  {
    var r := EmojiRule(e);
    if e < 3 {
      assert r[..4] == "Zero";
    } else if e < 10 {
      assert r[..6] == "Almost";
    } else {
      assert r[..4] == "Uses";
    }
    assert r[0] == 'Z' <==> e < 3;
    assert r[0] == 'A' <==> 3 <= e < 10;
  }

  /** The exclamation rule is empty exactly from 15% on, and opens with
      Never exactly below 5%. */
  lemma ExclamationRuleCases(x: nat)
    ensures ExclamationRule(x) == "" <==> x >= 15
    ensures StartsWith(ExclamationRule(x), "Never") <==> x < 5
  {
    var r := ExclamationRule(x);
    if x < 5 {
      assert r[..5] == "Never";
    } else if x < 15 {
      assert r[0] == 'R';
    }
  }

  /** Four rule bullets always, a fifth below 15% exclamations, an ellipsis
      bullet above 15% and a question bullet above 20%. */
  lemma RuleLineCount(fp: Fingerprint)
    ensures |RuleLines(fp)| == 4 + (if fp.exclamationPct < 15 then 1 else 0)
              + (if fp.ellipsisPct > 15 then 1 else 0) + (if fp.questionPct > 20 then 1 else 0)
  {
    ExclamationRuleCases(fp.exclamationPct);
  }

  /** The length rule names the ceiling `min(50, 3 * avgWords)`. */
  lemma LengthRuleStatesCeiling(fp: Fingerprint)
    ensures Contains(LengthRule(fp), NatToString(LengthCeiling(fp.avgWords)))
  {
    var a := "Their median message is " + NatToString(fp.medianWords) + " words. Average is "
             + NatToString(fp.avgWords) + " words. " + NatToString(fp.shortMsgPct)
             + "% of messages are 5 words or fewer. Keep replies short " + Dash + " never exceed ";
    var n := NatToString(LengthCeiling(fp.avgWords));
    ContainsLast(a, n);
    ContainsExtend(a + n, n, " words unless genuinely necessary.");
  }

  /** The memory block is present exactly when there are excerpts; its
      i-th excerpt line reads `i+1. "excerpt"`. */
  lemma MemoryLinesNumbered(memory: seq<string>)
    ensures MemoryBlock(memory) == [] <==> memory == []
    ensures memory != [] ==> |MemoryBlock(memory)| == 2 + |memory|
    ensures memory != [] ==> forall i :: 0 <= i < |memory| ==>
              MemoryBlock(memory)[i + 2] == NatToString(i + 1) + ". \"" + memory[i] + "\""
  {
    if memory != [] {
      assert MemoryBlock(memory)[2..] == NumberedLines(memory, 0);
    }
  }

  /** The prompt ends with the mode line, the AI disclosure line and the
      safety rule, in that order. */
  lemma PromptEnding(fp: Fingerprint, memory: seq<string>, mode: string)
    ensures var lines := CloneLines(fp, memory, mode);
            |lines| >= 10 && lines[|lines| - 3] == "MODE: " + mode && lines[|lines| - 1] == SafetyLine
  {
    var front := Intro() + RuleLines(fp) + TemplateBlock(fp.styleAnchors) + ReactionBlock(fp.reactionExamples)
                 + ListBlock(SlangTitle, fp.slang)
                 + ListBlock(WordsTitle, Take(fp.topWords, 15))
                 + ListBlock(TopicsTitle, fp.topicAffinity)
                 + MemoryBlock(memory);
    var closing := Closing(mode);
    assert |front| >= 6;
    IndexInLast(front, closing, 4);
    IndexInLast(front, closing, 6);
  }

  /** How many lines the prompt has: each optional block adds its lines
      only when its list is not empty. */
  lemma PromptLineCount(fp: Fingerprint, memory: seq<string>, mode: string)
    ensures |CloneLines(fp, memory, mode)|
            == 3 + |RuleLines(fp)| + 3 + |fp.styleAnchors|
               + (if fp.reactionExamples == [] then 0 else 2 + |fp.reactionExamples|)
               + (if fp.slang == [] then 0 else 3)
               + (if fp.topWords == [] then 0 else 3)
               + (if fp.topicAffinity == [] then 0 else 3)
               + (if memory == [] then 0 else 2 + |memory|)
               + 7
  {
  }

  /** The style anchors appear quoted, one per line, in order, right after
      the template heading. */
  lemma AnchorsQuoted(fp: Fingerprint, memory: seq<string>, mode: string)
    ensures var lines := CloneLines(fp, memory, mode);
            var start := 6 + |RuleLines(fp)|;
            start + |fp.styleAnchors| <= |lines|
            && forall i :: 0 <= i < |fp.styleAnchors| ==> lines[start + i] == Quote(fp.styleAnchors[i])
  {
    var head := Intro() + RuleLines(fp) + TemplateBlock(fp.styleAnchors);
    forall i | 0 <= i < |fp.styleAnchors|
      ensures CloneLines(fp, memory, mode)[6 + |RuleLines(fp)| + i] == Quote(fp.styleAnchors[i])
    {
      IndexBeforeTail(head, ReactionBlock(fp.reactionExamples), ListBlock(SlangTitle, fp.slang),
                      ListBlock(WordsTitle, Take(fp.topWords, 15)), ListBlock(TopicsTitle, fp.topicAffinity),
                      MemoryBlock(memory), Closing(mode), 6 + |RuleLines(fp)| + i);
    }
  }

  /** Catchphrases, humour style and bluntness do not change the prompt. */
  lemma UnrenderedQuirks(fp: Fingerprint, memory: seq<string>, mode: string,
                         catchphrases: seq<string>, humor: string, bluntness: string)
    ensures CloneLines(fp.(catchphrases := catchphrases, humorStyle := humor, bluntness := bluntness), memory, mode)
            == CloneLines(fp, memory, mode)
  {
  }
}
