/** backend/src/routes/demo.ts `buildDemoSystemPrompt`: a fixed header,
    eight quirk lines, the memory excerpts when there are any, and fixed
    rules. */
module BackendDemoPrompt {
  import opened Wrappers
  import opened Strings
  import opened Sequences
  import opened ChatPrompt
  import ClonePrompt

  const Opening: string := "You are a digital clone of a real person \U{2014} built from their actual texts, notes, and messages. You ARE them."
  const MemoryTitle: string := "REAL THINGS THEY'VE SAID:"

  lemma MemoryTitleLength()
    ensures |MemoryTitle| == 25
  {
  }

  const Labels: seq<string> := [
    "Catchphrases: ", "Slang: ", "Pacing: ", "Humor: ", "Directness: ",
    "Topics they return to: ", "Punctuation style: ", "Emoji use: "]

  /** The eight quirks this prompt shows; empathy is not among them. */
  function Values(q: Quirks): (r: seq<Option<string>>)
    ensures |r| == 8
  {
    [Joined(q.catchphrases), Joined(q.slang), q.pacing, q.humorLevel, q.bluntness,
     Joined(q.commonTopics), q.punctuationStyle, q.emojiUsage]
  }

  function QuirkLines(q: Quirks): (r: seq<string>)
    ensures |r| == 8
  {
    seq(8, k requires 0 <= k < 8 => ClonePrompt.Bullet + Labels[k] + OrElse(Values(q)[k], NotAvailable))
  }

  const Rule0: string := "\U{2022} Talk exactly like this person \U{2014} match their length, punctuation, slang"
  const Rule1: string := "\U{2022} You're chatting with a stranger who wants to get to know you"
  const Rule2: string := "\U{2022} Be yourself \U{2014} don't be formal or assistant-like"
  const Rule3: string := "\U{2022} If asked if you're real: \"i mean\U{2026} kind of? i'm a model of a real person. rllyU built me\""
  const Rule4: string := "\U{2022} If asked who built you: \"rllyU \U{2014} you can build your own at rllyu.netlify.app\""
  const SafetyRule: string := "\U{2022} SAFETY: step out of character if there's a real crisis signal"

  function Header(styleSummary: string): seq<string> {
    [Opening, "", "THEIR VOICE:", styleSummary, "", "THEIR PATTERNS:"]
  }

  /** `if (memory.length)`: the block is pushed only for a non-empty list. */
  function MemoryBlock(memory: seq<string>): seq<string> {
    if memory == [] then [] else ["", MemoryTitle] + ClonePrompt.NumberedLines(memory, 0)
  }

  function Closing(): seq<string> {
    ["", "RULES:", Rule0, Rule1, Rule2, Rule3, Rule4, SafetyRule]
  }

  function DemoLines(styleSummary: string, q: Quirks, memory: seq<string>): seq<string> {
    Header(styleSummary) + QuirkLines(q) + MemoryBlock(memory) + Closing()
  }

  /** The lines pushed one by one and joined with newlines. */
  method BuildDemoSystemPrompt(styleSummary: string, q: Quirks, memory: seq<string>) returns (prompt: string)
    ensures prompt == Join(DemoLines(styleSummary, q, memory), "\n")
  {
    var lines := Header(styleSummary) + QuirkLines(q);
    ghost var front := lines;
    if |memory| > 0 {
      lines := lines + ["", MemoryTitle];
      lines := ClonePrompt.PushNumbered(lines, memory);
      AppendAssoc(front, ["", MemoryTitle], ClonePrompt.NumberedLines(memory, 0));
    } else {
      assert lines == front + MemoryBlock(memory);
    }
    lines := lines + Closing();
    prompt := Join(lines, "\n");
  }

  /** The style summary is the fourth line, verbatim; every quirk line
      shows its quirk when present and not empty and 'n/a' otherwise. */
  lemma DemoHeaderAndQuirks(styleSummary: string, q: Quirks, memory: seq<string>)
    ensures var lines := DemoLines(styleSummary, q, memory);
      |lines| >= 14 && lines[3] == styleSummary && lines[6..14] == QuirkLines(q)
    ensures forall k :: 0 <= k < 8 ==>
      (Values(q)[k] == None || Values(q)[k] == Some("") ==> QuirkLines(q)[k] == ClonePrompt.Bullet + Labels[k] + NotAvailable)
      && (Values(q)[k].Some? && Values(q)[k].value != "" ==>
            QuirkLines(q)[k] == ClonePrompt.Bullet + Labels[k] + Values(q)[k].value)
  {
    var lines := DemoLines(styleSummary, q, memory);
    var front := Header(styleSummary) + QuirkLines(q);
    assert lines == front + (MemoryBlock(memory) + Closing());
    assert front[6..14] == QuirkLines(q);
  }

  /** The memory title is there exactly when there is memory, and the
      i-th excerpt follows it as `i+1. "excerpt"`; the safety rule is
      last. */
  lemma DemoMemoryAndSafety(styleSummary: string, q: Quirks, memory: seq<string>)
    ensures var lines := DemoLines(styleSummary, q, memory);
      |lines| == 22 + (if memory == [] then 0 else 2 + |memory|)
      && (lines[15] == MemoryTitle <==> memory != [])
      && (forall i :: 0 <= i < |memory| ==> lines[16 + i] == ClonePrompt.Numbered(i, memory[i]))
      && lines[|lines| - 1] == SafetyRule
  {
    var lines := DemoLines(styleSummary, q, memory);
    var front := Header(styleSummary) + QuirkLines(q);
    if memory == [] {
      IndexInLast(front + MemoryBlock(memory), Closing(), 1);
      assert lines[15] == "RULES:";
      MemoryTitleLength();
    } else {
      var block := ["", MemoryTitle] + ClonePrompt.NumberedLines(memory, 0);
      AppendAssoc(front, block, Closing());
      IndexInLast(front, block + Closing(), 1);
      forall i | 0 <= i < |memory|
        ensures lines[16 + i] == ClonePrompt.Numbered(i, memory[i])
      {
        IndexInLast(front, block + Closing(), 2 + i);
      }
    }
    IndexInLast(front + MemoryBlock(memory), Closing(), 7);
  }
}

/** frontend/netlify/routes/demo.ts: the style anchors picked from the
    stored messages and its `buildDemoSystemPrompt`, which quotes them and
    uses its own defaults and optional blocks. */
module FrontendDemoPrompt {
  import opened Wrappers
  import opened Strings
  import opened Sequences
  import opened ChatPrompt
  import ClonePrompt

  /** At most this many anchors, each of at most this many words. */
  const MaxAnchors: nat := 8
  const MaxAnchorWords: nat := 12

  /** `m.text.split(' ').length <= 12`. */
  predicate ShortEnough(text: string) {
    |SplitOn(text, ' ')| <= MaxAnchorWords
  }

  /** `allMessages.filter(short).slice(0, 8).map(m => m.text)`. */
  function StyleAnchors(texts: seq<string>): seq<string> {
    Take(Filter(texts, ShortEnough), MaxAnchors)
  }

  /** The anchors are at most eight short texts, the first short ones in
      store order; fewer than eight only when there are no more. */
  lemma {:induction false} StyleAnchorsFirst(texts: seq<string>)
    ensures |StyleAnchors(texts)| <= MaxAnchors
    ensures forall i :: 0 <= i < |StyleAnchors(texts)| ==> ShortEnough(StyleAnchors(texts)[i])
    ensures StyleAnchors(texts) == Filter(texts, ShortEnough)[..|StyleAnchors(texts)|]
    ensures |StyleAnchors(texts)| < MaxAnchors ==> StyleAnchors(texts) == Filter(texts, ShortEnough)
  {
    FilterKeeps(texts);
  }

  lemma {:induction false} FilterKeeps(texts: seq<string>)
    ensures forall i :: 0 <= i < |Filter(texts, ShortEnough)| ==> ShortEnough(Filter(texts, ShortEnough)[i])
  {
    if texts != [] {
      FilterKeeps(texts[1..]);
    }
  }

  const Opening: string := "You are a digital clone of a real person. You ARE them \U{2014} not an assistant, not a bot, just them."
  const CopyLine: string := "These are real messages they sent. This is your writing style \U{2014} copy the formatting, capitalization, and energy verbatim:"
  const Observation0: string := "  - all lowercase, no capital at sentence start"
  const Observation1: string := "  - no period at end of messages"
  const Observation2: string := "  - short and punchy, like real texts"
  const Observation3: string := "  - direct questions, no fluff"
  const Format0: string := "\U{2022} Write in lowercase \U{2014} NEVER capitalize the first word of a sentence"
  const Format1: string := "\U{2022} No period at the end of casual messages"
  const Format2: string := "\U{2022} Max 2-3 sentences. Shorter is better"
  const Format3: string := "\U{2022} Sound like you're texting a friend, not writing an email"
  const Format4: string := "\U{2022} Never use \"Certainly!\", \"Of course!\", \"Great question!\", \"I'd be happy to\""
  const Special0: string := "\U{2022} If asked if you're real: \"i mean\U{2026} kind of? i'm a model of a real person. rllyU built me\""
  const Special1: string := "\U{2022} If asked who built you: \"rllyU \U{2014} you can build your own at rllyu.netlify.app\""
  const SafetyLine: string := "\U{2022} SAFETY ONLY: step out of character if there's a genuine crisis signal"

  const SlangLabel: string := "\U{2022} Slang to use naturally: "
  const HumorLabel: string := "\U{2022} Humor: "
  const EmojiLabel: string := "\U{2022} Emoji: "
  const NoSlang: string := "none specified"
  const PlainHumor: string := "dry/natural"
  const RareEmoji: string := "rare"

  const WhoHeading: string := ClonePrompt.Heading("WHO THEY ARE")
  const TypeHeading: string := ClonePrompt.Heading("HOW THEY ACTUALLY TYPE \U{2014} MATCH THIS EXACTLY")
  const FormatHeading: string := ClonePrompt.Heading("HARD FORMAT RULES (follow every single reply)")
  const MemoryHeading: string := ClonePrompt.Heading("RELEVANT THINGS THEY'VE SAID (for context/knowledge)")
  const PhrasesHeading: string := ClonePrompt.Heading("PHRASES THEY USE")
  const SpecialHeading: string := ClonePrompt.Heading("SPECIAL CASES")

  /** `list?.length` is truthy: the list is there and not empty. */
  predicate HasItems(list: Option<seq<string>>) {
    list.Some? && |list.value| > 0
  }

  /** `quirks.slang?.length ? quirks.slang.join(', ') : 'none specified'`. */
  function SlangText(q: Quirks): string {
    if HasItems(q.slang) then Join(q.slang.value, ", ") else NoSlang
  }

  function Intro(styleSummary: string): seq<string> {
    [Opening, "", WhoHeading, styleSummary, "", TypeHeading, CopyLine]
  }

  function Observations(): seq<string> {
    ["", "Key observations from above:", Observation0, Observation1, Observation2, Observation3]
  }

  function Header(styleSummary: string, anchors: seq<string>): (r: seq<string>)
    ensures |r| == 13 + |anchors|
  {
    Intro(styleSummary) + (ClonePrompt.QuoteLines(anchors) + Observations())
  }

  function FormatRules(q: Quirks): seq<string> {
    ["", FormatHeading, Format0, Format1, Format2, Format3, Format4,
     SlangLabel + SlangText(q),
     HumorLabel + OrElse(q.humorLevel, PlainHumor),
     EmojiLabel + OrElse(q.emojiUsage, RareEmoji)]
  }

  function MemoryBlock(memory: seq<string>): seq<string> {
    if memory == [] then [] else ["", MemoryHeading] + ClonePrompt.NumberedLines(memory, 0)
  }

  /** `if (quirks.catchphrases?.length)`: the phrases, comma-joined. */
  function PhrasesBlock(q: Quirks): seq<string> {
    if HasItems(q.catchphrases) then ["", PhrasesHeading, Join(q.catchphrases.value, ", ")] else []
  }

  function Closing(): seq<string> {
    ["", SpecialHeading, Special0, Special1, SafetyLine]
  }

  /** Everything after the quoted anchors and the observations. */
  function Body(q: Quirks, memory: seq<string>): seq<string> {
    FormatRules(q) + (MemoryBlock(memory) + (PhrasesBlock(q) + Closing()))
  }

  function DemoLines(styleSummary: string, q: Quirks, anchors: seq<string>, memory: seq<string>): seq<string> {
    Header(styleSummary, anchors) + Body(q, memory)
  }

  /** The lines pushed one by one and joined with newlines. */
  method BuildDemoSystemPrompt(styleSummary: string, q: Quirks, anchors: seq<string>, memory: seq<string>)
    returns (prompt: string)
    ensures prompt == Join(DemoLines(styleSummary, q, anchors, memory), "\n")
  {
    var lines := Intro(styleSummary) + ClonePrompt.QuoteLines(anchors) + Observations() + FormatRules(q);
    ghost var front := lines;
    if |memory| > 0 {
      lines := lines + ["", MemoryHeading];
      lines := ClonePrompt.PushNumbered(lines, memory);
      AppendAssoc(front, ["", MemoryHeading], ClonePrompt.NumberedLines(memory, 0));
    } else {
      assert lines == front + MemoryBlock(memory);
    }
    ghost var withMemory := lines;
    if q.catchphrases.Some? && |q.catchphrases.value| > 0 {
      lines := lines + ["", PhrasesHeading, Join(q.catchphrases.value, ", ")];
    } else {
      assert lines == withMemory + PhrasesBlock(q);
    }
    lines := lines + Closing();
    LinesRegrouped(Intro(styleSummary), ClonePrompt.QuoteLines(anchors), Observations(), FormatRules(q),
                   MemoryBlock(memory), PhrasesBlock(q), Closing());
    prompt := Join(lines, "\n");
  }

  /** The pushes build the lines left to right; the definition groups them
      from the right. */
  lemma LinesRegrouped<T>(a: seq<T>, b: seq<T>, c: seq<T>, d: seq<T>, e: seq<T>, f: seq<T>, g: seq<T>)
    ensures a + b + c + d + e + f + g == (a + (b + c)) + (d + (e + (f + g)))
  {
  }

  /** The summary is the fourth line and the i-th anchor is quoted on line
      7 + i, in order. */
  lemma SummaryAndAnchors(styleSummary: string, q: Quirks, anchors: seq<string>, memory: seq<string>)
    ensures var lines := DemoLines(styleSummary, q, anchors, memory);
      |lines| >= 23 + |anchors|
      && lines[3] == styleSummary
      && forall i :: 0 <= i < |anchors| ==> lines[7 + i] == ClonePrompt.Quote(anchors[i])
  {
    var intro := Intro(styleSummary);
    var rest := ClonePrompt.QuoteLines(anchors) + Observations();
    var body := Body(q, memory);
    IndexInFront(intro + rest, body, 3);
    IndexInFront(intro, rest, 3);
    forall i | 0 <= i < |anchors|
      ensures (intro + rest + body)[7 + i] == ClonePrompt.Quote(anchors[i])
    {
      IndexInFront(intro + rest, body, 7 + i);
      IndexInLast(intro, rest, i);
      IndexInFront(ClonePrompt.QuoteLines(anchors), Observations(), i);
    }
  }

  /** The slang line falls back to 'none specified' exactly when there is
      no slang list or it is empty; humour and emoji fall back to
      'dry/natural' and 'rare' when missing or empty. */
  lemma FormatDefaults(q: Quirks)
    ensures !HasItems(q.slang) ==> SlangText(q) == NoSlang
    ensures HasItems(q.slang) ==> SlangText(q) == Join(q.slang.value, ", ")
    ensures q.humorLevel == None || q.humorLevel == Some("") ==> OrElse(q.humorLevel, PlainHumor) == PlainHumor
    ensures q.humorLevel.Some? && q.humorLevel.value != "" ==> OrElse(q.humorLevel, PlainHumor) == q.humorLevel.value
    ensures q.emojiUsage == None || q.emojiUsage == Some("") ==> OrElse(q.emojiUsage, RareEmoji) == RareEmoji
    ensures q.emojiUsage.Some? && q.emojiUsage.value != "" ==> OrElse(q.emojiUsage, RareEmoji) == q.emojiUsage.value
  {
  }

  /** The slang, humour and emoji lines close the format rules, right
      after the quoted anchors and the observations. */
  lemma FormatLinesPlaced(styleSummary: string, q: Quirks, anchors: seq<string>, memory: seq<string>)
    ensures var lines := DemoLines(styleSummary, q, anchors, memory);
      var n := 13 + |anchors|;
      |lines| >= n + 10
      && lines[n + 7] == SlangLabel + SlangText(q)
      && lines[n + 8] == HumorLabel + OrElse(q.humorLevel, PlainHumor)
      && lines[n + 9] == EmojiLabel + OrElse(q.emojiUsage, RareEmoji)
  {
    var head := Header(styleSummary, anchors);
    var rest := MemoryBlock(memory) + (PhrasesBlock(q) + Closing());
    for k := 7 to 10
      invariant forall j :: 7 <= j < k ==> (head + (FormatRules(q) + rest))[|head| + j] == FormatRules(q)[j]
    {
      IndexInLast(head, FormatRules(q) + rest, k);
      IndexInFront(FormatRules(q), rest, k);
    }
  }

  /** The memory heading follows the format rules exactly when there is
      memory, with the i-th excerpt numbered i+1 after it. */
  lemma MemoryBlockPresence(styleSummary: string, q: Quirks, anchors: seq<string>, memory: seq<string>)
    ensures var lines := DemoLines(styleSummary, q, anchors, memory);
      var n := 23 + |anchors|;
      |lines| > n + 1
      && (lines[n + 1] == MemoryHeading <==> memory != [])
      && forall i :: 0 <= i < |memory| ==> lines[n + 2 + i] == ClonePrompt.Numbered(i, memory[i])
  {
    var head := Header(styleSummary, anchors);
    var tail := MemoryBlock(memory) + (PhrasesBlock(q) + Closing());
    IndexInLast(head, FormatRules(q) + tail, 11);
    IndexInLast(FormatRules(q), tail, 1);
    if memory == [] {
      assert tail == PhrasesBlock(q) + Closing();
      if HasItems(q.catchphrases) {
        IndexInFront(PhrasesBlock(q), Closing(), 1);
      } else {
        assert tail == Closing();
      }
      HeadingsDiffer();
    } else {
      IndexInFront(MemoryBlock(memory), PhrasesBlock(q) + Closing(), 1);
      forall i | 0 <= i < |memory|
        ensures (head + (FormatRules(q) + tail))[|head| + 12 + i] == ClonePrompt.Numbered(i, memory[i])
      {
        IndexInLast(head, FormatRules(q) + tail, 12 + i);
        IndexInLast(FormatRules(q), tail, 2 + i);
        IndexInFront(MemoryBlock(memory), PhrasesBlock(q) + Closing(), 2 + i);
        IndexInLast(["", MemoryHeading], ClonePrompt.NumberedLines(memory, 0), i);
      }
    }
  }

  /** The phrases block adds three lines exactly when there are
      catchphrases, just before the five closing lines, with the joined
      phrases after its heading; the safety line is last. */
  lemma PhrasesBlockPresence(styleSummary: string, q: Quirks, anchors: seq<string>, memory: seq<string>)
    ensures var lines := DemoLines(styleSummary, q, anchors, memory);
      |lines| == 28 + |anchors| + (if memory == [] then 0 else 2 + |memory|)
                 + (if HasItems(q.catchphrases) then 3 else 0)
      && (HasItems(q.catchphrases) ==>
            lines[|lines| - 7] == PhrasesHeading && lines[|lines| - 6] == Join(q.catchphrases.value, ", "))
      && lines[|lines| - 1] == SafetyLine
  {
    var head := Header(styleSummary, anchors);
    var rules := FormatRules(q);
    var mem := MemoryBlock(memory);
    var tail := PhrasesBlock(q) + Closing();
    PhrasesAt(head, rules, mem, PhrasesBlock(q), Closing(), |PhrasesBlock(q)| + 4);
    if HasItems(q.catchphrases) {
      PhrasesAt(head, rules, mem, PhrasesBlock(q), Closing(), 1);
      PhrasesAt(head, rules, mem, PhrasesBlock(q), Closing(), 2);
    }
  }

  /** Reading the k-th line of the last two blocks through the grouping
      the definition uses. */
  lemma PhrasesAt<T>(head: seq<T>, rules: seq<T>, mem: seq<T>, p: seq<T>, c: seq<T>, k: int)
    requires 0 <= k < |p| + |c|
    ensures (head + (rules + (mem + (p + c))))[|head| + |rules| + |mem| + k] == (p + c)[k]
  {
    IndexInLast(head, rules + (mem + (p + c)), |rules| + |mem| + k);
    IndexInLast(rules, mem + (p + c), |mem| + k);
    IndexInLast(mem, p + c, k);
  }

  /** The three optional-block headings and the special-cases heading are
      told apart by their lengths. */
  lemma HeadingsDiffer()
    ensures MemoryHeading != SpecialHeading && MemoryHeading != PhrasesHeading
    ensures PhrasesHeading != SpecialHeading
  {
    assert |MemoryHeading| == 58;
    assert |PhrasesHeading| == 22;
    assert |SpecialHeading| == 19;
  }
}
