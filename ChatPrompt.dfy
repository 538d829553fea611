/** The chat route's `buildSystemPrompt`, its mode lookup and the list of
    messages it sends to the model. backend/src/routes/ai.ts and
    frontend/netlify/routes/ai.ts hold the same code. */
module ChatPrompt {
  import opened Wrappers
  import opened Strings
  import opened Sequences
  import ClonePrompt
  import OpenAi

  /** `CloneQuirks` as `JSON.parse` gives it back: any field may be missing. */
  datatype Quirks = Quirks(
    catchphrases: Option<seq<string>>,
    slang: Option<seq<string>>,
    pacing: Option<string>,
    humorLevel: Option<string>,
    bluntness: Option<string>,
    empathy: Option<string>,
    commonTopics: Option<seq<string>>,
    punctuationStyle: Option<string>,
    emojiUsage: Option<string>)

  const NoQuirks: Quirks := Quirks(None, None, None, None, None, None, None, None, None)

  /** `v || fallback` for a string that may be undefined: undefined and the
      empty string are both falsy. */
  function OrElse(v: Option<string>, fallback: string): string {
    if v.Some? && v.value != "" then v.value else fallback
  }

  /** `list?.join(', ')`. */
  function Joined(list: Option<seq<string>>): Option<string> {
    match list
    case Some(items) => Some(Join(items, ", "))
    case None => None
  }

  /** The nine quirk values in the order the prompt lists them. */
  function QuirkValues(q: Quirks): (r: seq<Option<string>>)
    ensures |r| == 9
  {
    [Joined(q.catchphrases), Joined(q.slang), q.pacing, q.humorLevel, q.bluntness,
     q.empathy, Joined(q.commonTopics), q.punctuationStyle, q.emojiUsage]
  }

  const Labels: seq<string> := [
    "Catchphrases you actually use: ", "Your slang: ", "How you pace messages: ",
    "Your humor: ", "How direct you are: ", "Empathy style: ",
    "Topics you return to: ", "Punctuation/caps: ", "Emoji usage: "]

  const NoneDetected: string := "none detected"
  const NotAvailable: string := "n/a"

  /** What a quirk shows when it is missing or empty. */
  function Fallback(k: nat): (r: string)
    ensures r == NoneDetected <==> k == 0
    ensures r == NotAvailable <==> k != 0
  {
    assert NoneDetected[0] == 'n' && NotAvailable[1] == '/' && NoneDetected[1] == 'o';
    if k == 0 then NoneDetected else NotAvailable
  }

  function QuirkLine(q: Quirks, k: nat): string
    requires k < 9
  {
    ClonePrompt.Bullet + Labels[k] + OrElse(QuirkValues(q)[k], Fallback(k))
  }

  function QuirkLines(q: Quirks): (r: seq<string>)
    ensures |r| == 9
  {
    seq(9, k requires 0 <= k < 9 => QuirkLine(q, k))
  }

  const Opening: string := "You are a digital clone \U{2014} a model built from someone's real text messages. You ARE them, or as close as a model can get."
  const VoiceTitle: string := "YOUR VOICE & PERSONALITY:"
  const PatternsTitle: string := "YOUR SPECIFIC PATTERNS:"
  /** Written as the title and its parenthesis: the verifier reads the
      first letter of a short literal directly, not of a long one. */
  const MemoryTitle: string := "ACTUAL THINGS YOU'VE SAID" + " (real memory excerpts):"
  const RulesTitle: string := "RULES:"
  const SafetyRule: string := "\U{2022} SAFETY: if conversation suggests real crisis (self-harm, suicide), step out of character and respond with genuine care"

  function Header(styleSummary: string): seq<string> {
    [Opening, "", VoiceTitle, styleSummary, "", PatternsTitle]
  }

  function MemoryBlock(excerpts: seq<string>): seq<string> {
    if excerpts == [] then [] else ["", MemoryTitle] + ClonePrompt.NumberedLines(excerpts, 0)
  }

  function ModeLine(instruction: string): string {
    "MODE: " + instruction
  }

  const Rule0: string := "\U{2022} Respond as this person would \U{2014} match their actual length, tone, punctuation habits"
  const Rule1: string := "\U{2022} Use their slang naturally, not forcedly"
  const Rule2: string := "\U{2022} You're talking to the real person you're modeled on \U{2014} they want to see themselves"
  const Rule3: string := "\U{2022} Be occasionally, uncomfortably accurate. That's the point."
  const Rule4: string := "\U{2022} Never be formal, corporate, or assistant-like"
  const Rule5: string := "\U{2022} If asked if you're AI/real: \"i'm a model of you based on your texts. make of that what you will\""

  function Rules(): seq<string> {
    [Rule0, Rule1, Rule2, Rule3, Rule4, Rule5, SafetyRule]
  }

  function Closing(instruction: string): seq<string> {
    ["", ModeLine(instruction), "", RulesTitle] + Rules()
  }

  /** The lines of the prompt, before they are joined. */
  function ChatLines(styleSummary: string, q: Quirks, excerpts: seq<string>, instruction: string): seq<string> {
    Header(styleSummary) + QuirkLines(q) + MemoryBlock(excerpts) + Closing(instruction)
  }

  /** `buildSystemPrompt`: the fixed lines, the memory lines pushed one by
      one, then the closing lines, joined with newlines. */
  method BuildSystemPrompt(styleSummary: string, q: Quirks, excerpts: seq<string>, instruction: string)
    returns (prompt: string)
    ensures prompt == Join(ChatLines(styleSummary, q, excerpts, instruction), "\n")
  {
    var parts := Header(styleSummary) + QuirkLines(q);
    ghost var front := parts;
    if |excerpts| > 0 {
      parts := parts + ["", MemoryTitle];
      parts := ClonePrompt.PushNumbered(parts, excerpts);
      AppendAssoc(front, ["", MemoryTitle], ClonePrompt.NumberedLines(excerpts, 0));
    } else {
      assert parts == front + MemoryBlock(excerpts);
    }
    parts := parts + Closing(instruction);
    prompt := Join(parts, "\n");
  }

  /** How many lines the prompt has: six header lines, nine quirk lines,
      the memory block only when there are excerpts, and eleven closing
      lines. */
  lemma LineCount(styleSummary: string, q: Quirks, excerpts: seq<string>, instruction: string)
    ensures |ChatLines(styleSummary, q, excerpts, instruction)|
            == 15 + (if excerpts == [] then 0 else 2 + |excerpts|) + 11
  {
  }

  /** The header comes first and the style summary is its fourth line,
      verbatim. */
  lemma SummaryVerbatim(styleSummary: string, q: Quirks, excerpts: seq<string>, instruction: string)
    ensures ChatLines(styleSummary, q, excerpts, instruction)[..6] == Header(styleSummary)
    ensures ChatLines(styleSummary, q, excerpts, instruction)[3] == styleSummary
  {
    var lines := ChatLines(styleSummary, q, excerpts, instruction);
    var head := Header(styleSummary);
    AppendAssoc(head, QuirkLines(q), MemoryBlock(excerpts));
    AppendAssoc(head, QuirkLines(q) + MemoryBlock(excerpts), Closing(instruction));
    assert lines == head + (QuirkLines(q) + MemoryBlock(excerpts) + Closing(instruction));
  }

  /** The nine quirk lines follow the header, in order. */
  lemma QuirkLinesFollowHeader(styleSummary: string, q: Quirks, excerpts: seq<string>, instruction: string)
    ensures ChatLines(styleSummary, q, excerpts, instruction)[6..15] == QuirkLines(q)
  {
    var front := Header(styleSummary) + QuirkLines(q);
    SliceInFront(front + MemoryBlock(excerpts), Closing(instruction), 6, 15);
    SliceInFront(front, MemoryBlock(excerpts), 6, 15);
    SliceOfLast(Header(styleSummary), QuirkLines(q));
  }

  /** The k-th quirk line shows the quirk when it is present and not empty,
      and otherwise 'none detected' for the catchphrases and 'n/a' for every
      other quirk; the value shown is never empty. */
  lemma QuirkShown(q: Quirks, k: nat)
    requires k < 9
    ensures exists v: string ::
      (v != ""
       && QuirkLines(q)[k] == ClonePrompt.Bullet + Labels[k] + v
       && (QuirkValues(q)[k].Some? && QuirkValues(q)[k].value != "" ==> v == QuirkValues(q)[k].value)
       && (QuirkValues(q)[k] == None || QuirkValues(q)[k] == Some("") ==> v == Fallback(k)))
  {
    var v := OrElse(QuirkValues(q)[k], Fallback(k));
    assert Fallback(k) != "" by {
      assert |NoneDetected| > 0 && |NotAvailable| > 0;
    }
    assert QuirkLines(q)[k] == ClonePrompt.Bullet + Labels[k] + v;
  }

  /** A missing list and an empty one render alike, and so do a missing
      string and an empty one. */
  lemma MissingIsEmpty(q: Quirks)
    ensures QuirkLines(q.(catchphrases := Some([]))) == QuirkLines(q.(catchphrases := None))
    ensures QuirkLines(q.(slang := Some([]))) == QuirkLines(q.(slang := None))
    ensures QuirkLines(q.(commonTopics := Some([]))) == QuirkLines(q.(commonTopics := None))
    ensures QuirkLines(q.(pacing := Some(""))) == QuirkLines(q.(pacing := None))
    ensures QuirkLines(q.(emojiUsage := Some(""))) == QuirkLines(q.(emojiUsage := None))
  {
  }

  /** With no quirks at all, the catchphrase line says 'none detected' and
      every other quirk line says 'n/a'. */
  lemma NoQuirksDefaults()
    ensures QuirkLines(NoQuirks)[0] == ClonePrompt.Bullet + Labels[0] + NoneDetected
    ensures forall k :: 1 <= k < 9 ==> QuirkLines(NoQuirks)[k] == ClonePrompt.Bullet + Labels[k] + NotAvailable
  {
  }

  /** The memory title is there exactly when there are excerpts, and the
      i-th excerpt follows it as `i+1. "excerpt"`. */
  lemma MemoryNumbered(styleSummary: string, q: Quirks, excerpts: seq<string>, instruction: string)
    ensures ChatLines(styleSummary, q, excerpts, instruction)[16] == MemoryTitle <==> excerpts != []
    ensures forall i :: 0 <= i < |excerpts| ==>
      ChatLines(styleSummary, q, excerpts, instruction)[17 + i] == ClonePrompt.Numbered(i, excerpts[i])
  {
    var lines := ChatLines(styleSummary, q, excerpts, instruction);
    var front := Header(styleSummary) + QuirkLines(q);
    assert lines == front + MemoryBlock(excerpts) + Closing(instruction);
    if excerpts == [] {
      IndexInLast(front + MemoryBlock(excerpts), Closing(instruction), 1);
      assert lines[16] == ModeLine(instruction);
      assert ModeLine(instruction)[0] == 'M' && MemoryTitle[0] == 'A';
    } else {
      var block := ["", MemoryTitle] + ClonePrompt.NumberedLines(excerpts, 0);
      AppendAssoc(front, block, Closing(instruction));
      assert lines == front + (block + Closing(instruction));
      IndexInLast(front, block + Closing(instruction), 1);
      forall i | 0 <= i < |excerpts|
        ensures lines[17 + i] == ClonePrompt.Numbered(i, excerpts[i])
      {
        IndexInLast(front, block + Closing(instruction), 2 + i);
      }
    }
  }

  /** The mode line, ten lines from the end, carries the instruction
      verbatim, and the safety rule is the last line. */
  lemma ModeAndSafety(styleSummary: string, q: Quirks, excerpts: seq<string>, instruction: string)
    ensures var lines := ChatLines(styleSummary, q, excerpts, instruction);
      |lines| >= 11 && lines[|lines| - 10] == ModeLine(instruction) && lines[|lines| - 1] == SafetyRule
  {
    var front := Header(styleSummary) + QuirkLines(q) + MemoryBlock(excerpts);
    IndexInLast(front, Closing(instruction), 1);
    IndexInLast(front, Closing(instruction), 10);
  }

  const RawInstruction: string := "Be completely unfiltered. Use their real voice, raw and unedited."
  const SoftInstruction: string := "Slightly warmer tone, but still unmistakably them."
  const ColdInstruction: string := "Minimal, dry, almost disengaged. Still authentic."

  /** The three instructions have different lengths. */
  lemma InstructionLengths()
    ensures |RawInstruction| == 65 && |SoftInstruction| == 50 && |ColdInstruction| == 49
  {
  }

  /** `modeInstructions[mode] ?? modeInstructions.raw`: soft and cold pick
      their own instruction, raw and every other mode the raw one. */
  function ModeInstruction(mode: string): (r: string)
    ensures r == SoftInstruction <==> mode == "soft"
    ensures r == ColdInstruction <==> mode == "cold"
    ensures r == RawInstruction <==> mode != "soft" && mode != "cold"
  {
    InstructionLengths();
    if mode == "raw" then RawInstruction
    else if mode == "soft" then SoftInstruction
    else if mode == "cold" then ColdInstruction
    else RawInstruction
  }

  /** A stored chat message: `role` is 'user' or 'clone'. */
  datatype Stored = Stored(role: string, content: string)

  datatype Role = System | User | Assistant
  datatype Turn = Turn(role: Role, content: string)

  /** `m.role === 'clone' ? 'assistant' : 'user'`. */
  function AsTurn(m: Stored): Turn {
    Turn(if m.role == "clone" then Assistant else User, m.content)
  }

  /** Each stored message keeps its content and becomes an assistant turn
      exactly when the clone wrote it; none becomes a system turn. */
  function AsTurns(ms: seq<Stored>): (r: seq<Turn>)
    ensures |r| == |ms|
    ensures forall i :: 0 <= i < |ms| ==>
      r[i].content == ms[i].content && r[i].role != System
      && (r[i].role == Assistant <==> ms[i].role == "clone")
  {
    seq(|ms|, i requires 0 <= i < |ms| => AsTurn(ms[i]))
  }

  /** How many of the latest history messages the chat route keeps. */
  const HistoryWindow: nat := 18

  /** The messages sent to the model: the system prompt, the last 18
      history messages, the new message. */
  function ChatContext(systemPrompt: string, history: seq<Stored>, message: string): seq<Turn> {
    [Turn(System, systemPrompt)] + AsTurns(TakeLast(history, HistoryWindow)) + [Turn(User, message)]
  }

  /** The system prompt opens the context and the new message closes it;
      between them are the latest min(18, |history|) stored messages, in
      order. */
  lemma ContextShape(systemPrompt: string, history: seq<Stored>, message: string)
    ensures var ctx := ChatContext(systemPrompt, history, message);
      var n := if |history| < HistoryWindow then |history| else HistoryWindow;
      |ctx| == n + 2
      && ctx[0] == Turn(System, systemPrompt)
      && ctx[|ctx| - 1] == Turn(User, message)
      && ctx[1..|ctx| - 1] == AsTurns(history[|history| - n..])
  {
    var ctx := ChatContext(systemPrompt, history, message);
    var mid := AsTurns(TakeLast(history, HistoryWindow));
    assert ctx == [Turn(System, systemPrompt)] + mid + [Turn(User, message)];
    assert ctx[1..|ctx| - 1] == mid;
  }

  /** At most 18 history messages plus the system prompt and the new
      message: the context never exceeds the limit of 20 messages. */
  lemma ContextWithinLimit(systemPrompt: string, history: seq<Stored>, message: string)
    ensures |ChatContext(systemPrompt, history, message)| <= OpenAi.MaxContextMessages
  {
  }
}
