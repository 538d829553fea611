# rllyU core in Dafny

rllyU builds a "clone" of a person from their own text messages. It reads an
export (JSON lines, a JSON array, CSV or a plain chat log) and removes
duplicates by hashing each message. It keeps the messages of the dominant
author and measures their style into a voice fingerprint. Past messages are
indexed with TF-IDF so the relevant ones can be recalled, and each reply is
answered through a system prompt assembled from all of this. A crisis
detector pre-empts the model whenever a message signals self-harm. A public
demo keeps per-visitor chat sessions in an in-memory map.

This project models that core and proves properties of the model:

| module | models |
|---|---|
| `Messages`, `Hashing`, `Jsonl`, `Csv`, `ChatLog`, `Ingestion`, `AuthorFilter`, `Tally` | `backend/src/lib/ingestion.ts` (and its copy `frontend/netlify/lib/ingestion.ts`): hashing, the four parsers, format detection, the dominant-author filter |
| `VoiceFingerprint`, `FingerprintLaws`, `ClonePrompt` | `frontend/netlify/lib/voice-fingerprint.ts`: the fingerprint statistics and the clone prompt built from them |
| `Rag`, `RagLaws` | `backend/src/lib/rag.ts` (and `frontend/netlify/lib/rag.ts`): tokenizer, the `TfIdfIndex` class, `searchMemory` |
| `Safety` | `frontend/netlify/lib/safety.ts`: the eight crisis patterns and the crisis response |
| `OpenAi` | `backend/src/lib/openai.ts`: `trimToTokens` and the context constants |
| `ChatPrompt` | `backend/src/routes/ai.ts` (and `frontend/netlify/routes/ai.ts`): `buildSystemPrompt`, the mode lookup, the chat context |
| `Demo`, `BackendDemoPrompt`, `FrontendDemoPrompt` | `backend/src/routes/demo.ts` and `frontend/netlify/routes/demo.ts`: the session map, the chat and first-message handlers, both demo prompt builders, the style anchors |
| `Strings`, `Sequences`, `Sorting`, `Wrappers` | the JavaScript string and array operations the code relies on (`trim`, `split`, `join`, `slice`, `filter`, a stable `sort`) |

Some of what the code calls is not visible as source: `JSON.parse`,
`JSON.stringify`, `String(v)`, `new Date(v)`, the three timestamped chat-log
regexes, SHA-256, `Math.log` and `\p{Emoji_Presentation}`. Each of these is a
function-valued parameter. Where a proof needs a property of one, it is stated
as a precondition. Examples are `BodiesAreSuffixes` (every timestamped pattern
ends in `(.+)$`) and `LogNonNegative` (`Math.log(x) >= 0` for `x >= 1`).

Stateful code is imperative, as it is in the source:
- `Rag.TfIdfIndex` is a class with the fields `docs`, `idf` and `built`.
- `Demo.Sessions` is a class over the session map.
- The parsers, counters and prompt builders are methods with loops.

Each of these is proved equal to a specification function, and the
properties are proved about that function.

In
`backend/src/lib/ingestion.ts:198` a comment says the dominant author must hold
more than 40% of the messages, but the code at line 206 uses 0.3. The model
follows the code: an author dominates when `10 * max >= 3 * total`.

## Model

| member | source | states |
|---|---|---|
| Hashing.HashMessage | backend/src/lib/ingestion.ts:5-9 | the hash is 32 characters, the leading part of the SHA-256 hex digest of the canonical key |
| Hashing.HashIgnoresSurroundingSpace | backend/src/lib/ingestion.ts:7 | two texts that trim to the same string hash alike |
| Hashing.HashSameMinute | backend/src/lib/ingestion.ts:6 | two timestamps in the same minute give the same hash |
| Hashing.HashKeyDefaults | backend/src/lib/ingestion.ts:6-7 | a missing author keys like the empty author; a missing timestamp keys like one in the first minute of the epoch |
| Hashing.HashKeySeparatesMinutes | backend/src/lib/ingestion.ts:6-7 | timestamps in different minutes give different keys |
| Messages.TrimmedLines | backend/src/lib/ingestion.ts:43 | the kept lines are trimmed and non-empty, and there are no more of them than input lines |
| Jsonl.FirstKey | backend/src/lib/ingestion.ts:24-29 | the chosen key is the first candidate present in the object; none is chosen only when no candidate is present |
| Jsonl.JsonlRecord | backend/src/lib/ingestion.ts:20-34 | a line yields a record only with a non-empty, trimmed text |
| Jsonl.ParseJsonl | backend/src/lib/ingestion.ts:17-40 | the loop returns exactly the records of the newline-separated lines |
| Jsonl.JsonlAtMostOnePerLine | backend/src/lib/ingestion.ts:19-38 | there are never more records than non-blank lines |
| Jsonl.JsonlOnePerLine | backend/src/lib/ingestion.ts:19-38 | when every non-blank line parses to a record, there is exactly one record per non-blank line |
| Jsonl.JsonlKeepsOrder | backend/src/lib/ingestion.ts:19-38 | the records of two concatenated line lists are the records of the first followed by those of the second |
| Jsonl.JsonlTextsTrimmed | backend/src/lib/ingestion.ts:26-27 | every JSONL record's text is non-empty and trimmed |
| Csv.SplitCsvLine | backend/src/lib/ingestion.ts:69-86 | the character loop returns exactly the fields of the quote-aware split |
| Csv.SplitCsvFieldCount | backend/src/lib/ingestion.ts:69-86 | there is one field more than there are commas outside quotes |
| Csv.SplitCsvFieldsHaveNoQuotes | backend/src/lib/ingestion.ts:75-76 | no field contains a double quote |
| Csv.SplitCsvJoinDropsQuotes | backend/src/lib/ingestion.ts:69-86 | joining the fields with commas gives back the line with its double quotes removed |
| Csv.SplitCsvWithoutQuotes | backend/src/lib/ingestion.ts:77-79 | a line without quotes splits exactly at its commas |
| Csv.QuotedFieldKeepsCommas | backend/src/lib/ingestion.ts:75-77 | a quoted run is glued to its field whole, commas included |
| Csv.DoubledQuoteIsDropped | backend/src/lib/ingestion.ts:75-76 | `"a""b"` is the single field `ab` |
| Csv.TwoQuotedFields | backend/src/lib/ingestion.ts:69-86 | two quoted fields separated by a comma split into exactly those two fields |
| Csv.HeaderNames | backend/src/lib/ingestion.ts:48 | each header cell is normalised on its own, one name per cell |
| Csv.FindIndex | backend/src/lib/ingestion.ts:50-53 | the result is the first header among the keys, or -1 exactly when no header is |
| Csv.CreatedAtNeverMatches | backend/src/lib/ingestion.ts:15 | a lower-cased header can never equal the camel-case key `createdAt` |
| Csv.CsvRecord | backend/src/lib/ingestion.ts:58-64 | a row yields a record only with a non-empty trimmed text, and its author is absent or non-empty |
| Csv.ParseCsv | backend/src/lib/ingestion.ts:42-67 | the parser returns exactly the specified CSV records |
| Csv.RowRecord | backend/src/lib/ingestion.ts:57-64 | one data row gives exactly the specified record: none without text, an author only when its cell is non-empty |
| Csv.ParseCsvRows | backend/src/lib/ingestion.ts:56-65 | the row loop returns exactly the records of the data rows, in order |
| Csv.CsvNeedsHeaderAndText | backend/src/lib/ingestion.ts:43-51 | fewer than two non-blank lines, or no text column in the header, give no records |
| Csv.CsvRecordsWellFormed | backend/src/lib/ingestion.ts:58-62 | every CSV record has a non-empty trimmed text and an absent or non-empty author |
| Csv.CsvRowsWellFormed | backend/src/lib/ingestion.ts:56-65 | the same holds for every row list and column choice |
| ChatLog.MatchName | backend/src/lib/ingestion.ts:97 | a match gives a name of 1 to 26 letters and spaces starting with a letter, followed by a colon, and a non-empty single-line body that ends the line |
| ChatLog.MatchNameAccepts | backend/src/lib/ingestion.ts:97 | every `Name: body` line of that shape is matched with exactly that name and body |
| ChatLog.MatchNameRejectsLink | backend/src/lib/ingestion.ts:97 | a bare link such as `https://example.com` is not taken for a named line |
| ChatLog.FirstStamped | backend/src/lib/ingestion.ts:108-123 | a match comes from one of the three timestamped patterns, tried in order |
| ChatLog.StampedRecord | backend/src/lib/ingestion.ts:111-119 | a timestamped line always yields an author |
| ChatLog.PlainRecord | backend/src/lib/ingestion.ts:104-137 | an unmatched line becomes an authorless record only when longer than 2 characters; a line is dropped only when it is that short |
| ChatLog.ParseLine | backend/src/lib/ingestion.ts:104-137 | the pattern loop gives exactly the specified record for a line |
| ChatLog.ParseLines | backend/src/lib/ingestion.ts:102-138 | the line loop returns exactly the records of the given lines, in order |
| ChatLog.ParsePlainText | backend/src/lib/ingestion.ts:100-141 | the parser returns exactly the records of the trimmed non-blank lines |
| ChatLog.PlainRecordWellFormed | backend/src/lib/ingestion.ts:104-137 | a trimmed non-empty line yields a record whose text is non-empty and trimmed |
| ChatLog.PlainRecordsWellFormed | backend/src/lib/ingestion.ts:100-141 | every chat-log record has a non-empty trimmed text |
| Ingestion.Stringified | backend/src/lib/ingestion.ts:164 | one stringified line per array element, in order |
| Ingestion.ParseRawInput | backend/src/lib/ingestion.ts:149-180 | format detection returns exactly the specified messages: JSONL, then JSON array, then CSV, then plain text, each tried only when the earlier ones gave nothing |
| Ingestion.RawInputBlank | backend/src/lib/ingestion.ts:150-151 | blank input gives no messages |
| Ingestion.ArrayOneRecordPerElement | backend/src/lib/ingestion.ts:160-166 | when stringify writes one line per value, an array is read element by element; an empty array, joined to one blank line, yields nothing |
| Ingestion.RawInputTextsTrimmed | backend/src/lib/ingestion.ts:149-180 | whatever the format, every message text is non-empty and trimmed |
| Ingestion.ArrayTextsTrimmed | backend/src/lib/ingestion.ts:160-167 | every message read from a JSON array has a non-empty trimmed text |
| Tally.Counts | backend/src/lib/ingestion.ts:192-196 | the map holds exactly the keys seen, each with its number of occurrences |
| Tally.Order | backend/src/lib/ingestion.ts:192-196 | the insertion order lists every key seen exactly once |
| Tally.TallyStep | backend/src/lib/ingestion.ts:195 | one `counts.set(key, (get ?? 0) + 1)` turns the counts and order of a prefix into those of the prefix plus the key |
| Tally.CountsAddUp | backend/src/lib/ingestion.ts:192-196 | the counts of all distinct keys add up to the number of keys |
| AuthorFilter.Authored | backend/src/lib/ingestion.ts:188 | only messages with an author are kept |
| AuthorFilter.Keys | backend/src/lib/ingestion.ts:194 | one author key per message, in order, each the author name under the host's `toLowerCase` |
| AuthorFilter.Best | backend/src/lib/ingestion.ts:199-203 | the pick has the highest count, and it is the first author in insertion order with that count |
| AuthorFilter.KeepOnly | backend/src/lib/ingestion.ts:211 | every kept message is authorless or by the chosen author |
| AuthorFilter.CountAuthors | backend/src/lib/ingestion.ts:192-196 | the counting loop builds exactly the tally of the author keys |
| AuthorFilter.MostFrequent | backend/src/lib/ingestion.ts:199-203 | the maximum loop over the map picks exactly the best author and count |
| AuthorFilter.FilterUserMessages | backend/src/lib/ingestion.ts:187-212 | the filter returns exactly the specified result |
| AuthorFilter.FilterKeepsDominantAuthor | backend/src/lib/ingestion.ts:187-212 | authorless messages always survive, and the result is either the input or the messages of an author holding at least 30% of the authored messages and no fewer than any other author |
| AuthorFilter.FilterBelowThreshold | backend/src/lib/ingestion.ts:205-209 | when every author is under 30%, the input is returned unchanged |
| AuthorFilter.KeepOnlyKeepsAuthorless | backend/src/lib/ingestion.ts:211 | filtering keeps every authorless message, in order, and adds nothing |
| AuthorFilter.FilterIdempotent | backend/src/lib/ingestion.ts:187-212 | filtering twice is filtering once |
| AuthorFilter.FilterOfKept | backend/src/lib/ingestion.ts:187-212 | the messages of one author are a fixed point of the filter |
| AuthorFilter.KeysOfKept | backend/src/lib/ingestion.ts:211 | after keeping one author, that author is the only key left |
| AuthorFilter.OnlyKey | backend/src/lib/ingestion.ts:199-203 | with a single author, that author wins with every message |
| AuthorFilter.KeepOnlyTwice | backend/src/lib/ingestion.ts:211 | keeping the same author twice changes nothing |
| Sorting.SortDescPermutation | backend/src/lib/rag.ts:75 | sorting by descending score is a permutation |
| Sorting.SortDescSorted | backend/src/lib/rag.ts:75 | the result is ordered by non-increasing key |
| Sorting.SortDescStable | frontend/netlify/lib/voice-fingerprint.ts:102 | the sort is stable: elements with equal keys keep their relative order |
| Sorting.SortDescMembers | backend/src/lib/rag.ts:75 | sorting neither adds nor loses elements |
| Sorting.SortDescDistinct | frontend/netlify/lib/voice-fingerprint.ts:101-102 | sorting distinct elements keeps them distinct |
| Safety.AnyMatches | frontend/netlify/lib/safety.ts:13 | true exactly when some pattern matches the text |
| Safety.DetectCrisisCases | frontend/netlify/lib/safety.ts:1-13 | a text is flagged exactly when one of the eight patterns matches |
| Safety.DetectCrisisIgnoresCase | frontend/netlify/lib/safety.ts:2-9 | the patterns are case-insensitive: two texts equal up to case are flagged alike |
| Safety.NoCrisisWithoutLetters | frontend/netlify/lib/safety.ts:1-13 | a text without any of the letters c, d, f, r, u (in either case) is never flagged |
| Safety.KillItIsNotACrisis | frontend/netlify/lib/safety.ts:5 | "let's kill it at the meeting" is not flagged |
| Safety.KillSelfIsACrisis | frontend/netlify/lib/safety.ts:2 | "kill", whitespace, an optional "my" and "self" are flagged |
| Safety.SuicideIsACrisis | frontend/netlify/lib/safety.ts:3 | "suicide" and "suicidal" are flagged |
| Safety.SelfHarmIsACrisis | frontend/netlify/lib/safety.ts:6 | "selfharm", "self-harm" and "self harm" are flagged |
| Safety.EndItIsACrisis | frontend/netlify/lib/safety.ts:5 | "end it" and "end my life" are flagged |
| Safety.CrisisResponseHasHotlines | frontend/netlify/lib/safety.ts:16-25 | the crisis response gives the 741741 text line and the 988 lifeline |
| VoiceFingerprint.PieceCountIsWordCount | frontend/netlify/lib/voice-fingerprint.ts:109 | for a non-blank message, the split used by the anchor filters counts the same words as the word counter, at least one |
| VoiceFingerprint.WordCounts | frontend/netlify/lib/voice-fingerprint.ts:66 | one word count per message |
| VoiceFingerprint.RoundDiv | frontend/netlify/lib/voice-fingerprint.ts:68 | the result is the quotient rounded half up |
| VoiceFingerprint.Percent | frontend/netlify/lib/voice-fingerprint.ts:71-90 | a share is at most 100, 100 for all and 0 for none |
| VoiceFingerprint.EndsWithMarkTrimmed | frontend/netlify/lib/voice-fingerprint.ts:77-81 | on a trimmed message, "ends with the mark then spaces" means the last character is the mark |
| VoiceFingerprint.ShortMsgPct | frontend/netlify/lib/voice-fingerprint.ts:71 | the short-message share is a percentage |
| VoiceFingerprint.MedianIsACount | frontend/netlify/lib/voice-fingerprint.ts:69-70 | the median is one of the word counts |
| VoiceFingerprint.MedianSplits | frontend/netlify/lib/voice-fingerprint.ts:69-70 | in ascending order, counts up to the middle are at most the median and counts from it on are at least the median |
| VoiceFingerprint.MedianTakesUpperMiddle | frontend/netlify/lib/voice-fingerprint.ts:70 | with an even number of counts the upper middle is taken: the median of 1 and 3 is 3 |
| VoiceFingerprint.Scrub | frontend/netlify/lib/voice-fingerprint.ts:94 | characters other than letters, digits and whitespace become spaces, one for one |
| VoiceFingerprint.AllTokens | frontend/netlify/lib/voice-fingerprint.ts:93-99 | only words longer than one character that are not stop words are counted |
| VoiceFingerprint.TokenCharacters | frontend/netlify/lib/voice-fingerprint.ts:94-96 | counted words consist of lower-case ASCII letters and digits |
| VoiceFingerprint.EntriesOf | frontend/netlify/lib/voice-fingerprint.ts:101 | the entries list each word in insertion order with its count |
| VoiceFingerprint.ComputeFingerprint | frontend/netlify/lib/voice-fingerprint.ts:45-142 | the method computes exactly the specified fingerprint |
| VoiceFingerprint.CountWords | frontend/netlify/lib/voice-fingerprint.ts:92-100 | the nested loops build exactly the frequency map and insertion order of the counted words |
| VoiceFingerprint.CountMessageWords | frontend/netlify/lib/voice-fingerprint.ts:95-99 | one message's words extend the counts of the earlier messages |
| FingerprintLaws.EmptyExactlyWhenAllBlank | frontend/netlify/lib/voice-fingerprint.ts:55-64 | the all-zero fingerprint comes back exactly when every message is blank |
| FingerprintLaws.WordStatsWithinRange | frontend/netlify/lib/voice-fingerprint.ts:66-70 | average and median word counts lie between the smallest and largest bound on the counts |
| FingerprintLaws.ShortShareExtremes | frontend/netlify/lib/voice-fingerprint.ts:71 | all messages of at most 5 words give 100%, none give 0% |
| FingerprintLaws.RankedCounts | frontend/netlify/lib/voice-fingerprint.ts:101-102 | the ranked entries are counted words, each paired with its true count |
| FingerprintLaws.RankedDistinct | frontend/netlify/lib/voice-fingerprint.ts:101-102 | no word is ranked twice |
| FingerprintLaws.RankedCovers | frontend/netlify/lib/voice-fingerprint.ts:101-102 | every counted word is ranked |
| FingerprintLaws.TopWordsCounted | frontend/netlify/lib/voice-fingerprint.ts:101-104 | the top words are the 25 (or fewer) distinct counted words |
| FingerprintLaws.TopWordsByCount | frontend/netlify/lib/voice-fingerprint.ts:101-104 | the top words appear by non-increasing count |
| FingerprintLaws.TopWordsBeatTheRest | frontend/netlify/lib/voice-fingerprint.ts:101-104 | no word left out is more frequent than a chosen one |
| FingerprintLaws.TopWordsTies | frontend/netlify/lib/voice-fingerprint.ts:102-103 | among words of equal count, the chosen ones come first in insertion order |
| FingerprintLaws.StyleAnchorsChosen | frontend/netlify/lib/voice-fingerprint.ts:107-112 | the anchors are the first 12 messages of 3 to 15 words with no newline, link start or code fence, in order: exactly 12 when that many qualify, all of them otherwise |
| FingerprintLaws.ReactionExamplesChosen | frontend/netlify/lib/voice-fingerprint.ts:115-120 | the reactions are the first 8 messages of 1 to 3 words that do not start with a link, in order: exactly 8 when that many qualify, all of them otherwise |
| ClonePrompt.LengthCeiling | frontend/netlify/lib/voice-fingerprint.ts:162 | the length cap is the smaller of 50 and three times the average |
| ClonePrompt.QuoteLines | frontend/netlify/lib/voice-fingerprint.ts:192 | one indented quoted line per message, in order |
| ClonePrompt.NumberedLines | frontend/netlify/lib/voice-fingerprint.ts:213 | one line per excerpt, numbered from 1 in order |
| ClonePrompt.BuildCloneSystemPrompt | frontend/netlify/lib/voice-fingerprint.ts:144-227 | the builder returns the specified prompt lines joined by newlines |
| ClonePrompt.PushRules | frontend/netlify/lib/voice-fingerprint.ts:176-188 | the rule block appends the four fixed rules and the three optional ones |
| ClonePrompt.PushTemplate | frontend/netlify/lib/voice-fingerprint.ts:190-192 | the template block appends its heading and every style anchor |
| ClonePrompt.PushReactions | frontend/netlify/lib/voice-fingerprint.ts:194-197 | the reaction block is appended only when there are reactions |
| ClonePrompt.PushLists | frontend/netlify/lib/voice-fingerprint.ts:199-209 | slang, the first 15 top words and topics are appended, each only when present |
| ClonePrompt.PushMemory | frontend/netlify/lib/voice-fingerprint.ts:211-214 | the memory block is appended only when there are excerpts |
| ClonePrompt.PushQuoted | frontend/netlify/lib/voice-fingerprint.ts:192 | the loop appends exactly the quoted lines |
| ClonePrompt.PushNumbered | frontend/netlify/lib/voice-fingerprint.ts:213 | the loop appends exactly the numbered lines |
| ClonePrompt.BuildDemoSystemPrompt | frontend/netlify/lib/voice-fingerprint.ts:229-234 | the demo prompt is the clone prompt in the fixed casual mode |
| ClonePrompt.CapsRuleLead | frontend/netlify/lib/voice-fingerprint.ts:150-154 | the casing rule says ALWAYS exactly from 75%, Usually exactly from 50% to below 75% |
| ClonePrompt.PeriodRuleLead | frontend/netlify/lib/voice-fingerprint.ts:156-160 | the period rule says NEVER exactly up to 15%, Rarely exactly above 15% up to 35%, and quotes the percentage |
| ClonePrompt.EmojiRuleLead | frontend/netlify/lib/voice-fingerprint.ts:164-168 | the emoji rule's three wordings hold exactly below 3%, from 3% to below 10%, and from 10% |
| ClonePrompt.ExclamationRuleCases | frontend/netlify/lib/voice-fingerprint.ts:170-174 | the exclamation rule is empty exactly from 15%, and says Never exactly below 5% |
| ClonePrompt.RuleLineCount | frontend/netlify/lib/voice-fingerprint.ts:176-188 | four rules always, plus one each for rare exclamation marks, frequent ellipses and frequent questions |
| ClonePrompt.LengthRuleStatesCeiling | frontend/netlify/lib/voice-fingerprint.ts:162 | the length rule quotes the computed cap |
| ClonePrompt.MemoryLinesNumbered | frontend/netlify/lib/voice-fingerprint.ts:211-214 | the memory block is empty exactly without excerpts; otherwise it has a heading and line i is `i+1. "excerpt"` |
| ClonePrompt.PromptEnding | frontend/netlify/lib/voice-fingerprint.ts:216-224 | the third line from the end states the mode and the last is the safety line |
| ClonePrompt.PromptLineCount | frontend/netlify/lib/voice-fingerprint.ts:176-224 | the prompt has exactly the lines of its fixed parts and its present optional blocks |
| ClonePrompt.AnchorsQuoted | frontend/netlify/lib/voice-fingerprint.ts:190-192 | every style anchor appears quoted, in order, right after the rule block |
| ClonePrompt.UnrenderedQuirks | frontend/netlify/lib/voice-fingerprint.ts:144-227 | catchphrases, humor style and bluntness never change the clone prompt |
| OpenAi.TrimToTokens | backend/src/lib/openai.ts:13-17 | text within 4 characters per token is kept; longer text becomes its first 4·max characters plus an ellipsis |
| OpenAi.TrimToTokensIdempotent | backend/src/lib/openai.ts:13-17 | trimming a trimmed text changes nothing |
| Rag.Scrub | backend/src/lib/rag.ts:18 | characters other than letters, digits, whitespace and apostrophes become spaces, one for one |
| Rag.TokensAreTerms | backend/src/lib/rag.ts:15-21 | every token is a non-stop-word of at least two lower-case letters, digits or apostrophes |
| Rag.TermFrequencyRange | backend/src/lib/rag.ts:37-38 | a term has a frequency exactly when it occurs, and it lies in (0, 1] |
| Rag.TermFrequenciesSumToOne | backend/src/lib/rag.ts:37-38 | the term frequencies of a non-empty document add up to 1 |
| Rag.ComputeTermFrequencies | backend/src/lib/rag.ts:36-38 | the loop builds exactly the term frequencies |
| Rag.DocFreq | backend/src/lib/rag.ts:46-51 | a term's document frequency is at most the number of documents |
| Rag.TermSet | backend/src/lib/rag.ts:48 | the token set holds exactly the document's tokens |
| Rag.Terms | backend/src/lib/rag.ts:46-51 | the vocabulary is exactly the terms occurring in some document |
| Rag.TermsOfDocs | backend/src/lib/rag.ts:46-51 | a term is in the vocabulary exactly when some document contains it |
| Rag.DocFreqs | backend/src/lib/rag.ts:46-51 | document frequencies are defined exactly on the vocabulary |
| Rag.IdfFrom | backend/src/lib/rag.ts:52-54 | an idf weight is set for exactly the counted terms |
| Rag.IdfOf | backend/src/lib/rag.ts:43-54 | the idf map covers exactly the vocabulary |
| Rag.IdfAtLeastOne | backend/src/lib/rag.ts:53 | every idf weight is at least 1 |
| Rag.Texts | backend/src/lib/rag.ts:76 | one text per result, in ranked order |
| Rag.TfIdfIndex.constructor | backend/src/lib/rag.ts:31-33 | a new index is empty and unbuilt |
| Rag.TfIdfIndex.Add | backend/src/lib/rag.ts:35-41 | the document is appended and the index is marked unbuilt |
| Rag.TfIdfIndex.AddDoc | backend/src/lib/rag.ts:35-41 | a prepared document is appended and the index is marked unbuilt |
| Rag.TfIdfIndex.Build | backend/src/lib/rag.ts:43-56 | an empty index is left alone; otherwise the idf map becomes exactly the idf of the documents and the index is built |
| Rag.TfIdfIndex.Search | backend/src/lib/rag.ts:58-77 | search builds when needed and returns exactly the specified top results |
| Rag.SetIdf | backend/src/lib/rag.ts:52-54 | the loop over the document frequencies sets exactly their idf weights |
| Rag.ScoreAll | backend/src/lib/rag.ts:65-73 | the loop keeps exactly the documents of positive score, in order, with their scores |
| Rag.ScoreDoc | backend/src/lib/rag.ts:66-71 | the loop sums tf·idf over the query terms |
| Rag.CountTerms | backend/src/lib/rag.ts:47-51 | one document adds 1 to the count of each distinct term it contains |
| Rag.DocFreqsStep | backend/src/lib/rag.ts:47-51 | the document frequencies of one more document are the old ones plus its distinct terms |
| Rag.DocumentFrequencies | backend/src/lib/rag.ts:46-51 | the loop builds exactly the document frequencies |
| Rag.ShortenAll | backend/src/lib/rag.ts:94 | each result is shortened on its own, in order |
| Rag.IndexedDocs | backend/src/lib/rag.ts:90 | one document per message, in order, with the message's text |
| Rag.SearchMemory | backend/src/lib/rag.ts:84-95 | building, searching and shortening give exactly the specified excerpts |
| Rag.AddAll | backend/src/lib/rag.ts:90 | the loop adds one document per message, in order |
| RagLaws.ScoreSign | backend/src/lib/rag.ts:65-72 | a score is never negative, and it is positive exactly when some query term occurs in the document |
| RagLaws.ScorePositiveIff | backend/src/lib/rag.ts:65-72 | against the index's own idf, a document scores above zero exactly when it shares a term with the query |
| RagLaws.CandidatesAreHits | backend/src/lib/rag.ts:65-73 | the candidates are exactly the documents of positive score, paired with that score |
| RagLaws.RankedOrder | backend/src/lib/rag.ts:75 | ranking is a permutation of the candidates by non-increasing score, keeping ties in document order |
| RagLaws.RankedMembers | backend/src/lib/rag.ts:75 | ranking neither adds nor loses candidates |
| RagLaws.SearchCount | backend/src/lib/rag.ts:76 | there are at most topK results and at most one per document, and exactly min(topK, hits) for a non-empty index |
| RagLaws.TopKPrefix | backend/src/lib/rag.ts:76 | a smaller topK gives a prefix of the larger result |
| RagLaws.EmptyQueryNoCandidates | backend/src/lib/rag.ts:62-73 | a query without tokens scores no document |
| RagLaws.EmptyQueryNoResults | backend/src/lib/rag.ts:58-77 | a query without tokens returns nothing |
| RagLaws.ResultsAreHits | backend/src/lib/rag.ts:58-77 | every result is the text of a document that shares a term with the query |
| RagLaws.AllHitsReturned | backend/src/lib/rag.ts:58-77 | when topK covers all documents, every document sharing a term is returned |
| RagLaws.ExcerptsOfHits | backend/src/lib/rag.ts:92-94 | excerpts are at most maxK shortened texts of matching documents |
| RagLaws.IndexedWellFormed | backend/src/lib/rag.ts:90 | every indexed message's frequencies are those of its tokens |
| RagLaws.MemoryExcerpts | backend/src/lib/rag.ts:84-95 | memory search returns at most maxK excerpts, each the shortened text of a message sharing a term with the query |
| RagLaws.FrontendSuffixMisencoded | frontend/netlify/lib/rag.ts:78 | a long excerpt ends in three mis-encoded characters, not in an ellipsis |
| RagLaws.BackendExcerptBound | backend/src/lib/rag.ts:94 | an excerpt keeps the first 200 characters and adds one ellipsis character; short texts are unchanged |
| ChatPrompt.Fallback | backend/src/routes/ai.ts:316-324 | the catchphrases line defaults to "none detected", every other line to "n/a" |
| ChatPrompt.BuildSystemPrompt | backend/src/routes/ai.ts:303-347 | the builder returns the specified prompt lines joined by newlines |
| ChatPrompt.LineCount | backend/src/routes/ai.ts:309-344 | 15 header and pattern lines, the memory block when there are excerpts, and 11 closing lines |
| ChatPrompt.SummaryVerbatim | backend/src/routes/ai.ts:309-314 | the style summary is the fourth line, verbatim |
| ChatPrompt.QuirkLinesFollowHeader | backend/src/routes/ai.ts:315-325 | the nine pattern lines follow the header |
| ChatPrompt.QuirkShown | backend/src/routes/ai.ts:316-324 | each pattern line shows its label and a non-empty value: the quirk when it is non-empty, else the default |
| ChatPrompt.MissingIsEmpty | backend/src/routes/ai.ts:316-324 | an empty list or string quirk renders as if it were missing |
| ChatPrompt.NoQuirksDefaults | backend/src/routes/ai.ts:316-324 | without quirks, catchphrases show "none detected" and the rest "n/a" |
| ChatPrompt.MemoryNumbered | backend/src/routes/ai.ts:327-330 | the memory heading is present exactly when there are excerpts, which follow numbered from 1 |
| ChatPrompt.ModeAndSafety | backend/src/routes/ai.ts:332-344 | the mode line is tenth from the end and the safety rule is last |
| ChatPrompt.ModeInstruction | backend/src/routes/ai.ts:178-184 | "soft" and "cold" select their instructions; every other mode falls back to raw |
| ChatPrompt.AsTurns | backend/src/routes/ai.ts:189-192 | each stored message keeps its content and becomes an assistant turn exactly when its role is "clone", a user turn otherwise |
| ChatPrompt.ContextShape | backend/src/routes/ai.ts:187-194 | the context is the system prompt, the last 18 stored messages in order, and the new message |
| ChatPrompt.ContextWithinLimit | backend/src/routes/ai.ts:187-194 | the context never exceeds the 20-message limit |
| Demo.PrunedExactly | backend/src/routes/demo.ts:17-22 | pruning keeps exactly the sessions seen within 30 minutes, unchanged |
| Demo.PruneStable | backend/src/routes/demo.ts:17-22 | pruning twice is pruning once, and a later prune keeps no more sessions |
| Demo.TurnStaysCapped | backend/src/routes/demo.ts:88-90 | a history of at most 40 stays within 40 after a turn, ends with the new pair, and is a suffix of the full history |
| Demo.DemoContext | backend/src/routes/demo.ts:66-70 | the context is the system prompt, the last 16 stored turns in order, and the new message |
| Demo.TurnTouchesOnlyItsSession | backend/src/routes/demo.ts:58-90 | a turn creates or touches only its own session, stamps it with the current time, and leaves every other session unchanged |
| Demo.TouchThenSettle | backend/src/routes/demo.ts:58-90 | touching a session and then recording the reply gives the specified sessions |
| Demo.Sessions.constructor | backend/src/routes/demo.ts:14 | the session map starts empty |
| Demo.Sessions.Prune | backend/src/routes/demo.ts:17-22 | deleting while iterating leaves exactly the pruned sessions |
| Demo.Sessions.Touch | backend/src/routes/demo.ts:58-62 | the session is created when missing, and its last-seen time becomes now |
| Demo.Sessions.Record | backend/src/routes/demo.ts:88-90 | the message and reply are appended and the two oldest dropped past 40; other sessions are unchanged |
| Demo.Sessions.Chat | backend/src/routes/demo.ts:27-92 | the handler answers not-configured, bad request, the crisis response and no-profile first, in that order, with the sessions unchanged; otherwise it sends the specified context and the sessions become the specified next state |
| Demo.Sessions.Converse | backend/src/routes/demo.ts:57-92 | the session is touched, the context is sent, and the reply is recorded unless the model call failed |
| Demo.Sessions.Settle | backend/src/routes/demo.ts:72-90 | a failed call leaves the sessions unchanged; otherwise the reply, or an ellipsis when there is none, is recorded |
| Demo.Sessions.FirstMessage | backend/src/routes/demo.ts:96-152 | not configured, missing id, an already started session and a missing profile are answered first with the sessions unchanged; otherwise the session becomes the single opening turn |
| BackendDemoPrompt.BuildDemoSystemPrompt | backend/src/routes/demo.ts:155-190 | the builder returns the specified prompt lines joined by newlines |
| BackendDemoPrompt.DemoHeaderAndQuirks | backend/src/routes/demo.ts:156-171 | the summary is the fourth line and the eight pattern lines follow; an empty or missing quirk shows "n/a" |
| BackendDemoPrompt.DemoMemoryAndSafety | backend/src/routes/demo.ts:173-187 | the line count, the memory heading exactly when there is memory, numbered excerpts, and the safety rule last |
| FrontendDemoPrompt.StyleAnchorsFirst | frontend/netlify/routes/demo.ts:62-65 | the anchors are the first 8 texts of at most 12 space-separated pieces, in order |
| FrontendDemoPrompt.BuildDemoSystemPrompt | frontend/netlify/routes/demo.ts:151-197 | the builder returns the specified prompt lines joined by newlines |
| FrontendDemoPrompt.SummaryAndAnchors | frontend/netlify/routes/demo.ts:152-160 | the summary is the fourth line and each anchor follows quoted, in order |
| FrontendDemoPrompt.FormatDefaults | frontend/netlify/routes/demo.ts:174-176 | slang is joined when the list is non-empty and "none specified" otherwise; humor and emoji fall back when missing or empty |
| FrontendDemoPrompt.FormatLinesPlaced | frontend/netlify/routes/demo.ts:174-176 | the slang, humor and emoji lines close the format rules |
| FrontendDemoPrompt.MemoryBlockPresence | frontend/netlify/routes/demo.ts:179-182 | the memory heading is present exactly when there is memory, and the excerpts follow numbered from 1 |
| FrontendDemoPrompt.PhrasesBlockPresence | frontend/netlify/routes/demo.ts:184-194 | the line count, the phrases block exactly when catchphrases are non-empty, and the safety rule last |
| FrontendDemoPrompt.HeadingsDiffer | frontend/netlify/routes/demo.ts:180-190 | the memory, phrases and special-cases headings are distinct, so each block can be recognised by its heading |

## Left out

- Files outside the core: authentication, Prisma storage, the import and chat routes beyond prompt and context assembly, the HTTP frameworks, the web pages and the server setup.
- I/O, the database, the OpenAI calls, clocks and rate limits: the handlers take the configuration, profile presence, model completion, system prompt and current time as parameters.
- The `setInterval` timer: pruning is a method called with the current time.
- Concurrency: the awaits between the first-message guard and the push are not modelled. Each handler runs as one atomic step.
- The first-message prompt text sent to the model is not modelled; only the outcome of the call is.
- `JSON.parse`, `JSON.stringify`, `String(v)`, `new Date(v)`, the three timestamped chat-log regexes, SHA-256 and `toLowerCase` on author names (the parameter `lower` of `AuthorFilter`) are parameters. Only the `Name: message` regex and the crisis regexes are modelled concretely.
- `\p{Emoji_Presentation}` is the parameter `hasEmoji`.
- `Math.log` is the parameter `ln`. Only the properties it needs are assumed as preconditions.
- Floating point: TF-IDF scores are real numbers, and `Math.round` of a percentage or average is exact rational rounding half up. Doubles can differ in the last place.
- Strings are sequences of characters. JavaScript lengths count UTF-16 code units, so `length`, `slice` and the 200-character cut differ for characters outside the Basic Multilingual Plane.
- Case folding elsewhere is modelled on the characters that can change the outcome. The crisis patterns' `/i` flag, without the `u` flag, folds ASCII letters only, as `Lower` does.
- Csv.HeaderNames: header cells are lower-cased on ASCII letters only. JavaScript also lower-cases other letters, which changes a name but never which column is found: every key is ASCII, no key contains the `k` that U+212A KELVIN SIGN becomes, and U+0130 lower-cases to `i` plus a combining mark.
- Rag.TokensAreTerms: the tokenizer folds ASCII capitals and U+212A KELVIN SIGN (to `k`), as `toLowerCase` does; every other non-ASCII capital is blanked by the scrub either way. U+0130 is the exception: JavaScript lower-cases it to `i` plus a combining dot, so the scrub leaves an `i` and a blank, while the model blanks it whole.
- VoiceFingerprint.AllTokens: the same folding and the same U+0130 exception as the retrieval tokenizer.
- `scores.sort` and the word-frequency sort work in place in the source. They are modelled as a stable insertion sort on values; the engines' sort is stable too.
- The analysis route (backend/src/routes/ai.ts:30-35) shuffles a sample with `Math.random` before asking the model for a profile. That route is not part of this model.
- Default arguments (`topK = 5`, `maxK = 5`): the caller passes them explicitly. The two route copies pass 5 and 6 to `searchMemory`, so this is a parameter.
- `FrontendDemoPrompt`: the frontend quirks type has no empathy field; the shared quirks record has one and the frontend builder ignores it.
- ChatPrompt.ModeInstruction: every mode other than "soft" and "cold" gets the raw instruction. In the source, the object lookup also finds inherited keys such as `constructor`, which would give a function rather than a string.
- Sorting.SortDescStable: the source's comparator subtracts doubles; the model compares real keys, so NaN scores are not covered.

## Findings

| source | as written | input that shows it | evidently intended | confidence | as-written member | corrected member |
|---|---|---|---|---|---|---|
| frontend/netlify/lib/rag.ts:78 | a long excerpt gets the suffix `â€¦`, three characters that are the UTF-8 bytes of an ellipsis decoded as Windows-1252 | any message longer than 200 characters returned by the frontend memory search | one ellipsis character `…`, as in backend/src/lib/rag.ts:94 | high, not executed | RagLaws.FrontendSuffixMisencoded | RagLaws.BackendExcerptBound |
