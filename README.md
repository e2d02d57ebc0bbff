# AI ensemble helper — a Dafny model of its decision logic

The application sends one question, and optionally one image, to four chat
models at once. It turns each model's free-text reply into a structured
record (answer, reasoning, confidence, selected option), shows one card per
model, flags each card as agreeing or disagreeing with a headline consensus
answer, and recommends one final answer with an agreement tier.

This project models that logic and proves what it does:

- `text.dfy` (module `Text`): JavaScript white space, `String.prototype.trim`,
  and substring search.
- `responses.dfy` (`Responses`): the `AIResponse` record with optional
  fields, JavaScript truthiness, and the filter for valid records.
- `parser.dfy` and `parser_facts.dfy` (`Parser`, `ParserFacts`):
  `parseAIResponse`.
  - Each of the four regular expressions is a hand-written scanner with the
    engine's leftmost-match semantics. This covers the greedy `\s*`, the lazy
    `(.+?)` with its look-ahead, and the backtracking when only white space
    follows a label.
  - `parseFloat` is computed exactly, as a real number.
- `dispatch.dfy` (`Dispatch`): `AIService`. It has its `apiKey` field,
  `setApiKey`, and `processQuery` with its key guard, user text, one request
  per registered model and one record per model.
- `counting.dfy` (`Counting`): the insertion-ordered counts object that both
  majority computations build, and the stable sort by descending count.
- `recommendation.dfy` and `recommendation_facts.dfy` (`Recommendation`,
  `RecommendationFacts`): the final recommendation.
- `page.dfy` and `page_facts.dfy` (`Page`, `PageFacts`): the headline
  consensus answer, and the index page's state as changed by
  `handleApiKeySubmit` and `handleQuery`.
- `card.dfy` (`Card`): how a card is flagged, and its variant, icon and style.
- `queryinput.dfy` (`QueryInput`): image acceptance, removing an image, the
  submit guard and the disabled condition.
- `files.dfy` (`Files`, the chosen image file) and `wrappers.dfy`
  (`Wrappers`: `Option` and `Result`).

Modelling choices:

- **Network calls.** The client is a parameter `gateway: Request -> Outcome`.
  A call either completes, with possibly missing content, or throws, with
  possibly missing message. `ProcessQuery` and `HandleQuery` also return the
  requests they made, so "no model is called" can be stated.
- **Fan-out.** The concurrent `Promise.all` fan-out becomes a loop over the
  registry in order.
- **Truthiness.** JavaScript truthiness is modelled exactly. An empty string
  counts as absent wherever the code tests a value with `!x`, `x ||` or `x ?`.
- **Counts objects.** A counts object is a sequence of key/count entries in
  first-insertion order. This is the order `Object.keys` and
  `Object.entries` enumerate keys in, except for array-index-like keys
  (such as "42"), which JavaScript puts first in numeric order.
- **Agreement tiers.** They are stated over exact reals, and proved to equal
  the integer comparisons `100·count ≥ 80·total` and
  `100·count ≥ 60·total`.

Two behaviours of the code that a reader might not expect, and that the
model follows:

- Reasoning, confidence and selected option are each extracted from the
  whole reply by their own pattern, whether or not an "Answer:" label occurs.
- Confidence is not checked against any range: "Confidence: 85" gives 85.

Quirks of the code that the model keeps and proves:

- **Reasoning.** It is cut at the first line break.
- **Answer.** With a label it is one line. It falls back to the whole reply,
  trimmed, when the label is missing, ends the text, or is followed only by
  white space.
- **Adjacent label.** The lazy group always takes at least one character, so
  its look-ahead starts one character in. "Answer: B Reasoning: x" gives the
  answer "B", but "Answer: Reasoning: x" gives "Reasoning: x".
- **Placeholder names.** The loading placeholders carry older model names
  ("Claude 3 Sonnet", …) than the records that replace them.
- **Confidence fallback.** The fallback `reduce` in answer mode is never
  reached.
- **Empty error message.** A call that throws an `Error` with an empty message
  gives a record whose `error` is falsy. Both consensus computations then
  count it as a valid answer "".

## Model

| member | source | states |
|---|---|---|
| Text.Trim | src/services/aiService.ts:140-141 | the result is the slice of the input left after removing white space at both ends: it has no leading or trailing JavaScript white space, is empty exactly when the input is all white space, and leaves trimmed text unchanged |
| Text.SkipSpaces | src/services/aiService.ts:135-138 | `\s*` after a label consumes a run of white space and stops at the first other character or at the end |
| Text.FindFirst | src/services/aiService.ts:135 | the search for a label returns its first occurrence at or after the start, and none when it does not occur |
| Responses.ValidResponses | src/components/FinalRecommendation.tsx:11 | the filter keeps records with neither a truthy `error` nor `isLoading` true, and keeps every such record |
| Responses.ValidResponsesAppend | src/components/FinalRecommendation.tsx:11 | filtering distributes over concatenation, so the valid records keep their relative order |
| Responses.ConfidenceOrZero | src/components/FinalRecommendation.tsx:41 | `confidence \|\| 0` is the confidence when it is a number other than NaN, and 0 when it is absent or NaN |
| Parser.LazyEnd | src/services/aiService.ts:135-136 | the lazy group ends at the first position where a stop word or the end of text follows, and not before |
| Parser.NumberEnd | src/services/aiService.ts:137 | `[0-9.]+` takes the longest run of digits and points |
| Parser.SearchLeftmost | src/services/aiService.ts:135-138 | `match` finds the leftmost position where the pattern matches; no position before it matches, and when none matches there is no match |
| Parser.ParseFloat | src/services/aiService.ts:142 | `parseFloat` of a `[0-9.]` token is non-negative, and is a number exactly when the token starts with a digit or with a point followed by a digit; otherwise it is NaN |
| Parser.MatchAt | src/services/aiService.ts:135-138 | a pattern tried at one index: its label must be there, `\s*` follows, then the lazy group, the `[0-9.]+` run or one capital letter; no contract of its own, its behaviour is stated by ParserFacts.CaptureIffMatch, AnswerAtMatch, OptionPresence and ConfidencePresence |
| Parser.Capture | src/services/aiService.ts:135-138 | the capture group of the leftmost match; no contract of its own, its behaviour is stated by ParserFacts.CaptureIffMatch, CaptureAtFirst and NoLabelNoCapture |
| Parser.OptionOf | src/services/aiService.ts:138-143 | a selected option, when present, is a single capital letter; which letter it is is stated by ParserFacts.OptionAtFirst |
| Parser.AnswerOf | src/services/aiService.ts:140 | the answer is always trimmed |
| Parser.ReasoningOf | src/services/aiService.ts:141 | a reasoning, when present, is trimmed; what text it is is stated by ParserFacts.ReasoningIsLazyCapture |
| Parser.ConfidenceOf | src/services/aiService.ts:142 | a confidence, when a number, is non-negative; which number it is is stated by ParserFacts.ConfidenceAtFirst |
| Parser.Parse | src/services/aiService.ts:145-151 | the record keeps the model name, has no error and no loading flag, and carries a trimmed answer and reasoning |
| ParserFacts.CaptureIffMatch | src/services/aiService.ts:135-138 | a pattern captures something exactly when it matches at some index |
| ParserFacts.NoLabelNoCapture | src/services/aiService.ts:135-138 | without its label's first letter in the reply, a pattern captures nothing |
| ParserFacts.CaptureAtFirst | src/services/aiService.ts:135-138 | when the pattern matches at an index before which its label's first letter does not occur, the capture is the one at that index |
| ParserFacts.LazyEndIs | src/services/aiService.ts:135-136 | when no stop word's first letter occurs before a stop, the lazy group ends exactly there |
| ParserFacts.LazyCaptureOneLine | src/services/aiService.ts:135-136 | the answer or reasoning capture, trimmed, holds no line break |
| ParserFacts.ReasoningOneLine | src/services/aiService.ts:136-141 | a reasoning is trimmed and at most one line |
| ParserFacts.ReasoningPresence | src/services/aiService.ts:136-141 | a reasoning is present exactly when some "Reasoning:" label has a character after it, with or without an "Answer:" label |
| ParserFacts.AnswerOneLineUnlessFallback | src/services/aiService.ts:135-140 | an answer that spans lines is the whole reply trimmed |
| ParserFacts.AnswerSearchIsFind | src/services/aiService.ts:135 | the answer pattern matches at the first "Answer:" label when a character follows it, and nowhere when that label ends the text or there is none |
| ParserFacts.AnswerFromCapture | src/services/aiService.ts:140 | a capture starting with a non-space character gives the non-empty answer `trim(capture)`, a prefix of the capture |
| ParserFacts.AnswerFromBlankCapture | src/services/aiService.ts:140 | a capture of white space only trims to "" and gives the whole reply trimmed |
| ParserFacts.AnswerAtMatch | src/services/aiService.ts:135-140 | at a matching "Answer:" label the answer starts with the first non-space character after it and is a prefix of the reply from there, or is the fallback when only white space follows |
| ParserFacts.AnswerAfterLabel | src/services/aiService.ts:135-140 | the same, stated for the first "Answer:" label in the reply |
| ParserFacts.AnswerIsLazyCapture | src/services/aiService.ts:135-140 | at the first "Answer:" label with a character after its white space, the answer is the trimmed text from that character up to the first stop found from the next character on |
| ParserFacts.AnswerStopsBeforeLabel | src/services/aiService.ts:135 | "Answer: B Reasoning: x" gives the answer "B" |
| ParserFacts.AnswerSwallowsAdjacentLabel | src/services/aiService.ts:135 | "Answer: Reasoning: x" gives the answer "Reasoning: x", because the look-ahead starts after the first captured character |
| ParserFacts.AnswerFallback | src/services/aiService.ts:140 | without an "Answer:" label the answer is the whole reply trimmed |
| ParserFacts.AnswerEmptyIff | src/services/aiService.ts:140 | the answer is "" exactly when the whole reply is white space |
| ParserFacts.OptionPresence | src/services/aiService.ts:138-143 | an option is present exactly when "Selected Option:" is followed, after white space, by a capital letter |
| ParserFacts.ConfidencePresence | src/services/aiService.ts:137-142 | a confidence is present exactly when "Confidence:" is followed, after white space, by a digit or a point |
| ParserFacts.CaptureAtLeftmost | src/services/aiService.ts:135-138 | when a pattern matches at an index and at no earlier one, the capture is the match at that index |
| ParserFacts.OptionAtFirst | src/services/aiService.ts:138-143 | at the first "Selected Option:" label followed, after white space, by a capital letter, the option is that letter |
| ParserFacts.ConfidenceAtFirst | src/services/aiService.ts:137-142 | at the first "Confidence:" label followed, after white space, by a digit or a point, the confidence is `parseFloat` of the run of digits and points there |
| ParserFacts.ReasoningIsLazyCapture | src/services/aiService.ts:136-141 | at the first "Reasoning:" label: with a non-space character after its white space, the reasoning is the trimmed text from that character up to the first newline, "Selected Option:" or "Confidence:" found from the next character on; with only white space after it, the reasoning is ""; with nothing after it, there is none |
| ParserFacts.NoMatchNoCapture | src/services/aiService.ts:135-138 | a pattern that matches at no index captures nothing |
| ParserFacts.ReasoningStopsAtConfidence | src/services/aiService.ts:136 | "Reasoning: because Confidence: 0.9" gives the reasoning "because" |
| ParserFacts.ConfidenceSkipsWordLabel | src/services/aiService.ts:137-142 | "Confidence: high Confidence: 0.8" gives the confidence 0.8: a label followed by a word does not stop the search |
| ParserFacts.OptionSkipsLowerCase | src/services/aiService.ts:138-143 | "Selected Option: b Selected Option: C" gives the option "C" |
| ParserFacts.PointEight | src/services/aiService.ts:142 | `parseFloat("0.8")` is 0.8 |
| ParserFacts.EmptyContent | src/services/aiService.ts:103-104 | empty content parses to answer "" with no other field |
| ParserFacts.UnlabelledReply | src/services/aiService.ts:135-143 | a reply without any label's first letter gives its trimmed text as the answer and no other field |
| ParserFacts.PlainSentence | src/services/aiService.ts:140 | "just a plain sentence" becomes the answer unchanged, with no other field |
| ParserFacts.PointNine | src/services/aiService.ts:142 | `parseFloat("0.9")` is 0.9 |
| ParserFacts.ParseFloatInteger | src/services/aiService.ts:142 | a run of digits not followed by a digit or a point parses to its decimal value |
| ParserFacts.ParseFloatDecimal | src/services/aiService.ts:142 | digits, a point and digits parse to the integer part plus the fraction over its power of ten, and anything after the fraction, a second point included, is ignored |
| ParserFacts.EightyFive | src/services/aiService.ts:142 | `parseFloat("85")` is 85 |
| ParserFacts.StructuredAnswer | src/services/aiService.ts:135 | in the reply in the requested format, the answer is "B" |
| ParserFacts.StructuredReasoning | src/services/aiService.ts:136 | in that reply, the reasoning is "because X" and stops at the line break |
| ParserFacts.StructuredConfidence | src/services/aiService.ts:137 | in that reply, the confidence is 0.9 |
| ParserFacts.StructuredOption | src/services/aiService.ts:138 | in that reply, the selected option is "B" |
| ParserFacts.StructuredReply | src/services/aiService.ts:132-151 | the reply in the requested format yields every field (answer "B", reasoning "because X", confidence 0.9, option "B") |
| ParserFacts.ConfidenceNotClamped | src/services/aiService.ts:137-142 | "Confidence: 85" gives 85: the value is neither scaled nor clamped |
| ParserFacts.LowerCaseOptionIgnored | src/services/aiService.ts:138-143 | "Selected Option: b" gives no option |
| Dispatch.UserText | src/services/aiService.ts:68-74 | without an image the user text is the query unchanged; with one it is the image prompt followed by the query, or by the default question when the query is empty |
| Dispatch.Content | src/services/aiService.ts:80-93 | the user content is the text alone without an image, and the text plus the image's data URL `data:<type>;base64,<data>` with one |
| Dispatch.RequestFor | src/services/aiService.ts:78-101 | each request names the model's id, carries the system message and the user content, with 1000 maximum tokens and temperature 0.3 |
| Dispatch.RecordFor | src/services/aiService.ts:103-113 | a thrown call gives a record with the display name, answer "", and the error's message or "Unknown error occurred"; a completed call gives a parsed record without error |
| Dispatch.Requests | src/services/aiService.ts:76-101 | one request per registered model, in registry order |
| Dispatch.ModelRecords | src/services/aiService.ts:76-116 | one record per registered model; CallModels's contract ties it to the loop |
| Dispatch.CallModels | src/services/aiService.ts:76-116 | the loop sends exactly the requests of the models in order and collects each model's record from its own outcome |
| Dispatch.DispatchNames | src/services/aiService.ts:11-32 | the result has four records named Claude 3.5 Sonnet, GPT-4o, Gemini Pro 1.5 and Mistral Large, in that order |
| Dispatch.RecordIsolated | src/services/aiService.ts:106-113 | a model's record depends only on the outcome of that model's own call, so a failure elsewhere leaves it unchanged |
| Dispatch.FailedCallRecord | src/services/aiService.ts:106-113 | a failed call's record is exactly `{modelName, answer: "", error}`, and it is not valid unless the message is "" |
| Dispatch.EmptyErrorCountsAsValid | src/services/aiService.ts:111 | an error with an empty message yields a record that counts as a valid answer "" |
| Dispatch.CompletedCallRecord | src/services/aiService.ts:103-104 | a completed call's record is the parse of its content, or of "" when content is missing, and is valid |
| Dispatch.AIService.constructor | src/services/aiService.ts:35 | a new service has no key |
| Dispatch.AIService.SetApiKey | src/services/aiService.ts:37-41 | the key is stored as given, even when empty |
| Dispatch.AIService.ProcessQuery | src/services/aiService.ts:43-117 | without a truthy key it fails with "API key not provided" and calls no model; otherwise it calls every model once, in order, and returns their records |
| Counting.Occurrences | src/components/FinalRecommendation.tsx:25-28 | a key's count is at most the number of keys and positive exactly when the key occurs |
| Counting.Bump | src/components/FinalRecommendation.tsx:20 | one `acc[k] = (acc[k] \|\| 0) + 1` step; no contract of its own, Counting.BumpFacts states it |
| Counting.Tally | src/components/FinalRecommendation.tsx:18-28 | the counts `reduce`, used for options, answers and the headline (`src/pages/Index.tsx:70-73`); no contract of its own, Counting.TallyMeaning states it |
| Counting.BumpFacts | src/components/FinalRecommendation.tsx:20 | `acc[k] = (acc[k] \|\| 0) + 1` adds one to an existing key in place and appends a new key with count 1 |
| Counting.TallyMeaning | src/components/FinalRecommendation.tsx:18-28 | the counts object lists each key once, in order of first occurrence, with its number of occurrences |
| Counting.MaxCount | src/pages/Index.tsx:75 | `Math.max` over the counts is an upper bound that some entry reaches |
| Counting.FirstWithCount | src/pages/Index.tsx:76 | `find` over the keys returns the first entry with the given count, or none |
| Counting.FirstWithMaxCount | src/pages/Index.tsx:75-76 | finding the largest count returns the first entry with the largest count |
| Counting.SortByCount | src/components/FinalRecommendation.tsx:33-34 | the sort permutes the entries |
| Counting.InsertSorted | src/components/FinalRecommendation.tsx:33-34 | inserting into a descending run keeps it descending, and an equal count goes before the rest |
| Counting.SortByCountHead | src/components/FinalRecommendation.tsx:33-34 | the sorted entries are in descending order of count, and the first is the entry of largest count that comes first |
| Recommendation.PercentAtLeast | src/components/FinalRecommendation.tsx:48-51 | `(count / total) * 100 >= bound` holds exactly when `100·count >= bound·total` |
| Recommendation.AgreementLevel | src/components/FinalRecommendation.tsx:48-51 | the tier on integers; no contract of its own, Recommendation.AgreementLevelPercent states it against the percentage |
| Recommendation.AgreementLevelPercent | src/components/FinalRecommendation.tsx:48-51 | the tier is strong at 80% or more, moderate from 60% to below 80%, and weak below 60% |
| Recommendation.OptionKeys | src/components/FinalRecommendation.tsx:18-23 | the counted options are exactly the truthy selected options of the valid records |
| Recommendation.OptionKeysOne | src/components/FinalRecommendation.tsx:18-23 | one record contributes its selected option when it is truthy, and nothing otherwise |
| Recommendation.OptionKeysAppend | src/components/FinalRecommendation.tsx:18-23 | the options of two record lists are those of the first followed by those of the second, so every record contributes once and in order |
| Recommendation.AnswerKeys | src/components/FinalRecommendation.tsx:25-28 | every valid record is counted by its exact answer |
| Recommendation.FindOption | src/components/FinalRecommendation.tsx:38 | the first valid record whose option equals the key, or none |
| Recommendation.FindAnswer | src/components/FinalRecommendation.tsx:39 | the first valid record whose answer equals the key, or none |
| Recommendation.MaxConfidence | src/components/FinalRecommendation.tsx:40-42 | the reduce picks a record of largest confidence, absent or NaN counting as 0, and the earliest on ties |
| Recommendation.Recommend | src/components/FinalRecommendation.tsx:11-51 | the final recommendation; no contract of its own, RecommendationFacts.RecommendPresence, RecommendMajority, RecommendBest and RecommendAgreement state it |
| RecommendationFacts.TopIsEntry | src/components/FinalRecommendation.tsx:33-34 | the first sorted entry is an entry of the counts |
| RecommendationFacts.OptionModeIff | src/components/FinalRecommendation.tsx:31 | options are counted exactly when some valid record has a truthy selected option |
| RecommendationFacts.MajorityKey | src/components/FinalRecommendation.tsx:33-34 | with a valid record the counts are non-empty and the winning key is a counted key |
| RecommendationFacts.Majority | src/components/FinalRecommendation.tsx:18-34 | the winning key has the largest count, ties going to the key seen first |
| RecommendationFacts.RecommendPresence | src/components/FinalRecommendation.tsx:11-15 | there is a recommendation exactly when some record is valid |
| RecommendationFacts.RecommendMajority | src/components/FinalRecommendation.tsx:18-34 | options are counted iff a valid record has one, and the reported key and count are the majority key and its number of occurrences |
| RecommendationFacts.RecommendBest | src/components/FinalRecommendation.tsx:37-44 | the record shown is the first valid record with the winning option, or else with the winning answer; the confidence fallback is never used |
| RecommendationFacts.RecommendAgreement | src/components/FinalRecommendation.tsx:46-51 | the total is the number of valid records, 1 ≤ count ≤ total, it is a consensus iff count > 1, and the tier follows the percentage |
| RecommendationFacts.TwoOfThreeKeys | src/components/FinalRecommendation.tsx:18-23 | three valid records with options B, B, C are counted as B, B, C |
| RecommendationFacts.TwoOfThree | src/components/FinalRecommendation.tsx:11-51 | options B, B, C give key B, the first record, 2 of 3, a consensus, moderate |
| Page.ConsensusAnswer | src/pages/Index.tsx:66-77 | `getConsensusAnswer`; no contract of its own, PageFacts.ConsensusChoice states it |
| Page.Placeholders | src/pages/Index.tsx:41-46 | one placeholder per registered model, each loading, without error and with answer "", under a name other than its model's |
| PageFacts.ConsensusChoice | src/pages/Index.tsx:66-77 | no headline exactly when fewer than two records are valid or all valid answers are distinct; otherwise it is an answer occurring more than once, with the largest count, first among those tied |
| PageFacts.ConsensusIgnoresOptions | src/pages/Index.tsx:70-73 | the headline depends only on the valid records' answers, never on their options |
| PageFacts.HeadlineMatchesRecommendation | src/pages/Index.tsx:66-77 | when there is a headline and no valid record selects an option, the recommendation exists, counts answers, and picks the headline's answer with a record carrying it |
| PageFacts.PlaceholdersLoading | src/pages/Index.tsx:41-46 | while the placeholders show, no record is valid, so no headline and no recommendation shows |
| PageFacts.AgreeingPair | src/components/AIResponseCard.tsx:27-32 | two valid records carrying a truthy headline answer both get the success badge |
| PageFacts.ConsensusCardsAtLeastTwo | src/pages/Index.tsx:162-167 | a truthy headline answer is shown with the success badge on at least two valid records |
| Page.IndexPage.constructor | src/pages/Index.tsx:11-14 | the page starts with no key, no records, and neither flag set |
| Page.IndexPage.LoadStoredKey | src/pages/Index.tsx:16-23 | a truthy stored key goes to both the page and the service; otherwise nothing changes |
| Page.IndexPage.HandleApiKeySubmit | src/pages/Index.tsx:25-29 | the new key goes to both the page and the service, and nothing else changes |
| Page.IndexPage.BeginQuery | src/pages/Index.tsx:32-48 | without a truthy key nothing changes; otherwise both flags are set and the four placeholders are shown |
| Page.IndexPage.FinishQuery | src/pages/Index.tsx:50-63 | success shows the results; failure clears them and the results flag; loading ends either way |
| Page.IndexPage.HandleQuery | src/pages/Index.tsx:31-64 | without a key nothing changes and nothing is sent; with keys on both, the records of every model are shown; when the service lacks the key the page ends empty |
| Card.IsConsensus | src/components/AIResponseCard.tsx:27 | a card agrees when the headline is truthy and equals its answer; Card.ConsensusOrConflict and EmptyConsensusFlagsNothing state it |
| Card.IsConflict | src/components/AIResponseCard.tsx:28 | a card disagrees when the headline is truthy, differs from its answer and the card has no error; Card.ConsensusOrConflict and EmptyConsensusFlagsNothing state it |
| Card.CardVariant | src/components/AIResponseCard.tsx:30-35 | the badge variant; Card.VariantPriority states it |
| Card.CardIcon | src/components/AIResponseCard.tsx:37-42 | the icon; Card.IconPriority states it |
| Card.CardStyle | src/components/AIResponseCard.tsx:44-60 | the card style; Card.StylePriority states it |
| Card.EmptyConsensusFlagsNothing | src/components/AIResponseCard.tsx:27-28 | a missing or empty headline flags no card as agreeing or disagreeing |
| Card.ConsensusOrConflict | src/components/AIResponseCard.tsx:27-28 | agreeing and disagreeing never both hold, and with a truthy headline an error-free card is one of them |
| Card.VariantPriority | src/components/AIResponseCard.tsx:30-35 | error gives destructive, else agreement gives success, else disagreement gives warning, else default |
| Card.IconPriority | src/components/AIResponseCard.tsx:37-42 | loading comes first, then error, then agreement, else the default icon |
| Card.StylePriority | src/components/AIResponseCard.tsx:44-60 | error comes before agreement, then disagreement, then highlighting, else the plain style; highlighting matters only when the first three do not apply |
| Card.StyleMatchesVariant | src/components/AIResponseCard.tsx:30-60 | the style follows the variant for error, agreement and disagreement |
| QueryInput.CheckImage | src/components/QueryInput.tsx:22-31 | a file is accepted iff it is at most 10 MiB and its type is JPEG, PNG or WebP; it is too large iff it exceeds 10 MiB |
| QueryInput.SizeLimitInclusive | src/components/QueryInput.tsx:22 | exactly 10 MiB is accepted and one byte more is refused |
| QueryInput.SizeBeforeType | src/components/QueryInput.tsx:22-31 | the size check comes before the type check, and the type must match exactly |
| QueryInput.SubmitAction | src/components/QueryInput.tsx:50-56 | submission is refused iff the trimmed query is empty and there is no image; otherwise the trimmed query and the image are passed on |
| QueryInput.SubmitDisabled | src/components/QueryInput.tsx:131 | the button's disabled condition; QueryInput.EnabledMeansSubmitted states it against the submit guard |
| QueryInput.EnabledMeansSubmitted | src/components/QueryInput.tsx:131 | an enabled button always submits, and when not loading the button is disabled exactly when submission would be refused |
| QueryInput.SubmittedQueryShape | src/components/QueryInput.tsx:55 | the submitted query is trimmed, and non-empty unless an image goes with it |
| QueryInput.BlankQueryRefused | src/components/QueryInput.tsx:51-54 | a query of white space without an image is refused |
| QueryInput.QueryForm.constructor | src/components/QueryInput.tsx:14-16 | the form starts with no query, no image and no preview |
| QueryInput.QueryForm.HandleImageUpload | src/components/QueryInput.tsx:19-40 | only a file passing both checks becomes the image; a refused file leaves the image unchanged |
| QueryInput.QueryForm.PreviewLoaded | src/components/QueryInput.tsx:35-37 | the reader's result becomes the preview and nothing else changes |
| QueryInput.QueryForm.RemoveImage | src/components/QueryInput.tsx:42-48 | the image, the preview and the file input's value are cleared, and the query is kept |

## Left out

- Network client: the OpenAI/OpenRouter client setup and `chat.completions.create` (`src/services/aiService.ts:5-9, 96-101`) are foreign calls. Each call is the `gateway`'s outcome for its request.
- Concurrency: `Promise.all` and the async fan-out are a sequential loop in registry order. Interleavings and timing are not modelled.
- File reading.
  - `fileToBase64` and the `FileReader` in `handleImageUpload` are browser I/O. The file's base64 text is an input, and the preview arrives as a separate `PreviewLoaded` step.
  - A rejected read, and the unused `fileToBase64` call at `src/services/aiService.ts:72`, are not modelled.
- Module-level client mutation at `src/services/aiService.ts:40`: only the service's `apiKey` field is kept.
- Browser and UI plumbing: `localStorage` is an input to `LoadStoredKey` and is not written by `HandleApiKeySubmit`; toasts, `console.error`, the `successCount` toast text, JSX, icons and CSS class strings are left out. Variants, icons and styles are enumerations.
- System message text: every request carries the value `AcademicAssistant`, whose text is `SystemText`. No property of that text is proved.
- Floating point: `parseFloat` is computed as an exact real. Rounding to a double is not modelled. The percentage tiers are exact too.
- The `catch` branch of `parseAIResponse` (`src/services/aiService.ts:152-160`) is not modelled. `String.prototype.match` and `trim` on a string cannot throw, so its `confidence: 0.5` record never occurs.
- Key order.
  - JavaScript enumerates array-index-like keys (such as "42") numerically before other keys, and a `"__proto__"` key is special. The model uses first-insertion order for every key.
  - For answers or options that are array indices, the code's tie-breaking can differ from the model's.
  - The counts object `{}` inherits from `Object.prototype`. An answer or option named like an inherited member ("toString", "constructor", "valueOf", "hasOwnProperty", …) reads that member in `acc[k] || 0`. Its count then becomes a string such as `"function toString() { [native code] }11"`. In the code this gives no consensus, the weak tier, and a `Math.max` of NaN with no headline. The model counts such keys like any other key.
- `src/components/ApiKeyInput.tsx` is commented out in full, so it has no behaviour to model.
- `handleKeyDown` (Ctrl+Enter) calls the same submit guard, so only `SubmitAction` is modelled.
- `RemoveImage` assumes the file input is mounted. `fileInputRef.current` being null is not modelled.
- Counting.SortByCount: its own contract states only a permutation. `Counting.SortByCountHead` proves the descending order and which entry comes first. Stability is proved only for that first entry, the only one the code reads.
- Page.IndexPage.HandleQuery: the page's key and the service's key are separate fields, as in the code. When the page has a key but the service does not, the failure path is the one taken. The two updates in `handleApiKeySubmit` keep them equal.
