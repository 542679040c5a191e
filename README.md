# Backcountry safety game: the response-shaping core of `services/gemini.ts`

The game asks a hosted language model for survival scenarios, for the evaluation of each
choice the player makes, for an end-of-game report and for coaching replies. The model's
answers arrive as text. This project models, in Dafny, the deterministic part of the
service module around those calls:

- **Response normalizer** (`ResponseNormalizer`): `cleanAndParseJson`'s recovery ladder.
  Empty text gives `{}`. Otherwise the text is parsed as it is. Failing that, "```json"
  and then "```" are deleted, the text is cut from the first `{` to the last `}`, and the
  cut text is parsed, or the operation fails.
- **Scenario generator** (`ScenarioGenerator`): the mode's instruction and theme hint; the
  scenario object assembled from the parsed response (defaults, spread of the response,
  `location.mapUrl` from grounding); the fixed fallback scenario.
- **Choice evaluator** (`ChoiceEvaluator`): the rejection when the prompt cannot be
  built (a scenario without `environment`), the `EvaluationResult` built from the parsed
  response (defaults, `!!isGameOver`, game over drops the next scenario part), and the
  neutral result when the call fails or the response is unusable.
- **Transcripts** (`Transcripts`): the numbered turn history of the evaluation prompt, the
  turn blocks of the analysis prompt, the `role: text` conversation of the chat prompt,
  and the fallback texts of the analysis and chat operations.

Supporting modules: `JsStrings` (`indexOf`, `lastIndexOf`, `substring` with its clamping
and argument swap, global literal `replace`, `join`, decimal rendering of an index) and
`JsValues` (JavaScript values, truthiness, `||`, property reads that throw on `null`,
object spread of objects, arrays and strings). `Types` holds the records of `types.ts`.
`ModelReply` is the outcome of one model call.

`JSON.parse` is not modelled. Every operation takes it as a parameter
`parse: string -> Option<Value>`, so every lemma holds for any parser. The model call is
not modelled either. An operation receives its outcome as a `Reply`: `Failed`, or
`Answered(text, mapUri)`.

The parsed response is untyped (`any`) in the source and is never checked against the
declared types. So the evaluation result and the assembled scenario keep the response's
values as they came (`JsValues.Value`). The model does not decode them into typed records.

Behaviour of the code worth knowing:
- Text without braces is not necessarily a failure. The code parses the whole cleaned
  text, and text that parses directly (a bare number, say) is returned as it is.
- The evaluation response goes through the same recovery ladder as the scenario
  response (services/gemini.ts:172).
- `estimatedDuration` is 5 only when the response lacks the key. When the key is
  present, `...data` overwrites the `|| 5` default, even with a falsy value.
- The time-based id is overwritten by `...data` when the response has an `id`.
- `evaluateChoice` reads `scenario.environment.weather` while building its prompt, before
  its `try` (services/gemini.ts:143, 162). A scenario without `environment` therefore
  makes the returned promise reject instead of giving the neutral result.
  `generateScenario` produces such a scenario from an empty response, because the text
  then defaults to "{}".
- The chat transcript does not mark where a message ends. A message whose text holds a
  line break followed by "user: " reads exactly like two messages.

## Model

| member | source | states |
|---|---|---|
| `ResponseNormalizer.CleanAndParseJson` | services/gemini.ts:8-27 | Empty text gives `{}` without consulting the parser. Non-empty text fails exactly when neither the text nor its cleaned candidate parses, and a success is one of those two parses, never another object. |
| `ResponseNormalizer.StripFences` | services/gemini.ts:15 | The stripped text contains neither "```" nor "```json", and text without a backtick is left exactly as it is. |
| `ResponseNormalizer.BraceCandidate` | services/gemini.ts:16-20 | The candidate is never longer than the cleaned text. When it holds both braces, it runs from a `{` to a `}`. |
| `ResponseNormalizer.DirectParseWins` | services/gemini.ts:10-14 | Non-empty text that parses as it stands gives exactly that parse. |
| `ResponseNormalizer.ParserConsultedOnTextAndCandidate` | services/gemini.ts:8-27 | The parser is consulted on two strings only, the text and its cleaned candidate: two parsers agreeing on both give the same outcome. |
| `ResponseNormalizer.RecoversBraceSpan` | services/gemini.ts:15-22 | Text that does not parse directly, with the cleaned text's first `{` at i before its last `}` at j, yields the parse of exactly the span i..j inclusive. |
| `ResponseNormalizer.NoLeadingTickPair` | services/gemini.ts:15 | Text not starting with two backticks still does not after the fences are deleted. |
| `ResponseNormalizer.RemoveFenceLeavesNone` | services/gemini.ts:15 | Deleting every "```" left to right leaves no "```": deletion never joins backticks into a new fence. |
| `ResponseNormalizer.StripFencedReply` | services/gemini.ts:15 | A reply fenced as "```json", then a text without backticks, then "```", strips to exactly that text. |
| `ResponseNormalizer.FencedReplyRecovered` | services/gemini.ts:8-27 | A fenced reply that does not parse as it stands gives the parse of the brace candidate of the text inside the fences; when that text runs from `{` to `}`, the parse of that text itself. |
| `ResponseNormalizer.StripFencesIdempotent` | services/gemini.ts:15 | Stripping the stripped text again changes nothing. |
| `ResponseNormalizer.NoBraceBetween` | services/gemini.ts:16-20 | Between the last `}` and a later first `{` there is no brace. |
| `ResponseNormalizer.FirstAtIsIndexOf` | services/gemini.ts:16 | `indexOf('{')` is the index of the first `{`. |
| `ResponseNormalizer.LastAtIsLastIndexOf` | services/gemini.ts:17 | `lastIndexOf('}')` is the index of the last `}`. |
| `ResponseNormalizer.CandidateIsSpan` | services/gemini.ts:16-20 | When the first `{` precedes the last `}`, the candidate is exactly that inclusive span. |
| `ResponseNormalizer.CandidateWithoutBraces` | services/gemini.ts:18-20 | Without a `{` or without a `}`, the candidate is the whole cleaned text. |
| `ResponseNormalizer.CandidateWhenBracesReversed` | services/gemini.ts:19 | When the last `}` precedes the first `{`, `substring` swaps its bounds: the candidate is the text strictly between them and holds no brace. |
| `JsStrings.IndexOf` | services/gemini.ts:16 | The result is -1 exactly when the character is absent; otherwise it holds the character and no earlier index does. |
| `JsStrings.LastIndexOf` | services/gemini.ts:17 | The result is -1 exactly when the character is absent; otherwise it holds the character and no later index does. |
| `JsStrings.Substring` | services/gemini.ts:19 | In-range bounds give the slice between them, in either argument order. |
| `JsStrings.RemoveAll` | services/gemini.ts:15 | The result is no longer than the input, and text without the pattern is left unchanged. |
| `JsStrings.RemoveAllKeepsPlainPrefix` | services/gemini.ts:15 | Text in which the pattern's first character never occurs is kept, unchanged and in front, and deletion goes on in what follows. |
| `JsStrings.RemoveAllDropsLeadingMatch` | services/gemini.ts:15 | A match at the front is deleted, and deletion goes on after it. |
| `JsStrings.ContainsNeedsRoom` | services/gemini.ts:15 | A text contains nothing longer than itself, so "```" does not contain "```json". |
| `JsStrings.NatToString` | services/gemini.ts:137 | The decimal text of a turn number is non-empty, all digits, with no leading zero. |
| `JsStrings.ParseNatToString` | services/gemini.ts:137 | Reading back the decimal text of n gives n. |
| `JsStrings.NatToStringInjective` | services/gemini.ts:104 | Distinct numbers have distinct decimal texts, so index keys never collide. |
| `JsStrings.ContainsLonger` | services/gemini.ts:15 | Text containing "```json" contains "```". |
| `JsStrings.Join` | services/gemini.ts:137 | A join of at least one part begins with its first part. |
| `JsStrings.JoinAppend` | services/gemini.ts:137 | Joining one more part appends exactly the separator and that part. |
| `JsStrings.SplitWithoutSeparator` | services/gemini.ts:251 | A piece without a line break splits to itself. |
| `JsStrings.SplitAtFirstSeparator` | services/gemini.ts:251 | Splitting stops at the first separator. |
| `JsStrings.SplitJoin` | services/gemini.ts:251 | Splitting a join on a separator no part contains gives back the parts. |
| `JsValues.Spread` | services/gemini.ts:104-106 | Spreading an array or a string gives exactly the decimal index keys of its elements or characters, and every key spread from a non-object starts with a digit. |
| `JsValues.IndexedEntriesKeys` | services/gemini.ts:104 | Spreading a sequence produces exactly the decimal index keys. |
| `JsValues.IndexedEntriesAt` | services/gemini.ts:104 | Under the decimal key of index i, spread puts element i. |
| `JsValues.SpreadNamedKey` | services/gemini.ts:103-104 | A named key is spread exactly when the value is an object holding it, and spread copies what the property read gives. |
| `ScenarioGenerator.ModeInstructions` | services/gemini.ts:38-42 | Each mode's instruction ends by naming the theme that mode asks for: night for "Night Ops", heat for "Heat Wave", normal for every other mode. |
| `ScenarioGenerator.InstructionsNameThemes` | services/gemini.ts:39-42 | Each of the four instruction texts ends with its theme. |
| `ScenarioGenerator.AssembleScenario` | services/gemini.ts:100-109 | The assembly fails exactly when the parsed response is `null`. Otherwise the object has an id, a turn count, a duration and a location object whose `mapUrl` is the grounding URL. |
| `ScenarioGenerator.GenerateScenario` | services/gemini.ts:88-124 | Every outcome is an object with an id, a turn count, a duration and a location object, never null or undefined. A failed call gives the fallback scenario. |
| `ScenarioGenerator.FallbackShape` | services/gemini.ts:112-123 | The fallback has id "fallback", theme normal, turn count 0 and exactly one choice, with id "retry". |
| `ScenarioGenerator.FailureGivesFallback` | services/gemini.ts:110-124 | A failed call, an unparsable response or a `null` response gives the fallback scenario. |
| `ScenarioGenerator.DataOverridesDefaults` | services/gemini.ts:100-104 | Every property of the response but `location` survives. `id`, `turnCount` (1) and `estimatedDuration` (5) take their defaults only when the response lacks them. The keys are the response's plus those four. |
| `ScenarioGenerator.EmptyDataAssemblesDefaults` | services/gemini.ts:100-109 | From the empty object, the scenario holds exactly the id, turn count, duration and location. |
| `ScenarioGenerator.EmptyReplyScenario` | services/gemini.ts:97-109 | An empty response, whose text defaults to "{}", gives a scenario with exactly those four keys and no `environment`. |
| `ScenarioGenerator.MapUrlAlwaysReplaced` | services/gemini.ts:105-108 | `location` keeps the response location's properties and always carries `mapUrl`: the grounding URL, or `undefined`. |
| `ChoiceEvaluator.ShapeEvaluation` | services/gemini.ts:172-188 | Shaping fails exactly when the parsed response is `null`. A shaped result never has a falsy outcome text or delta mapping, and has a next part only when the game goes on, with a truthy description. |
| `ChoiceEvaluator.EvaluateChoice` | services/gemini.ts:128-198 | The evaluation rejects exactly when building the prompt throws, which it does at least when the scenario or its `environment` is `null` or `undefined`. Otherwise the result is always usable as above, and a failed call gives the neutral result. |
| `ChoiceEvaluator.ShapeFields` | services/gemini.ts:174-186 | Outcome text and deltas take their defaults exactly when falsy. `isGameOver` is the flag's truthiness and the reason passes unchanged. A next part exists exactly when not game over and a description is given, and it carries the response's description and choices. |
| `ChoiceEvaluator.GameOverTakesPrecedence` | services/gemini.ts:181-186 | A game-over response drops any next scenario description. |
| `ChoiceEvaluator.MissingDeltasAreEmpty` | services/gemini.ts:176 | A response without `scoreDeltas` gives the empty mapping. |
| `ChoiceEvaluator.FailureIsNeutral` | services/gemini.ts:190-197 | For a scenario the prompt can be built from, a failed call, an unparsable response or a `null` response gives the neutral result, which does not end the game. |
| `ChoiceEvaluator.FallbackCanBeEvaluated` | services/gemini.ts:143 | The fallback scenario has an environment, so evaluating a choice in it never rejects. |
| `ChoiceEvaluator.MissingEnvironmentRejects` | services/gemini.ts:143 | A scenario object holding only an id, a turn count, a duration and a location makes every evaluation reject. |
| `ChoiceEvaluator.EmptyReplyScenarioRejects` | services/gemini.ts:143 | Evaluating any choice in the scenario generated from an empty response rejects. |
| `ChoiceEvaluator.HeatstrokeReasonSurfaces` | services/gemini.ts:177-186 | A game-over response with reason "Heatstroke" surfaces that exact reason, and no next part. |
| `Transcripts.TurnLine` | services/gemini.ts:137 | Turn line i opens with "Turn i+1: ", and holds no line break when its choice and outcome hold none. When the choice holds no double quote, the line reads back as the number i+1, the choice and the outcome. |
| `Transcripts.TurnLineParses` | services/gemini.ts:137 | The line of turn n, with a choice free of double quotes, reads back as n, that choice and that outcome. |
| `Transcripts.ActionResultParses` | services/gemini.ts:137 | The part of a turn line after its number reads back as its choice and outcome. |
| `Transcripts.HistoryContext` | services/gemini.ts:136-138 | The history context is "None" exactly when there is no history, and otherwise opens with the first turn's line. |
| `Transcripts.HistoryContextLines` | services/gemini.ts:136-138 | With single-line choices and outcomes, the context splits into exactly the turn lines, line i numbered i+1. |
| `Transcripts.HistoryContextAppend` | services/gemini.ts:137 | Completing a turn appends one line, numbered after the previous ones. |
| `Transcripts.TurnBlock` | services/gemini.ts:207-212 | Block i opens with a line "Turn i+1:". When the situation, the choice and the outcome are single lines, the block reads back as the number i+1 and those three texts. |
| `Transcripts.TurnBlockLines` | services/gemini.ts:207-212 | A turn block is exactly its six lines joined by line breaks: an empty first line, the number, situation, action and result lines, and a closing line of two spaces. |
| `Transcripts.TurnBlockParses` | services/gemini.ts:207-212 | The block of turn n, with single-line texts, reads back as n and those three texts. |
| `Transcripts.AnalysisHistory` | services/gemini.ts:207-212 | No history gives empty text, one turn gives that turn's block, and a longer history opens with the first turn's block. |
| `Transcripts.AnalysisHistoryAppend` | services/gemini.ts:207-212 | Completing a turn appends one separator and one block, numbered after the previous ones. |
| `Transcripts.DetailedAnalysis` | services/gemini.ts:239-243 | The analysis is the model's text when non-empty, "Analysis unavailable." when the text is empty, and "Could not retrieve mission data." when the call fails, so never empty. |
| `Transcripts.MessageLine` | services/gemini.ts:251 | A message's line reads back as the message, role included. |
| `Transcripts.Conversation` | services/gemini.ts:251 | With single-line texts, the conversation reads back as exactly the messages: none lost, merged or reordered. |
| `Transcripts.ConversationAppend` | services/gemini.ts:251 | A new message appends one line. |
| `Transcripts.ParseMessageLinesRoundTrip` | services/gemini.ts:251 | The message lines read back as the messages. |
| `Transcripts.ConversationAmbiguous` | services/gemini.ts:251 | A model message "a", a line break and "user: b" gives the same transcript as a model message "a" followed by a user message "b", and the transcript reads back as the latter. |
| `Transcripts.CoachReply` | services/gemini.ts:265-268 | The coach reply is the model's text when non-empty, "..." when the text is empty, and "Signal lost." when the call fails, so never empty. |

## Left out

- The `GoogleGenAI` client and every `generateContent` call, with model names, tools, token and thinking budgets. A call is network I/O through a library outside this model, so it is represented by its outcome (`Reply`).
- `getAI()` runs before every `try` and is not modelled: a client that throws on construction is part of the library, not of this model.
- `JSON.parse`. It is a foreign library function, so it is a parameter and the lemmas hold for any parser.
- The wording of the four prompt templates (services/gemini.ts:44-86, 140-160, 214-228, 252-259) and `JSON.stringify(finalScores)` in the analysis prompt. They are free prose. Only the history, block and conversation structure and the mode instruction are modelled, so `getDetailedAnalysis` does not take `finalScores`. `currentScores` is never read by `evaluateChoice`.
- `EvaluateChoice` models the prompt's property reads only as far as they can throw. `scenario.description` and the environment's fields are rendered into prose, which is not modelled. Rendering a value into a template calls JavaScript's string conversion, which throws too, for example for an object with no callable `toString` or `valueOf`. A `description` such as `{"toString":0}` in the response is copied into the scenario by `...data`, so evaluating a choice in it would reject, and the model does not capture that.
- `EvaluationResult.gameOverReason` holds a `Value`, and the property read gives `undefined` for a response without the key. The source's neutral result has no `gameOverReason` property at all (services/gemini.ts:192-196), while a shaped result holds one whose value may be `undefined` (services/gemini.ts:178). The record does not tell these two apart: the neutral result holds `undefined`.
- `Date.now()` ids are nondeterministic, so the id is the parameter `freshId`. `console.error` is a side effect only and is left out.
- Key order of JavaScript objects is not modelled: objects are maps.
- Properties other than own enumerable ones are not modelled, for example a string's or an array's `length`, which spread does not copy. None of the keys the service reads names one.
- Numbers are rationals. NaN and the infinities are not modelled, though `JSON.parse("1e999")` is `Infinity`. Negative zero is modelled as zero, though `JSON.parse("-0")` gives negative zero. Both zeros are falsy, and no operation here tells them apart.
- `JsValues.Characters`: JavaScript strings are sequences of UTF-16 code units, but a Dafny `string` holds Unicode scalar values. `indexOf`, `substring` and `replace` on the ASCII braces and backticks agree either way. Spreading a string with a character outside the Basic Multilingual Plane does not: JavaScript spreads each surrogate under its own index, and the model spreads the whole character under one.
- An empty `response.text` and a missing one are the same `Reply` text, "". The source treats both alike (`|| "{}"`, `|| "..."`).
- History entries are typed records of strings. The source declares `history: Array<any>`, so a non-string field would be rendered by JavaScript's string conversion, which is not modelled.
- `ChatMessage.isThinking` is a UI flag the serialiser never reads.
- `components/MapPanel.tsx`, `components/ChatPanel.tsx` and `App.tsx` are React rendering and UI state.
- Score accumulation and the game-phase state machine live in `GameInterface`, which is not part of this model.
- `JsStrings.Split`, `JsStrings.ParseDecimal` and `Transcripts.ParseConversation` do not appear in the source. They are the inverses against which the serialisers are proved.
