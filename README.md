# Decision Companion — a verified model

Decision Companion is a small web application. A user describes a decision:

- a question;
- a goal, one of six;
- the time available;
- an optional budget;
- an energy level: low, medium or high.

The server endpoint `POST /api/analyze` answers with options and a recommended choice. The page shows the answer and keeps the last five answers in a history panel.

This project models in Dafny the logic of that application:

- **`Types`** (`types.dfy`): the records of the application. It also has `ContextJson`, the same context as the endpoint reads it from a JSON body. There every field is some text or missing, and nothing checks the goal and the energy level.
- **`Strings`** (`strings.dfy`): the JavaScript string operations the code relies on, written out:
  - `trim`, with the ECMAScript white space set;
  - `split` on one character;
  - `toLowerCase`;
  - `replace(/pat\n?/g, '')`;
  - rendering a whole number inside a template literal.
- **`AnalyzeRoute`** (`analyze_route.dfy`): the endpoint as a pure function of the request body and of the outside world:
  - the API key (`""` when unset);
  - the completion call, as a function from the prompt to a `Reply`;
  - `JSON.parse`, as a function from the cleaned text to a `Parsed`;
  - the identifier and the timestamp.

  It also models the required-field guard, the prompt, the rule-based fallback, the code-fence cleanup and result assembly.
- **`DecisionInput`** (`decision_input.dfy`): the form. It is a class whose five fields change one at a time. Beside it sit the pure validity rule and the normalised context the form emits.
- **`DecisionHistory`** (`decision_history.dfy`): `formatTimeAgo` on a difference in milliseconds, and the "Recommended:" label of a history entry.
- **`Page`** (`page.dfy`): the `Home` component as a class. Its fields are the view state, the result on screen, the history and the panel flag. A ghost sequence of every result received ties the history to "the last five received, newest first".

## Model

| member | source | states |
|---|---|---|
| Types.Goal.Name | src/lib/types.ts:1 | a goal is written as one of the six names "career" … "relationships" |
| Types.EnergyLevel.Name | src/lib/types.ts:3 | an energy level is written as "low", "medium" or "high" |
| Types.NamesDistinct | src/lib/types.ts:1-3 | different goals (energy levels) have different names, so each value is exactly one name |
| Types.ToJson | src/app/page.tsx:27 | the context as the endpoint reads it from `JSON.stringify({ context })`, an undefined budget left out; characterised by ToJsonInjective and DecisionInput.EmittedHasRequiredFields |
| Types.ToJsonInjective | src/lib/types.ts:5-11 | different contexts have different JSON forms: nothing is lost on the way to the server |
| Strings.Trim | src/components/decision-input.tsx:56 | `trim` removes only white space from the ends, and the result neither starts nor ends with white space |
| Strings.TrimSlice | src/components/decision-input.tsx:63-66 | the trimmed text is a contiguous slice whose surroundings are all white space |
| Strings.TrimEmpty | src/components/decision-input.tsx:56 | a text trims to empty exactly when every character is white space |
| Strings.TrimIdempotent | src/components/decision-input.tsx:63-66 | trimming twice is trimming once |
| Strings.TrimUntouched | src/components/decision-input.tsx:63-66 | text with no white space at either end is its own trim |
| Strings.Split | src/components/decision-history.tsx:75 | `split` gives at least one piece, two or more when the separator occurs, and no piece holds the separator |
| Strings.JoinSplit | src/components/decision-history.tsx:75 | joining the pieces of a split with the separator gives the text back |
| Strings.SplitJoin | src/app/api/analyze/route.ts:98 | splitting a join of separator-free pieces gives the pieces back |
| Strings.SplitAppend | src/app/api/analyze/route.ts:32-40 | splitting at one separator splits the text on each side of it independently |
| Strings.SplitHead | src/components/decision-history.tsx:75 | the first piece is a separator-free prefix followed by the separator or by the end of the text |
| Strings.ToLower | src/app/api/analyze/route.ts:98 | `toLowerCase` keeps the length and lowers each character on its own |
| Strings.RemoveAll | src/app/api/analyze/route.ts:151 | global removal of a pattern and its optional newline never lengthens the text |
| Strings.RemoveAllAbsent | src/app/api/analyze/route.ts:151 | text that does not hold the pattern's first character is unchanged |
| Strings.RemoveAllSkips | src/app/api/analyze/route.ts:151 | a prefix that cannot start a match passes through the removal unchanged |
| Strings.RemoveAllSkipsNoMatch | src/app/api/analyze/route.ts:151 | a prefix none of whose positions starts a match passes through the removal unchanged |
| Strings.RemoveAllDropsMatch | src/app/api/analyze/route.ts:151 | a match at the front is dropped together with the newline after it |
| Strings.RemoveFencesLeavesNone | src/app/api/analyze/route.ts:151 | after removing every "```" no three backticks in a row remain |
| Strings.TrimKeepsFenceFree | src/app/api/analyze/route.ts:151 | trimming does not create a fence |
| Strings.NatToString | src/components/decision-history.tsx:22 | a whole number is rendered as a non-empty string of decimal digits |
| Strings.NatToStringValue | src/components/decision-history.tsx:22-25 | the digits rendered denote the number itself, with no leading zero unless the number is zero |
| AnalyzeRoute.HasRequiredFields | src/app/api/analyze/route.ts:107 | the guard: question, goal, time and energy each present and non-empty; its properties are stated by GuardIgnoresBudgetAndBlanks and Analyze |
| AnalyzeRoute.GuardIgnoresBudgetAndBlanks | src/app/api/analyze/route.ts:107-112 | the guard fails when any of question, goal, time or energy is missing or empty; the budget never matters; blank or unlisted values pass |
| AnalyzeRoute.PromptTagsSingleLine | src/app/api/analyze/route.ts:32-40 | the fixed parts of the prompt hold no line break |
| AnalyzeRoute.ClosingSingleLine | src/app/api/analyze/route.ts:40 | the closing request line holds no line break |
| AnalyzeRoute.BuildUserPrompt | src/app/api/analyze/route.ts:31-41 | the prompt: nine lines joined by line breaks; its properties are stated by PromptReadsBack |
| AnalyzeRoute.PromptReadsBack | src/app/api/analyze/route.ts:31-41 | for any question, multi-line included, the prompt reads back line by line: the lines up to the last eight join to "DECISION: <question>", and the last eight are a blank line, "CONTEXT:", each of goal, time and energy verbatim after its tag, "- Budget: <budget>" when the budget is non-empty, else "- Budget: Not a concern", a blank line and the request; a single-line question gives nine lines |
| AnalyzeRoute.GetMockResponse | src/app/api/analyze/route.ts:44-100 | the fallback analysis: the three fixed options, the energy-based index and the templated explanation; its properties are stated by FallbackShape, FallbackExplanation and the lemmas after them |
| AnalyzeRoute.FallbackOptionsShape | src/app/api/analyze/route.ts:45-91 | the fallback has three options titled "Option A/B/C: …", each with three pros, two cons and scores within 1..10; their (short-term, long-term) scores are (8, 6), (5, 7) and (7, 8) |
| AnalyzeRoute.FallbackShape | src/app/api/analyze/route.ts:44-99 | `getMockResponse` returns the three fixed options; its index is 0 for "high", 1 for "low" and 2 otherwise, so always a valid index |
| AnalyzeRoute.SplitTitle | src/app/api/analyze/route.ts:98 | a title "<tag>: <words>" splits at its one colon into the tag and " <words>" |
| AnalyzeRoute.TrimLeadingSpace | src/app/api/analyze/route.ts:98 | trimming " <words>" gives the words |
| AnalyzeRoute.PhraseOf | src/app/api/analyze/route.ts:98 | the phrase taken from "<tag>: <words>" is the words in lower case |
| AnalyzeRoute.ChosenPhraseA | src/app/api/analyze/route.ts:98 | option A's phrase is "take action now" in lower case |
| AnalyzeRoute.ChosenPhraseB | src/app/api/analyze/route.ts:98 | option B's phrase is "delay for more information" in lower case |
| AnalyzeRoute.ChosenPhraseC | src/app/api/analyze/route.ts:98 | option C's phrase is "hybrid approach" in lower case |
| AnalyzeRoute.FallbackExplanation | src/app/api/analyze/route.ts:93-98 | the explanation names the lower-cased words of the recommended option's title |
| AnalyzeRoute.ExplainMentions | src/app/api/analyze/route.ts:98 | the explanation starts "Given your <energy> energy level and focus on <goal>, " and contains the phrase and "(<timeAvailable>)" |
| AnalyzeRoute.FallbackDeterministic | src/app/api/analyze/route.ts:44-99 | options and index depend on the energy level alone; the whole fallback depends on energy, goal and time alone |
| AnalyzeRoute.FallbackFixedText | src/app/api/analyze/route.ts:45-91 | everything about the options except option A's third pro is the same for every context |
| AnalyzeRoute.CleanContent | src/app/api/analyze/route.ts:151 | the cleaned answer holds no "```" and has no white space at either end |
| AnalyzeRoute.FenceFreeNoMatch | src/app/api/analyze/route.ts:151 | neither removal pass changes text with no three backticks in a row |
| AnalyzeRoute.CleanLeavesPlainText | src/app/api/analyze/route.ts:151 | text with no three backticks in a row and no white space at its ends is unchanged by cleanup, single backticks included |
| AnalyzeRoute.TrimTrailingNewline | src/app/api/analyze/route.ts:151 | the final `trim` removes the newline left behind by the closing fence |
| AnalyzeRoute.NoMatchBeforeClosingFence | src/app/api/analyze/route.ts:151 | in a body with no three backticks in a row, followed by a newline and a closing fence, no "```" or "```json" match starts before the closing fence |
| AnalyzeRoute.ClosingFenceKept | src/app/api/analyze/route.ts:151 | the "```json" pass leaves a closing plain fence after any body with no three backticks in a row alone |
| AnalyzeRoute.TaggedFirstPass | src/app/api/analyze/route.ts:151 | the "```json" pass removes the opening "```json" and its newline, and keeps a body with no three backticks in a row |
| AnalyzeRoute.PlainFirstPass | src/app/api/analyze/route.ts:151 | the "```json" pass leaves a body with no three backticks in a row, fenced with plain "```", unchanged |
| AnalyzeRoute.ClosingFenceDropped | src/app/api/analyze/route.ts:151 | the "```" pass removes a closing fence after a body with no three backticks in a row |
| AnalyzeRoute.TaggedPasses | src/app/api/analyze/route.ts:151 | both passes reduce a "```json" block to its body and a newline, for any body with no three backticks in a row |
| AnalyzeRoute.PlainPasses | src/app/api/analyze/route.ts:151 | both passes reduce a "```" block to its body and a newline, for any body with no three backticks in a row |
| AnalyzeRoute.CleanedToLine | src/app/api/analyze/route.ts:151 | when both passes leave a trimmed text and a newline, the cleanup yields that text |
| AnalyzeRoute.CleanUnwrapsFence | src/app/api/analyze/route.ts:151 | a body fenced as "```json" or as "```" is recovered exactly when it has no three backticks in a row and no white space at its ends; single backticks inside it are kept |
| AnalyzeRoute.ResponseData | src/app/api/analyze/route.ts:114-162 | the mode selection: the fallback without a key, on a non-ok answer, empty content or a parse failure; the parsed answer otherwise; nothing when the call throws or the answer is `null`; stated by UnusableMeansFallback, ParsedAnswerCopied and ServerErrorCases |
| AnalyzeRoute.Assemble | src/app/api/analyze/route.ts:164-172 | the result object: the analysis with the id, the request's question and context, and the time; stated by Analyze |
| AnalyzeRoute.Analyze | src/app/api/analyze/route.ts:102-182 | an unreadable body gives 500; 400 "Missing required fields" exactly when the guard fails; a 200 result echoes the context, question, id and time; there is no other outcome |
| AnalyzeRoute.UnusableMeansFallback | src/app/api/analyze/route.ts:137-161 | with no key, a non-ok answer, empty content or a parse failure, the analysis is the fallback |
| AnalyzeRoute.FallbackWhenUnusable | src/app/api/analyze/route.ts:114-172 | in those cases the endpoint answers 200 with the fallback's options, index and explanation |
| AnalyzeRoute.ParsedAnswerCopied | src/app/api/analyze/route.ts:143-172 | a parsed answer is copied into the result unchecked |
| AnalyzeRoute.ServerErrorCases | src/app/api/analyze/route.ts:102-182 | 500 exactly when the body is unreadable, or with a key when the call throws or the answer parses to `null` |
| AnalyzeRoute.NoKeyNoCall | src/app/api/analyze/route.ts:114-162 | without a key the completion call and the parser play no part |
| AnalyzeRoute.FallbackResultWellFormed | src/app/api/analyze/route.ts:159-172 | without a key every context that passes the guard gets 200 with three well-shaped options and a valid index |
| AnalyzeRoute.FencedAnswerParsed | src/app/api/analyze/route.ts:143-172 | an answer fenced as "```json", whose non-empty body has no three backticks in a row and no white space at its ends, is parsed from its body and copied into the result |
| AnalyzeRoute.CookOrOrderExample | src/app/api/analyze/route.ts:44-99 | a low-energy money question without a key recommends option B and says so in the explanation |
| DecisionInput.ChoicesComplete | src/components/decision-input.tsx:28-41 | every goal and every energy level is offered exactly once |
| DecisionInput.ChoiceNames | src/components/decision-input.tsx:28-41 | the choices carry the JSON names in the order shown |
| DecisionInput.IsValid | src/components/decision-input.tsx:56 | `isValid`; characterised by ValidIff |
| DecisionInput.Submitted | src/components/decision-input.tsx:58-69 | a context is emitted exactly when the form is valid |
| DecisionInput.ValidIff | src/components/decision-input.tsx:56 | the form is valid exactly when question and time each hold a non-blank character and goal and energy are chosen; the budget plays no part |
| DecisionInput.SubmittedIsNormalised | src/components/decision-input.tsx:62-68 | question and time are emitted as the trims of what was typed, non-empty; the budget is emitted as the trim of what was typed, absent exactly when that trim is empty, that is when the budget typed is blank |
| DecisionInput.SubmitNormalisedRoundTrip | src/components/decision-input.tsx:62-68 | filling the form with a normalised context emits that context |
| DecisionInput.EmittedHasRequiredFields | src/components/decision-input.tsx:56 | an emitted context passes the endpoint's guard (src/app/api/analyze/route.ts:107) |
| DecisionInput.EmittedPassesServerCheck | src/components/decision-input.tsx:58-69 | the endpoint never answers an emitted context with 400 |
| DecisionInput.DecisionForm.constructor | src/components/decision-input.tsx:50-54 | a fresh form is empty, with nothing chosen |
| DecisionInput.DecisionForm.SetQuestion | src/components/decision-input.tsx:50 | changes the question and nothing else |
| DecisionInput.DecisionForm.SetGoal | src/components/decision-input.tsx:51 | changes the goal and nothing else |
| DecisionInput.DecisionForm.SetTimeAvailable | src/components/decision-input.tsx:52 | changes the time and nothing else |
| DecisionInput.DecisionForm.SetBudget | src/components/decision-input.tsx:53 | changes the budget and nothing else, and never changes validity |
| DecisionInput.DecisionForm.SetEnergyLevel | src/components/decision-input.tsx:54 | changes the energy level and nothing else |
| DecisionInput.DecisionForm.HandleSubmit | src/components/decision-input.tsx:58-69 | emits nothing for an invalid form, and otherwise the normalised context of the fields |
| DecisionHistory.AgeOf | src/components/decision-history.tsx:19-25 | the bucket chosen by the chain of floors and early returns; characterised by AgeThresholds |
| DecisionHistory.FormatTimeAgo | src/components/decision-history.tsx:15-28 | `formatTimeAgo` on the difference in milliseconds; characterised by FormatTimeAgoCases |
| DecisionHistory.AgeThresholds | src/components/decision-history.tsx:18-27 | under a minute (negative included) is "just now"; 1 min to under 1 h gives whole minutes; 1 h to under 24 h gives whole hours; a day or more gives the date; exactly one bucket applies |
| DecisionHistory.FormatTimeAgoCases | src/components/decision-history.tsx:15-28 | the text for each bucket: "Just now", "<m>m ago", "<h>h ago" or the locale date |
| DecisionHistory.CountsInRange | src/components/decision-history.tsx:22-25 | minutes shown lie in 1..59 and hours in 1..23 |
| DecisionHistory.AgeMonotone | src/components/decision-history.tsx:21-27 | buckets are ordered by age, and counts within a bucket do not decrease |
| DecisionHistory.RecommendedLabel | src/components/decision-history.tsx:75 | the "Recommended:" label; characterised by LabelSpec |
| DecisionHistory.LabelSpec | src/components/decision-history.tsx:75 | the label is non-empty and holds no colon; it is "Option" for an index out of range or an empty head, and otherwise the title up to its first colon |
| DecisionHistory.TitleLabel | src/components/decision-history.tsx:75 | a recommended title "<tag>: <words>" is labelled with its tag |
| DecisionHistory.FallbackTags | src/components/decision-history.tsx:75 | the fallback options are labelled "Option A", "Option B" and "Option C" |
| DecisionHistory.FallbackLabel | src/components/decision-history.tsx:75 | a fallback result is labelled "Option A" for high energy, "Option B" for low and "Option C" otherwise |
| Page.Recorded | src/app/page.tsx:38 | the new history has length min(old+1, 5), starts with the new result and continues with a prefix of the old history |
| Page.HistoryKeepsLatest | src/app/page.tsx:38 | the history is the last five results received, newest first |
| Page.HistoryBounded | src/app/page.tsx:38 | the history length is min(received, 5), empty only before the first result |
| Page.HistoryOf | src/app/page.tsx:38 | the history built by applying the update to each result received; characterised by HistoryKeepsLatest |
| Page.FormSubmitOutcome | src/app/page.tsx:20-43 | for a context the form emits, the submit fails, and the page returns to input, exactly when a key is set and the completion call throws or the answer parses to `null`; a result received carries the question, context, id and time sent |
| Page.ClientReply | src/app/page.tsx:24-34 | how `handleSubmit` reads the answer: a 200 answer yields its result, any other status a thrown failure; characterised by FormSubmitOutcome and FormSubmitWithoutKey |
| Page.FormSubmitWithoutKey | src/app/page.tsx:20-39 | without a key every context the form emits reaches the page as the fallback result |
| Page.Home.constructor | src/app/page.tsx:15-18 | the page starts in the input view with no result and an empty, closed history |
| Page.Home.BeginSubmit | src/app/page.tsx:21 | submitting moves to the loading view and changes nothing else |
| Page.Home.SettleSubmit | src/app/page.tsx:30-43 | success shows the result, records it in front of the history and moves to the result view; failure returns to input with result and history unchanged |
| Page.Home.HandleSubmit | src/app/page.tsx:20-44 | the whole submit: result view with the new history on success, input view and nothing else changed on failure |
| Page.Home.HandleNewDecision | src/app/page.tsx:46-49 | clears the result and returns to input; history unchanged |
| Page.Home.HandleSelectFromHistory | src/app/page.tsx:51-55 | shows the chosen entry, moves to the result view and closes the panel; history unchanged |
| Page.Home.ToggleHistory | src/app/page.tsx:78-88 | the history button flips the panel flag and nothing else |
| Page.Home.CloseHistory | src/app/page.tsx:98 | the panel's close action clears the flag and nothing else |

`Page.Home.Valid` holds after every method of `Home`. It states:

- the history is the one the received results build, so it has at most five entries;
- the result view always has a result;
- the result on screen is always in the history;
- the panel is open only over a non-empty history.

## Left out

- The call to the chat-completions service (src/app/api/analyze/route.ts:120-135): its headers, model name, temperature and token limit are network I/O. Its outcome is the `complete` parameter.
- `request.json()` and `JSON.parse` (route.ts:104,152): decoding is the fallible `parse` parameter. A body that is not JSON, or has no `context`, is `None`.
  - `JSON.parse` of the cleaned answer (route.ts:152) is modelled as failing, giving `null`, or giving an analysis of the expected shape. A non-null value without the `{options, recommendedIndex, explanation}` shape (a number, a string, an array, `{}`, or an object whose fields have other types) is not modelled. In the code, reading those fields off it does not throw, so the endpoint answers 200 with fields missing or of the wrong type (route.ts:164-172).
  - The model keeps only JSON text or absence for each context field. Numbers, booleans and objects in those fields are not modelled.
- The system prompt text (route.ts:4-29) is not part of this model. Its "2-3 options, scores 1-10" wording is an instruction to the language model that the code never enforces. The model does not claim it for parsed answers.
- Clocks, randomness and the locale are parameters:
  - `crypto.randomUUID()` and `new Date().toISOString()` are `id` and `createdAt`;
  - `formatTimeAgo` takes the millisecond difference that `new Date(...)` arithmetic produces;
  - `toLocaleDateString()` is an uninterpreted string;
  - an unparsable date (NaN) is not modelled.
- `console.error` logging is not modelled.
- Presentation is not modelled: all JSX, animation, icons, colours, the example questions of the form, and `src/components/decision-output.tsx` as a whole.
- `handleSubmit` in src/app/page.tsx is asynchronous. It is modelled as two transitions: `BeginSubmit`, then `SettleSubmit` once the request settles. Any other handler may run in between. Interleavings beyond that are not modelled.
- Strings.ToLower: maps only the ASCII capitals, whereas `toLowerCase` maps every Unicode letter; the fallback titles it is applied to are ASCII.
- Service failures that throw are answered with 500: the outer `catch` is reached in the code by a thrown completion call, by a response body that is not JSON, and by an answer parsed to `null`. So does a 2xx answer whose body has no `choices` array, since reading `data.choices[0]` then throws (route.ts:144). All of these are 500 here, as in the code; the `Threw` reply covers each of them.
- The class fields of `DecisionInput.DecisionForm` hold strings and choices. Where the code keeps the empty string `""` for "no goal/energy chosen", the model uses `None`.
- AnalyzeRoute.PromptReadsBack: assumes goal, time available, energy level and budget hold no line breaks; the form never produces one in them, but the endpoint accepts any text, and a line break there shifts the lines after it.
