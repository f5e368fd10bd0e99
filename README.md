# Bias mitigation with multi-agent scenarios: a Dafny model of the deterministic core

The repository asks a language model bias-probe questions from the BBQ data set. The first
answer is then discussed by one or more critic agents ("scenarios"), and the model is asked
again. The results are tallied into confusion matrices. The talking is done by the `autogen`
framework. This project models the deterministic layer around it, treating every chat
history and every test record as plain data:

- **Test records** (`test_object.dfy`, module `TestData`):
  - the prompt strings built from a record's statement, question and three choices;
  - building a record from a decoded JSON object, and appending it to the registry list;
  - the all-or-nothing parse of an ID file.
- **Answer extraction** (`scenario.dfy`, module `Scenarios`):
  - the real-content filter;
  - the newest-first scans of a chat history for a summary and for an answer label;
  - the text-to-choice classifier `resultNoFromChatHistory`;
  - `stringFromArray`;
  - the per-agent usage counter;
  - `Scenario.execute`, written as a function of the chats it runs.
- **Result records** (`result_object.dfy`, module `Results`): a class whose constructor
  computes `hasFoundAnswer` and appends the new object to the registry.
- **Scenario sequencing** (`scenario_manager.dfy`, module `Manager`): `processQuestion` runs
  scenarios in order and stops at the first that fails.
- **Evaluation** (`evaluator.dfy`, module `Evaluation`):
  - the ID-based test selection and the choice of base answer;
  - the `[slot][predicted][expected]` tally on a three-dimensional integer array;
  - the CSV header and data-row layout;
  - the precision/recall denominators and the summary-row layout.
- **Configuration** (`configvalues.dfy`, module `Config`): `getllM`, and the once-set
  timestamp of `getNowTimestamp`.
- **Shared pieces**:
  - `text.dfy` (module `Text`) holds what the source takes from Python's string type:
    `.upper()` (on ASCII), `in`, `.strip()`, `int()` and decimal rendering;
  - `wrappers.dfy` holds `Option`.

A chat result is a sequence of `Turn(role, content)` plus a summary. What the chats of one
`execute` call produce is a `Conversation` value passed in by the caller, with `None` standing
where the source catches an exception and returns `None`. The clock is a `DateTime` parameter.
File contents are `Option<seq<string>>`, with `None` for a missing file.

Two consequences of the order in which `resultNoFromChatHistory` tries its branches
(0, then 1, then 2):

- A first choice that occurs inside the text "1", such as the choice "1" itself, wins over
  the digit rule (`DigitShadowedByFirstChoice`).
- A uniquely named choice k wins unless the text is the digit of an earlier choice
  (`ResultNoNamesOnlyChoice`).

## Model

| member | source | states |
|---|---|---|
| Text.Contains | src/Scenario.py:465 | Python's `in` on strings: the needle occurs at some position of the text; stated by `ContainsAt` and `ContainsWitness` |
| Text.Upper | src/Scenario.py:465 | `.upper()` on ASCII keeps the length and upper-cases each character; nothing else changes |
| Text.UpperIsDigitsExactly | src/Scenario.py:489-494 | a text upper-cases to a digit string exactly when it is that digit string, so comparing the upper-cased content with "0" means comparing the content |
| Text.NatToString | src/Evaluator.py:349-352 | decimal rendering is non-empty and all digits |
| Text.NatToStringValue | src/Evaluator.py:349-352 | the rendered digits read back as the number |
| Text.DigitStrings | src/Scenario.py:465-470 | 0, 1 and 2 render as "0", "1" and "2", the texts the classifier compares with |
| Text.ParseInt | src/TestObject.py:149 | `int()` accepts only non-empty text. The two lemmas below fix rendered integers and blank lines; other inputs such as "007", "1_0" or "12a" are fixed only by the body, which follows `int()` on ASCII (strip, optional sign, underscores only between digits) |
| Text.IntRoundTrip | src/TestObject.py:149 | `int(str(i)) == i` for every integer, negative ones included |
| Text.BlankIsNotInt | src/TestObject.py:149 | `int()` of a blank line fails |
| Text.Strip | src/TestObject.py:149 | `.strip()` on ASCII whitespace; stated by `StripKeeps` and `BlankStripsToEmpty` |
| Text.StripKeeps | src/TestObject.py:149 | `.strip()` keeps a text that neither starts nor ends with whitespace |
| Text.BlankStripsToEmpty | src/TestObject.py:149 | `.strip()` of a blank line is empty |
| TestData.LabelsSpelledOut | src/TestObject.py:89 | the entry for choice k reads "k = choice" |
| TestData.GetQuestionWithoutPredefinedAnswers | src/TestObject.py:75-80 | the bare prompt: agent command, quoted statement, the fixed request line and the quoted question; its content is stated by `QuestionQuotesStatement` |
| TestData.GetPossibleAnswers | src/TestObject.py:83-90 | "" unless all three choices are non-empty, else the three "k = choice" entries; stated by `PossibleAnswersListEveryChoice` |
| TestData.GetQuestion | src/TestObject.py:64-72 | the bare prompt, followed by the choice intro and the answer list when all three choices are non-empty; stated by `QuestionOffersChoicesIffComplete` and `QuestionListsEveryChoice` |
| TestData.QuestionQuotesStatement | src/TestObject.py:79-80 | the bare question starts with the agent command and contains the statement and the question |
| TestData.PossibleAnswersListEveryChoice | src/TestObject.py:87-90 | the answer list is empty exactly when a choice is empty; otherwise it contains every "k = choice" entry |
| TestData.ListedInOrder | src/TestObject.py:89 | the literal answer list contains the three entries |
| TestData.QuestionOffersChoicesIffComplete | src/TestObject.py:68-72 | the full question extends the bare one; it is longer exactly when all three choices are non-empty; the extension is the choice intro followed by the answer list |
| TestData.QuestionListsEveryChoice | src/TestObject.py:68-72 | with all choices present, the full question contains every "k = choice" entry |
| TestData.FromJson | src/TestObject.py:44-61 | a record is built exactly when every required key is present (and, in this model, holds a string, or an integer for the label); its fields are taken from those keys, and a missing id becomes None |
| TestData.MissingIdStillConstructs | src/TestObject.py:48 | a missing `example_id` still yields a record, with id None |
| TestData.TestObjects.constructor | src/TestObject.py:97 | the registry starts empty |
| TestData.TestObjects.Construct | src/TestObject.py:37-61 | the record built is `FromJson`; the registry grows by exactly that record, or stays unchanged on a decode error, a missing key or (in this model) a value of another JSON type |
| TestData.ParseIds | src/TestObject.py:149 | the parse succeeds exactly when every line parses, giving one integer per line, in file order |
| TestData.LoadIds4TestCases | src/TestObject.py:137-152 | a missing file or any unparsable line gives []; otherwise one integer per line, in order |
| TestData.LoadIdsRoundTrip | src/TestObject.py:149 | a file of rendered integers loads back as those integers |
| TestData.BlankLineDiscardsAll | src/TestObject.py:149-151 | one blank line anywhere discards the whole list |
| Scenarios.LatestIndex | src/Scenario.py:484-486 | the index found is the newest element satisfying the test, or -1 when there is none |
| Scenarios.IsRealContent | src/Scenario.py:521-526 | false when the text contains the closing reply, else false when it contains "Thank you", else true; stated by `FillerIsNotReal` |
| Scenarios.FillerIsNotReal | src/Scenario.py:521-526 | a text containing the closing reply or "Thank you" is not real content |
| Scenarios.ResultNoFromChatHistory | src/Scenario.py:455-471 | the result is in -1..2; it is -1 for empty text or an empty choice; a result k holds branch k and no earlier branch; if any branch holds, the result is not -1 |
| Scenarios.ResultNoNamesOnlyChoice | src/Scenario.py:465-470 | a text naming choice k alone yields k, unless it is the digit of an earlier choice |
| Scenarios.ResultNoDigit | src/Scenario.py:465-470 | the text "d" yields d, unless an earlier choice occurs alone in it |
| Scenarios.ResultNoAmbiguous | src/Scenario.py:465-471 | a text naming two choices, and not a bare digit, yields -1 |
| Scenarios.DigitShadowedByFirstChoice | src/Scenario.py:465-468 | with choices 1, Nurse, Patient, the text "1" yields 0 |
| Scenarios.TurnChoice | src/Scenario.py:488-494 | the per-turn branch of `foundResultFromChatHistory`, tried in the order 0, 1, 2; stated by `TurnChoiceIsResultNo`, `FoundAnswerAt` and `FoundAnswerIsLatest` |
| Scenarios.TurnChoiceIsResultNo | src/Scenario.py:488-495 | classifying one turn (the upper-cased content compared with the digits) agrees with `resultNoFromChatHistory` on that content |
| Scenarios.FoundAnswer | src/Scenario.py:484-496 | the label of the newest turn that has the role, is real content and names a choice, else ""; stated by `FoundAnswerAt` and `FoundAnswerIsLatest` |
| Scenarios.FoundAnswerAt | src/Scenario.py:484-496 | the answer found is the label of the newest turn that has the role, is real content and names a choice |
| Scenarios.TurnAnswer | src/Scenario.py:484-494 | one turn of the scan names an answer exactly when it is accepted, and then the label returned is that of its choice |
| Scenarios.FoundResultFromChatHistory | src/Scenario.py:475-496 | the newest-first loop with early return gives `FoundAnswer` |
| Scenarios.FoundAnswerIsLatest | src/Scenario.py:484-496 | "" exactly when no turn qualifies; otherwise the label of the newest qualifying turn, older and non-matching turns skipped |
| Scenarios.FoundAnswerIsOffered | src/Scenario.py:488-495 | a non-empty answer is one of the entries of the answer list and of the question that offered it |
| Scenarios.LabelReadsBack | src/Scenario.py:488-495 | the label "k = choice" classifies back to k when no other choice occurs in it |
| Scenarios.LabelMayNotReadBack | src/Scenario.py:341-351 | with choices 1, Nurse, Patient, the turn "Nurse" is reported as "1 = Nurse", and that label classifies to -1 |
| Scenarios.SummaryCandidate | src/Scenario.py:514 | the turn has the role, is real content and is not the termination notice |
| Scenarios.SummaryOf | src/Scenario.py:511-517 | the summary is "" when no turn qualifies; whenever a turn qualifies, it is the content of the newest one (a turn that has the role, is real content and is not the termination notice); a non-empty summary always comes from such a turn |
| Scenarios.SummaryFromChatHistory | src/Scenario.py:500-517 | the newest-first loop with break gives `SummaryOf` |
| Scenarios.StringFromArray | src/Scenario.py:114-130 | the accumulating loop gives `Joined` |
| Scenarios.JoinedAppend | src/Scenario.py:120-130 | joining a concatenation is concatenating the joins |
| Scenarios.JoinedPieces | src/Scenario.py:121-129 | a text part adds a space and its text; a part of another type adds nothing |
| Scenarios.HasFoundExpectedAnswer | src/Scenario.py:530-539 | the answer number equals the expected label; stated by `UnresolvedNeverFound` |
| Scenarios.ExpertOpinion | src/Scenario.py:216-219 | the summary of an expert chat when it has one, else the summary scan of its history |
| Scenarios.ExpertVerdict | src/Scenario.py:256-261 | the branch on the summary gives `ExpertOpinion` |
| Scenarios.FinalAnswer | src/Scenario.py:341-345 | the label found in the final chat, else that chat's summary |
| Scenarios.UnresolvedNeverFound | src/Scenario.py:530-539 | for an expected label in 0..2, the answer -1 never counts as found |
| Scenarios.Counted | src/Scenario.py:272-278 | the `get(name, 0) + 1` counting loops (also those at src/Scenario.py:227-230); stated by `CountedUsage`, `CountedTotal` and `CountedAppend` |
| Scenarios.CountedUsage | src/Scenario.py:274-278 | counting names raises each name's count by its number of occurrences |
| Scenarios.CountedTotal | src/Scenario.py:274-278 | counting names raises the total of all counts by their number |
| Scenarios.CountedAppend | src/Scenario.py:227-230 | counting two lists in turn is counting their concatenation |
| Scenarios.Scenario.constructor | src/Scenario.py:46-57 | name, message and agents stored; no group chat, no user input, an empty usage map |
| Scenarios.Scenario.Outcome | src/Scenario.py:172-358 | a result exists exactly when there is a critic, the critic chat did not raise and the final chat did not raise; it carries the test id and scenario name, the critics' verdict after a space, the final chat's answer (`FinalAnswer`), a value in -1..2 that classifies its text, and whether that value is the expected one |
| Scenarios.Scenario.CountUsage | src/Scenario.py:276-277 | one `get + 1` on the usage map |
| Scenarios.Scenario.CountUsages | src/Scenario.py:273-278 | the counting loop over the chat's messages counts each speaker in order |
| Scenarios.Scenario.ConsultCritics | src/Scenario.py:191-282 | the critic phase succeeds exactly when there is a critic and its chat did not raise; then it returns the joined verdict and has counted the speakers; otherwise the counts are unchanged |
| Scenarios.Scenario.Execute | src/Scenario.py:172-358 | the result is `Outcome`; on success the statistic written is the counts after the critics and the executer, and the case number written beside it is the test id; then the map is reset, the case number with it; on failure the case number stays the test id |
| Scenarios.ExecuteStatistic | src/Scenario.py:272-278 | in the statistic written, each agent's count rises by its number of turns and the total by the number of turns |
| Results.ResultObjects.constructor | src/ResultObject.py:40 | the registry starts empty |
| Results.ResultObject.constructor | src/ResultObject.py:21-33 | the three arguments are stored unchanged; `hasFoundAnswer` holds exactly when the label equals the base answer; the registry grows by exactly the new object |
| Manager.TakeUntilNone | src/ScenarioManager.py:35-46 | the result is no longer than the input; element j is the j-th present value; it stops at the first None |
| Manager.TakeUntilNoneUnique | src/ScenarioManager.py:35-46 | those three facts determine the result |
| Manager.TakeUntilNoneAll | src/ScenarioManager.py:35-46 | with no None, every result is kept |
| Manager.Outcomes | src/ScenarioManager.py:38 | element j is what scenario j's `execute` returns |
| Manager.ExecuteScenario | src/ScenarioManager.py:38 | one `execute` call returns the scenario's outcome |
| Manager.RunScenarios | src/ScenarioManager.py:33-46 | the results are the outcomes up to the first None, in order; the scenarios after the failing one are never executed, and their state is unchanged |
| Manager.ScenarioManager.constructor | src/ScenarioManager.py:10-14 | the scenario list starts empty |
| Manager.ScenarioManager.ProcessQuestion | src/ScenarioManager.py:26-46 | the same, for the registered scenarios |
| Evaluation.SelectByIds | src/Evaluator.py:235 | keeps exactly the records whose id is listed |
| Evaluation.SelectByIdsAppend | src/Evaluator.py:235 | selection distributes over concatenation, so order is preserved |
| Evaluation.SelectByIdsOne | src/Evaluator.py:235 | a single record is kept exactly when its id is listed |
| Evaluation.BaseResultAnswer | src/Evaluator.py:267-269 | the found label when it is non-empty, else the summary; stated by `BaseResultAnswerChoice` |
| Evaluation.BaseResultAnswerChoice | src/Evaluator.py:259-269 | the answer discussed is the found label whenever some turn names a choice; otherwise it is the summary |
| Evaluation.CountMatrix | src/Evaluator.py:359-410 | the 3x3 value matrix of a slot holds the counts |
| Evaluation.HitSum | src/Evaluator.py:359-376 | one record adds 1 to exactly one cell of a slot when its two indices are in 0..2, and nothing otherwise |
| Evaluation.SlotTotalIsResolved | src/Evaluator.py:359-376 | the cells of a slot add up to the number of records whose answer and label are both in 0..2 |
| Evaluation.AddRecord | src/Evaluator.py:359-376 | one `+= 1` on a cell changes that cell only |
| Evaluation.TallyAnswers | src/Evaluator.py:359-410 | the tally of one record adds its hits, slot 0 for the base answer and slot i+1 for scenario i |
| Evaluation.Headers | src/Evaluator.py:347-352 | the six base titles, then four titles per scenario result; stated by `HeadersShape` |
| Evaluation.HeadersShape | src/Evaluator.py:347-352 | a header list has 6 + 4n entries: the six base titles, then four titles per scenario |
| Evaluation.BuildHeaders | src/Evaluator.py:347-352 | the appending loop gives `Headers(n)` |
| Evaluation.RowOf | src/Evaluator.py:378-390 | the six base cells of a record, then four cells per scenario result; stated by `RowFitsHeaders` |
| Evaluation.RowCellsShape | src/Evaluator.py:378-390 | a data row is the base cells followed by four cells per scenario result |
| Evaluation.RowFitsHeaders | src/Evaluator.py:347-390 | a data row is as long as its header, 6 + 4n cells |
| Evaluation.BuildRow | src/Evaluator.py:378-390 | the appending loop gives `RowOf` |
| Evaluation.AtLeastOne | src/Evaluator.py:296 | `max(1, n)` is at least 1 and at least n |
| Evaluation.PrecisionAsWritten | src/Evaluator.py:294-304 | the code's "precision" divides by the column sum, floored at 1 |
| Evaluation.RecallAsWritten | src/Evaluator.py:295-305 | the code's "recall" divides by the row sum, floored at 1 |
| Evaluation.Precision | src/Evaluator.py:294-305 | precision divides by the row sum, floored at 1 |
| Evaluation.Recall | src/Evaluator.py:294-305 | recall divides by the column sum, floored at 1 |
| Evaluation.ColumnSum | src/Evaluator.py:288-293 | `sumActualA..C`: the column sum of a slot's matrix; what it counts (records expected k) is stated by `SumsCount` |
| Evaluation.RowSum | src/Evaluator.py:288-293 | `sumPredictedA..C`: the row sum of a slot's matrix; what it counts (records answered k) is stated by `SumsCount` |
| Evaluation.SumsCount | src/Evaluator.py:294-305 | a row sum counts the records answered k; a column sum counts the records expected k |
| Evaluation.PrecisionAndRecallMeaning | src/Evaluator.py:294-305 | precision is hits over records answered k; recall is hits over records expected k |
| Evaluation.AsWrittenMeaning | src/Evaluator.py:294-305 | as written, "precision" is hits over records expected k and "recall" hits over records answered k: each is the other's textbook quantity |
| Evaluation.PrecisionAsWrittenIsRecall | src/Evaluator.py:294-297 | two records, both answered 0 and expected 0 and 1, give the code's "precision" 1/1 where precision is 1/2 |
| Evaluation.Precisions | src/Evaluator.py:296-299 | `precisionA..C` as the code computes them; their meaning over the records is stated by `AsWrittenMeaning` and `SummaryCellsMeaning` |
| Evaluation.Recalls | src/Evaluator.py:301-305 | `recallA..C` as the code computes them; their meaning over the records is stated by `AsWrittenMeaning` and `SummaryCellsMeaning` |
| Evaluation.SummaryRows | src/Evaluator.py:310-319 | `resultRow0..2`: the precision, recall and F-score rows; their layout is stated by `SummaryRowShape` and their cells by `SummaryCellsMeaning` |
| Evaluation.SummaryRow | src/Evaluator.py:287-316 | the title, four blanks, then the slot cells three blanks apart; stated by `SummaryRowShape` |
| Evaluation.SummaryRowShape | src/Evaluator.py:287-316 | a summary row is the title, four blanks, then slot values three blanks apart |
| Evaluation.SummaryUnderFulfilledColumns | src/Evaluator.py:310-316 | the slot values stand under the "expectation fulfilled" header columns |
| Evaluation.Slots | src/Evaluator.py:292 | one matrix per slot of the counter |
| Evaluation.SlotsAreCounts | src/Evaluator.py:292-305 | a counter holding the counts gives the count matrices |
| Evaluation.AddSlot | src/Evaluator.py:310-316 | a slot value after the first comes after three blanks |
| Evaluation.WriteCountResults | src/Evaluator.py:280-320 | the loop over the slots gives the summary rows of the counter's matrices, with the code's own `precisionA..C` and `recallA..C` |
| Evaluation.SummarizeCounts | src/Evaluator.py:292-316 | the summary rows are those of the count matrices, with the code's own precision and recall ratios |
| Evaluation.SummaryCellsMeaning | src/Evaluator.py:292-316 | for each slot, the precision row reports hits over records expected k and the recall row hits over records answered k, as the code computes them |
| Evaluation.MostScenarioResults | src/Evaluator.py:334-336 | the largest number of scenario results in the list, 0 for none |
| Evaluation.MaxScenarioResults | src/Evaluator.py:334-336 | the `max` loop gives `MostScenarioResults` |
| Evaluation.NewCounter | src/Evaluator.py:334-337 | a zeroed counter with one slot more than the largest number of scenario results, so every index `i+1` fits |
| Evaluation.WriteRecord | src/Evaluator.py:347-410 | one record's header `Headers(n)` for its n scenario results, its row, and its hits added to the counter |
| Evaluation.TallyRecords | src/Evaluator.py:341-412 | the rows of all records in order, and a counter holding the counts |
| Evaluation.WriteRecords | src/Evaluator.py:334-415 | for a non-empty list: the rows, a counter of the right size holding the counts, and the summary rows of those counts with the code's ratios |
| Evaluation.WriteResults | src/Evaluator.py:323-415 | an empty list produces nothing; otherwise the same as `WriteRecords` |
| Config.ReplaceSlash | src/Configvalues.py:28 | `.replace("/", "-")` keeps the length and turns each '/' into '-', every other character unchanged |
| Config.ReplaceSlashRemovesAll | src/Configvalues.py:28 | no '/' is left |
| Config.ReplaceSlashKeepsClean | src/Configvalues.py:28 | a text without '/' is left alone |
| Config.ReplaceSlashIdempotent | src/Configvalues.py:28 | replacing twice is replacing once |
| Config.ReplaceSlashHyphenates | src/Configvalues.py:28 | `replace("/", "-")` turns each '/' into '-' and keeps every other character in place |
| Config.GetLlm | src/Configvalues.py:24-28 | the configured model name with each '/' turned into '-' and every other character kept, so no '/' remains |
| Config.Digits | src/Configvalues.py:20 | a zero-padded field has its width and only digits |
| Config.DigitsValue | src/Configvalues.py:20 | the padded digits read back as the number |
| Config.Format | src/Configvalues.py:20 | `strftime('%Y%m%dT%H%M%S')`: zero-padded year, month, day, 'T', hour, minute, second; stated by `FormatShape` |
| Config.FormatShape | src/Configvalues.py:20 | a timestamp is 15 characters: eight digits, 'T', six digits, reading back as the fields |
| Config.NextNow | src/Configvalues.py:19-20 | a set timestamp is kept; an empty one becomes the formatted clock; either way it is non-empty afterwards |
| Config.NowIsStable | src/Configvalues.py:19-21 | once set, later calls return the same value whatever the clock says |
| Config.Konfigvalues.constructor | src/Configvalues.py:12 | the timestamp starts empty |
| Config.Konfigvalues.GetNowTimestamp | src/Configvalues.py:15-21 | the new timestamp is `NextNow`, and the call returns it |

## Left out

- Everything `autogen` does: the agents and group chats, `initiate_chat`, `clear_history`, the reply callbacks, `discussTopic` and `createSummary`. They are foreign calls. Their products enter as the `Conversation` value.
- The prompt texts built inside `execute` and in `evaluateQuestions` (src/Scenario.py:193-199, 236-241, 315-321; src/Evaluator.py:243). They are text sent to the language model.
- File and console I/O. This covers `writeLineToCsv`, `writeAgentStatistic`, `loadData`'s directory listing and dynamic import, `readQuestions`, and the main block. File names and `os.path.exists` tests are not modelled. So `WriteRecord` returns each record's header, and `TallyRecords` drops it; which headers reach a file depends on which files already exist.
- `json.loads`: a record enters as an already-decoded `Option<JsonObject>`, with `None` for a decode error.
- `ScenarioManager.ask_user` and src/UserProxyAgent.py: console input with no effect on the result.
- `random.sample` in `evaluateQuestions` (src/Evaluator.py:233). Only the ID-based selection of line 235 is modelled. The rest of the `evaluateQuestions` loop is chat calls and prints, and is represented by its deterministic steps: `BaseResultAnswerChoice`, `ResultObject.constructor` and `ProcessQuestion`.
- Evaluation.WriteCountResults: the summary cells hold the three (numerator, denominator) pairs of each slot, `precisionA..C` and `recallA..C` as the code computes them, rather than the float averages and F-score of src/Evaluator.py:307-309. `countTestresults` is not used. When both averages are zero, line 309 divides 0.0 by 0.0 on numpy floats, which gives nan with a runtime warning; nothing here models that value.
- Evaluation.SummarizeCounts: its summary rows carry the same ratio pairs in place of the float averages and F-score.
- Evaluation.WriteRecords: its summary rows carry the same ratio pairs in place of the float averages and F-score.
- Evaluation.WriteResults: its summary rows carry the same ratio pairs in place of the float averages and F-score.
- TestData.FromJson: a record whose required values have other JSON types (a label "1", a null statement) is refused here, although the source stores such values untyped and appends the record. `TestData.TestObjects.Construct` inherits this.
- `loadData` sets `agentCommand` to "Answer the following statement:\n" on every loaded record (src/TestObject.py:129). `FromJson` gives the class default, so the loaded records' agent command is not modelled.
- Evaluation.BaseCells: the "Start question" cell is kept symbolic as `Question(t)` instead of the text `GetQuestion(t)`. The text is given by `TestData.GetQuestion`.
- The counter reset at src/Evaluator.py:343-345 is dead code: `oldFileName` is never set. The model has no mid-run reset.
- The numpy array is an `array3<int>`; the counts are integers, not floats.
- Python's `.upper()` beyond ASCII, `.strip()` beyond ASCII whitespace, and `int()` on non-ASCII decimal digits, which Python accepts.
- Results.ResultObject.constructor: `scenarioResults` is a class attribute in the source, so until src/Evaluator.py:274 binds an instance list, an object reads the one shared empty list. Here each object starts with its own empty `scenarioResults` field. The list is never mutated in place, so no aliasing is lost. The class-level registry `ResultObjects.results` is a `ResultObjects` object passed to the constructor.
- TestData.TestObjects.Construct: the class-level list `TestObjects.testObjectList` is a field of the `TestObjects` object that `Construct` is called on, not state shared by the class.
- `getScenarioManager` (src/Evaluator.py:203-207): it only stores the list, which the constructor and the `scenarios` field cover.

## Findings

| source | as written | input that shows it | evidently intended | confidence | as-written member | corrected member |
|---|---|---|---|---|---|---|
| src/Evaluator.py:294-305 | "precision" divides the diagonal by the column sum (records expected k), "recall" by the row sum (records answered k) | two records in slot 0, both answered 0, expected 0 and 1: the code's precision of answer 0 is 1/1, but one of the two answers 0 was wrong | precision divides by the records answered k, recall by the records expected k | not executed | Evaluation.PrecisionAsWrittenIsRecall | Evaluation.PrecisionAndRecallMeaning |
