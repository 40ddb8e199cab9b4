# Quiz subsystem of tuannt7/tuannt, modelled in Dafny

The site's quiz app loads a set of multiple-choice questions from a URL or from pasted JSON. It then lets the user configure a run (study or exam mode, how many questions, shuffling, a time limit in minutes), answer the questions one at a time, and review the results. This project models that subsystem and proves properties about it. It also models two small helpers next to it: the translation function `t` of the language context, and the source/category selection of the feeds page.

The modules follow the source files:

| module | file | source |
|---|---|---|
| `QuizTypes` | quiz_types.dfy | `src/types/quiz.ts`: `Question`, `QuizConfig`, `QuizResults`, `QuizState` |
| `QuestionLoader` | question_loader.dfy | the normaliser inside `loadQuestions` of `src/hooks/useQuiz.ts` |
| `QuizHook` | quiz_hook.dfy | the rest of `useQuiz`: pure transitions, the session invariant, and the class `QuizSession` |
| `QuizApp` | quiz_app.dfy | `src/pages/QuizApp.tsx`: screen cascade, navigation flags, button wiring |
| `QuizSetup` | quiz_setup.dfy | `src/components/quiz/QuizSetup.tsx`: form defaults, handlers, `handleStart` |
| `QuizResults` | quiz_results.dfy | `src/components/quiz/QuizResults.tsx` |
| `QuestionCard` | question_card.dfy | `src/components/quiz/QuestionCard.tsx` |
| `QuizNavigation` | quiz_navigation.dfy | `src/components/quiz/QuizNavigation.tsx` |
| `TimerDisplay` | timer_display.dfy | `src/components/quiz/TimerDisplay.tsx` |
| `SourceSelector` | source_selector.dfy | `src/components/quiz/QuizSourceSelector.tsx` |
| `Language` | language.dfy | `src/contexts/LanguageContext.tsx` |
| `Feeds` | feeds.dfy | `src/pages/FeedsPage.tsx` |
| `JsText` | js_text.dfy | JavaScript built-ins the code relies on |
| `Wrappers` | wrappers.dfy | `Option` and `Result` |

How things are modelled:

- **State.** State the source keeps with `useState` becomes fields of a class, and handlers become methods that assign them.
  - The hook keeps a single `QuizState` record, so `QuizHook.QuizSession` has one field `quizState` plus `currentSourceName`.
  - Each method's `ensures` ties the new record to a pure transition function of the old one, such as `Started` or `Finished`. The properties are proved about those functions.
  - The session invariant `QuizHook.WellFormed` holds initially and is preserved by every action. Each method promises `old(Valid()) ==> Valid()`.
- **Inputs that come from outside.** Network responses, `JSON.parse` results, the `URL` constructor's verdict, `localStorage`, `import.meta.env` and `Date.now()` are all parameters.
- **Shuffling.** `sort(() => Math.random() - 0.5)` is modelled as a sequence of exchanges passed in; the result is proved to be a permutation of the pool.
- **Timer.** The one-second interval is an explicit `Tick`, which fires only while the timer effect would keep an interval.
- **JavaScript semantics written out in `JsText`:**
  - `parseInt` gives `Option<int>`, with `None` for `NaN`; `x || d` is written out as well.
  - `%` truncates toward zero.
  - `Math.round(a / b * 100)` is `(200a + b) div 2b` for `b > 0`, the rounding of the exact quotient; division by zero gives `None` (`NaN`/infinity).
  - `slice` with a negative end; `split` and `join`.
  - Writing past the end of an array grows it with holes.
- **Values that are not plain.**
  - A `null` answer is `None`.
  - A `null` element of the question array is its own alternative, `QuestionLoader.NullItem`, which fails the load.
  - An absent `question`, `text`, `correct`, `correctAnswer`, environment value or saved language is `None`.

Behaviour kept as the code has it:

- When the timer runs out, the tick itself marks the run completed without scoring it. The auto-finish effect is therefore dead code: `QuizHook.AutoFinishNeverDue` and `QuizHook.RunPreservesWellFormed` prove it never fires. A run that expires keeps score 0 while the review marks the answered questions right (`QuizResults.ExpiredRunShowsStartScore`).
- `backToSetup` also clears the time limit.
- `startQuiz` does not check the current phase.
- `finishQuiz` may be called twice, and stays idempotent.
- A negative custom question count passes `handleStart`, because `parseInt` gives a truthy value below the pool size. `slice(0, -k)` then drops the last `k` questions (`QuizSetup.NegativeCustomCount`).
- On the feeds page, choosing a source without categories keeps the previous source's category. Feeds are then requested with that stale pair (`Feeds.StaleCategoryRequest`).
- `formatTime` in `QuizResults.tsx` is the same expression as in `TimerDisplay.tsx`, so both use `TimerDisplay.FormatTime`.

## Model

| member | source | states |
|---|---|---|
| QuizHook.JsSet | src/hooks/useQuiz.ts:247-248 | writing answer `v` at index `i`: a negative index changes nothing; otherwise slot `i` holds `v`, the other slots keep their values, and a gap past the old end reads as no answer |
| QuizHook.Swap | src/hooks/useQuiz.ts:218 | one exchange of the random sort keeps the length and the multiset of questions |
| QuizHook.Shuffled | src/hooks/useQuiz.ts:217-219 | the shuffled pool is a permutation of the pool: same length, same multiset |
| QuizHook.SourceLabelNeverEmpty | src/hooks/useQuiz.ts:68 | the stored source name is never empty, keeps a non-empty given name, and loading again under the stored name stores the same name |
| QuizHook.CountHitsIsHitSet | src/hooks/useQuiz.ts:279-284 | the `reduce` over the first `n` answers equals the number of positions whose answer is the question's correct index |
| QuizHook.CountHitsBounded | src/hooks/useQuiz.ts:279-284 | the count is at most `n` and at most the number of questions |
| QuizHook.ScoreMeaning | src/hooks/useQuiz.ts:279-284 | the score is the size of the set of right answers, at most one per question and per answer |
| QuizHook.ScoreExtremes | src/hooks/useQuiz.ts:279-284 | all answers right scores `n`; all answers null scores 0 |
| QuizHook.PrefixSubMultiset | src/hooks/useQuiz.ts:223 | a `slice(0, k)` prefix holds a sub-multiset of the sequence |
| QuizHook.DrawnShape | src/hooks/useQuiz.ts:214-224 | the run's questions: a sub-multiset of the pool; the whole pool (as a multiset) for `'all'`; a prefix of the pool when not shuffled; `min(n, pool)` questions for `n >= 0`; all but the last `-n` for `n < 0` |
| QuizHook.DrawnFromPool | src/hooks/useQuiz.ts:214-224 | every drawn question is some question of the pool |
| QuizHook.StartedShape | src/hooks/useQuiz.ts:213-242 | `startQuiz`: drawn questions, all-null answers of the same length, index 0, score 0, not completed, not configuring; timer active iff the limit is non-null and non-zero, remaining `60 * limit`; pool, loading and error untouched |
| QuizHook.NegativeCountDropsTail | src/hooks/useQuiz.ts:222-224 | a count of `-1` over a pool of three runs the first two questions |
| QuizHook.AnswerSelectedShape | src/hooks/useQuiz.ts:244-254 | `selectAnswer` changes nothing once completed; otherwise only the current question's slot changes, to the chosen index |
| QuizHook.NextThenPrevious | src/hooks/useQuiz.ts:256-272 | moving forward then back, when forward was possible, restores the state |
| QuizHook.FinishedShape | src/hooks/useQuiz.ts:274-292 | `finishQuiz` completes the run, stops the timer, sets the score to the number of right answers (at most the questions), and a second call changes nothing |
| QuizHook.RestartedShape | src/hooks/useQuiz.ts:294-307 | `restartQuiz` keeps the questions, their order, the mode and the limit; clears answers, index and score; re-arms the timer iff the limit is non-zero |
| QuizHook.RestartIsStartAgain | src/hooks/useQuiz.ts:294-307 | restarting any run, shuffled or cut short, equals starting again unshuffled with `'all'` over exactly the run's questions with the same mode and limit; the pool and the phase flag stay |
| QuizHook.BackedToSetupShape | src/hooks/useQuiz.ts:334-353 | `backToSetup` empties the run, keeps the pool and mode, and leaves no timer to tick or auto-finish |
| QuizHook.LoadCompletedShape | src/hooks/useQuiz.ts:187-209 | a successful load stores a non-empty pool of valid questions and opens the setup; a failed one changes only `isLoading` and `error` |
| QuizHook.CountdownRuns | src/hooks/useQuiz.ts:28-42 | while time is left, `k` ticks take exactly `k` seconds off and change nothing else |
| QuizHook.TimerExpires | src/hooks/useQuiz.ts:29-36 | after as many ticks as seconds remain, the run is completed with the timer stopped and the score and answers unchanged; further ticks do nothing |
| QuizHook.TickNSplit | src/hooks/useQuiz.ts:27-43 | `k + 1` ticks are `k` ticks then one more |
| QuizHook.AutoFinishNeverDue | src/hooks/useQuiz.ts:59-64 | in every well-formed state the auto-finish condition is false, so the effect changes nothing |
| QuizHook.LoadCompletedWellFormed | src/hooks/useQuiz.ts:187-209 | completing a load keeps the session invariant |
| QuizHook.StartedWellFormed | src/hooks/useQuiz.ts:213-242 | starting a run keeps the session invariant |
| QuizHook.AnswerSelectedWellFormed | src/hooks/useQuiz.ts:244-254 | selecting an answer keeps the session invariant |
| QuizHook.FinishedWellFormed | src/hooks/useQuiz.ts:274-292 | finishing keeps the session invariant |
| QuizHook.StepPreservesWellFormed | src/hooks/useQuiz.ts:24-353 | every operation of the hook keeps the session invariant |
| QuizHook.RunPreservesWellFormed | src/hooks/useQuiz.ts:24-353 | every sequence of operations keeps the invariant, and the auto-finish is never due along it |
| QuizHook.InitialWellFormed | src/hooks/useQuiz.ts:5-19 | the initial state satisfies the session invariant |
| QuizHook.QuizSession.constructor | src/hooks/useQuiz.ts:5-21 | the hook starts from the initial record with an empty source name |
| QuizHook.QuizSession.StartLoading | src/hooks/useQuiz.ts:66-68 | sets loading, clears the error, stores the source label |
| QuizHook.QuizSession.CompleteLoading | src/hooks/useQuiz.ts:70-210 | the record becomes `LoadCompleted` of the old one for what the fetch produced |
| QuizHook.QuizSession.StartQuiz | src/hooks/useQuiz.ts:213-242 | the record becomes `Started` of the old one |
| QuizHook.QuizSession.SelectAnswer | src/hooks/useQuiz.ts:244-254 | the record becomes `AnswerSelected` of the old one |
| QuizHook.QuizSession.NextQuestion | src/hooks/useQuiz.ts:256-263 | the index grows by one only when not on the last question |
| QuizHook.QuizSession.PreviousQuestion | src/hooks/useQuiz.ts:265-272 | the index shrinks by one only when above zero |
| QuizHook.QuizSession.FinishQuiz | src/hooks/useQuiz.ts:274-292 | the loop computes the `reduce` score; the record becomes `Finished` of the old one |
| QuizHook.QuizSession.RestartQuiz | src/hooks/useQuiz.ts:294-307 | the record becomes `Restarted` of the old one |
| QuizHook.QuizSession.ResetQuiz | src/hooks/useQuiz.ts:309-332 | the record is the initial one and the source name is empty |
| QuizHook.QuizSession.BackToSetup | src/hooks/useQuiz.ts:334-353 | the record becomes `BackedToSetup` of the old one |
| QuizHook.QuizSession.Tick | src/hooks/useQuiz.ts:25-43 | one interval firing: one second off, or completion at the last second; nothing while no interval runs |
| QuizHook.QuizSession.AutoFinish | src/hooks/useQuiz.ts:59-64 | the effect finishes only when due; on a valid session it changes nothing |
| QuestionLoader.FallbackIndex | src/hooks/useQuiz.ts:137-143 | the rescue index is `correct ?? correctAnswer`: an in-range `correct` is taken; with no `correct`, an in-range `correctAnswer` is taken; nothing else is returned, and a returned index always names an option |
| QuestionLoader.ScanStable | src/hooks/useQuiz.ts:108-134 | once an option is malformed the `forEach` has thrown: later options change nothing |
| QuestionLoader.ScanMalformed | src/hooks/useQuiz.ts:108-134 | the loop reports a malformed option iff there is one, and then the first one |
| QuestionLoader.ScanTexts | src/hooks/useQuiz.ts:110-130 | a clean scan pushes every option's text, in order |
| QuestionLoader.ScanFlagged | src/hooks/useQuiz.ts:110-130 | a clean scan lists exactly the options flagged correct (a string at index `correct` or `correctAnswer`, an object with `isCorrect: true`), in increasing order |
| QuestionLoader.ScanSingleFlag | src/hooks/useQuiz.ts:110-130 | with exactly one flagged option the scan lists just that one |
| QuestionLoader.ScanOptions | src/hooks/useQuiz.ts:103-134 | the loop's `options`, `correctAnswers`, `correctCount` and `correctIndex` (the last flagged one, or -1) match the scan; a malformed option gives the object/non-object error at its 1-based position |
| QuestionLoader.NormalizeRecord | src/hooks/useQuiz.ts:88-183 | one record's check, in the code's order, equals the record specification |
| QuestionLoader.CollectOk | src/hooks/useQuiz.ts:88 | collecting succeeds iff every outcome does, with one value per outcome in order |
| QuestionLoader.CollectFirstError | src/hooks/useQuiz.ts:88 | the first failing outcome's error is the collected error |
| QuestionLoader.CollectAllOk | src/hooks/useQuiz.ts:88 | outcomes that all succeed collect to their values |
| QuestionLoader.CollectErr | src/hooks/useQuiz.ts:88 | a failed collection is the error of its first failing outcome |
| QuestionLoader.Normalize | src/hooks/useQuiz.ts:77-183 | the payload checks (not JSON, not an array, empty) and the element loop, a `null` element included, equal the payload specification |
| QuestionLoader.AcceptedRecordShape | src/hooks/useQuiz.ts:88-183 | an accepted record keeps its question and option texts in order, gets `id = position + 1`, indexes one of its at least two options, and defaults the explanation to `''` |
| QuestionLoader.AcceptedIff | src/hooks/useQuiz.ts:88-174 | a record is accepted iff its question is non-empty, it has at least two options, all well formed, and exactly one is flagged or none is and the fallback index applies |
| QuestionLoader.AcceptedCorrectIsTheFlaggedOne | src/hooks/useQuiz.ts:110-143 | the accepted `correct` is the single flagged option, or, with none flagged, the fallback index |
| QuestionLoader.ObjectFormSingleTrue | src/hooks/useQuiz.ts:118-130 | object options with exactly one `isCorrect: true` are accepted with `correct` at that option |
| QuestionLoader.SeveralCorrectReported | src/hooks/useQuiz.ts:150-174 | more than one flagged option fails with the record number, the question, every flagged 1-based index in order and their texts |
| QuestionLoader.TwoTrueOptionsExample | src/hooks/useQuiz.ts:150-174 | two `isCorrect: true` options fail naming options 1 and 2 |
| QuestionLoader.LoadAllOrNothing | src/hooks/useQuiz.ts:83-183 | a load succeeds iff there are elements and all are records that are accepted; it then holds one question per record in order with `id = position + 1`; otherwise it fails with the first rejected element's error |
| QuestionLoader.NullElementFailsLoad | src/hooks/useQuiz.ts:88-90 | a `null` element fails the load, with the `TypeError` of reading its `question` when every earlier element was accepted |
| QuestionLoader.LoadedQuestionsOk | src/hooks/useQuiz.ts:70-183 | every successful load, whatever the transport, gives a non-empty list of valid questions |
| QuizApp.ScreenCases | src/pages/QuizApp.tsx:51-138 | each screen is selected exactly by its condition: source selection when nothing is loaded, loading before error, error before setup, then results iff completed, else the run |
| QuizApp.NavigationFlags | src/pages/QuizApp.tsx:43-48 | on a run's question exactly one of can-go-next and last-question holds; the flags say exactly when moving changes the index; the card's answer is present iff the bar counts one as selected |
| QuizApp.NextButton | src/pages/QuizApp.tsx:241-251 | Next finishes on the last question and moves on otherwise; in study mode it does nothing until an answer is chosen; finishing shows the results |
| QuizApp.BackToSourceSelection | src/pages/QuizApp.tsx:112 | only Retry and the setup's Back call `resetQuiz`, and it shows the source selection |
| QuizApp.BackToSetupScreen | src/pages/QuizApp.tsx:159 | only "load new quiz" and the run's Back call `backToSetup`; it shows the setup with the same pool |
| QuizApp.IntoARun | src/pages/QuizApp.tsx:126 | Start on the setup and Restart on the results both lead to the run screen |
| QuizApp.WiredKeepsWellFormed | src/pages/QuizApp.tsx:68-251 | every operation the page calls keeps the session invariant |
| QuizApp.StudyClickColoursCard | src/pages/QuizApp.tsx:229-235 | clicking an option in a study run selects it; the correct option turns green and a wrong click red |
| QuizApp.ExplanationShown | src/components/quiz/QuestionCard.tsx:120-121 | on a run's question the explanation never shows in an exam; in study mode it shows iff the current question has an answer and a non-empty explanation, so choosing an option reveals it |
| QuizSetup.CustomCount | src/components/quiz/QuizSetup.tsx:41 | the custom count never exceeds the pool |
| QuizSetup.CustomCountMeaning | src/components/quiz/QuizSetup.tsx:41 | empty, unparsable or zero input means the whole pool; a parsed non-zero number up to the pool is taken as is |
| QuizSetup.CustomCountOfTypedNumber | src/components/quiz/QuizSetup.tsx:41 | typing a positive number up to the pool gives that number; empty input gives the pool |
| QuizSetup.DeriveConfigShape | src/components/quiz/QuizSetup.tsx:37-56 | mode and shuffling are forwarded; `'all'` iff `'all'`; the custom count is at most the pool; no limit stays none, 0 becomes none, -1 becomes the parsed minutes or none; the limit is never 0 |
| QuizSetup.DefaultConfig | src/components/quiz/QuizSetup.tsx:24-56 | the default form starts an unshuffled study run over all questions without a limit |
| QuizSetup.StartFromForm | src/components/quiz/QuizSetup.tsx:37-56 | a run started from a custom count has at most the pool's questions, exactly the typed number when in range; a custom limit arms the timer iff the typed minutes are positive |
| QuizSetup.NegativeCustomCount | src/components/quiz/QuizSetup.tsx:41 | a negative typed count passes and drops that many questions from the end of the pool |
| QuizSetup.MinusOneParses | src/components/quiz/QuizSetup.tsx:41 | the text `"-1"` parses as minus one |
| QuizSetup.SetupForm.constructor | src/components/quiz/QuizSetup.tsx:24-29 | the fields start at the defaults |
| QuizSetup.SetupForm.SetMode | src/components/quiz/QuizSetup.tsx:86 | sets only the mode |
| QuizSetup.SetupForm.ChooseAllQuestions | src/components/quiz/QuizSetup.tsx:188 | sets only the count to `'all'` |
| QuizSetup.SetupForm.ChooseCustomCount | src/components/quiz/QuizSetup.tsx:204 | sets only the count to `'custom'` |
| QuizSetup.SetupForm.SetCustomQuestionCount | src/components/quiz/QuizSetup.tsx:214 | sets only the typed count |
| QuizSetup.SetupForm.SetRandomize | src/components/quiz/QuizSetup.tsx:237 | sets only the shuffle flag |
| QuizSetup.SetupForm.ChooseNoLimit | src/components/quiz/QuizSetup.tsx:139 | sets only the limit to none |
| QuizSetup.SetupForm.ChooseCustomTime | src/components/quiz/QuizSetup.tsx:153 | sets only the limit to the custom choice (-1) |
| QuizSetup.SetupForm.SetCustomTimeLimit | src/components/quiz/QuizSetup.tsx:163 | sets only the typed minutes |
| QuizSetup.SetupForm.HandleStart | src/components/quiz/QuizSetup.tsx:37-56 | returns the derived configuration: the chosen mode and shuffle, a limit that is never 0, and a custom count within the pool |
| QuizResults.Summary | src/components/quiz/QuizResults.tsx:32-33 | correct plus incorrect is the total; the percentage is `RoundedPercent` of the score |
| QuizResults.SummaryShape | src/components/quiz/QuizResults.tsx:32-33 | with questions, the percentage is in [0, 100], 0 for none right, 100 for all, and never lower for a higher score |
| QuizResults.EmptyRunSummary | src/components/quiz/QuizResults.tsx:32-42 | without questions the percentage is `NaN` and the band is "needs improvement" |
| QuizResults.PerformanceBands | src/components/quiz/QuizResults.tsx:35-40 | the four bands by threshold, both ways, monotone in the percentage |
| QuizResults.OptionMarks | src/components/quiz/QuizResults.tsx:57-94 | the tick marks the correct option whether chosen or not, the cross only a chosen wrong option, and the style tells all four combinations apart |
| QuizResults.SummaryOfMeaning | src/components/quiz/QuizResults.tsx:207-209 | no answer exactly for a null answer, right exactly for the questions marked right, which are the questions the score counts |
| QuizResults.MarkedAgreesWithScore | src/components/quiz/QuizResults.tsx:207-209 | the questions the review marks right are the ones the score counts |
| QuizResults.FinishedCardMatchesReview | src/components/quiz/QuizResults.tsx:32-33 | after `finishQuiz` the score card's correct count equals the number of right marks |
| QuizResults.TimeUsedCountsTicks | src/components/quiz/QuizResults.tsx:50-54 | after `k` ticks of a run with a limit of `m` minutes, the time used is `k`, and the time is up iff `k = 60 m` |
| QuizResults.TicksUsed | src/components/quiz/QuizResults.tsx:50-54 | the same from any armed timer of `m` full minutes |
| QuizResults.ExpiredRunShowsStartScore | src/components/quiz/QuizResults.tsx:32 | a one-question run answered right and left to expire shows score 0 while the review marks one right |
| QuizResults.RemainingShownIff | src/components/quiz/QuizResults.tsx:167-169 | the remaining box shows the time-up label iff the remaining time is 0, and `0:00` when there is none |
| QuestionCard.StudyFeedback | src/components/quiz/QuestionCard.tsx:26-37 | in study mode with an answer: the correct option green with a check, a chosen wrong one red with a cross, the rest grey circles |
| QuestionCard.NothingChosen | src/components/quiz/QuestionCard.tsx:40-42 | with no answer every option has the open look and no dot |
| QuestionCard.ExamHidesCorrectness | src/components/quiz/QuestionCard.tsx:44-51 | in an exam without results the choice is blue with a dot, the rest grey, and the class does not depend on the correct index |
| QuestionCard.ExamResults | src/components/quiz/QuestionCard.tsx:44-85 | with results shown: a chosen option green iff right and red iff wrong, the correct one green with a check |
| QuestionCard.ClassAndIconAgree | src/components/quiz/QuestionCard.tsx:22-86 | green goes with a check, red with a cross, blue iff a dot, grey with a circle; the open look carries a check only on the correct option when results are shown |
| QuizApp.CounterShape | src/components/quiz/QuizNavigation.tsx:60-63 | on a run's question the counter shows a position from 1 up to the number of questions, and equals that number exactly on the last question |
| QuizNavigation.ProgressShape | src/components/quiz/QuizNavigation.tsx:66-68 | on a run's question the progress is in [0, 100], 100 on the last question, and never falls moving forward |
| QuizNavigation.ProgressOfThree | src/components/quiz/QuizNavigation.tsx:66-68 | three questions show 33, 67 and 100 |
| TimerDisplay.ColorMonotone | src/components/quiz/TimerDisplay.tsx:28-37 | red iff at most 60 s, orange iff 61 to 300 s; less time never looks calmer; the alert icon iff red |
| TimerDisplay.FormatTimeReadsBack | src/components/quiz/TimerDisplay.tsx:22-26 | `m:ss` splits at its one colon into the minutes and exactly two digits of seconds, which read back as `s div 60` and `s mod 60` |
| TimerDisplay.FormatTimeParts | src/components/quiz/TimerDisplay.tsx:22-26 | the text is the minutes, a colon and the padded seconds, with no other colon |
| TimerDisplay.PaddedSecondsReadBack | src/components/quiz/TimerDisplay.tsx:24-25 | the padded seconds are two digits that read back as the seconds |
| TimerDisplay.FormatTimeExamples | src/components/quiz/TimerDisplay.tsx:22-26 | 95 s shows `1:35`, 5 s shows `0:05` |
| TimerDisplay.VisibleIffTimerActive | src/components/quiz/TimerDisplay.tsx:18-20 | in a session the countdown shows exactly while the timer runs |
| SourceSelector.FallbackSources | src/components/quiz/QuizSourceSelector.tsx:39-52 | the loop over slots 1 to 4 builds the fallback list |
| SourceSelector.FallbackShape | src/components/quiz/QuizSourceSelector.tsx:39-52 | at most one source per slot, each with a name and a URL, exactly the slots configured with both |
| SourceSelector.NormalizeAllShape | src/components/quiz/QuizSourceSelector.tsx:74-77 | the list fails iff an element is null; otherwise it keeps exactly the normalised items that have a URL, each with a name |
| SourceSelector.FetchOutcomeShape | src/components/quiz/QuizSourceSelector.tsx:55-102 | a fetched array shows its list with no error; every failure shows the fallback list, at most four |
| SourceSelector.ShownShape | src/components/quiz/QuizSourceSelector.tsx:36 | the screen shows the first sources, at most the limit, at most four when unconfigured |
| SourceSelector.PredefinedClickLoadsListedSource | src/components/quiz/QuizSourceSelector.tsx:252-256 | a click on a shown card loads a listed source that has a URL, under its name; after a successful fetch it is the normalised form of a fetched item |
| SourceSelector.InputsGateLoading | src/components/quiz/QuizSourceSelector.tsx:134-160 | the URL input can load iff non-empty, parsing, and http(s); the JSON input iff non-blank and a non-empty array |
| SourceSelector.FtpRejected | src/components/quiz/QuizSourceSelector.tsx:107 | an `ftp://` address is never valid |
| SourceSelector.Selector.constructor | src/components/quiz/QuizSourceSelector.tsx:22-31 | the initial tab, inputs, validations and fetch state |
| SourceSelector.Selector.BeginFetch | src/components/quiz/QuizSourceSelector.tsx:58-59 | sets loading and clears the error |
| SourceSelector.Selector.FinishFetch | src/components/quiz/QuizSourceSelector.tsx:61-98 | stores the fetched or fallback list, records a failure, ends loading |
| SourceSelector.Selector.FetchPredefined | src/components/quiz/QuizSourceSelector.tsx:56-99 | the whole fetch leaves the list and the error of the fetch outcome |
| SourceSelector.Selector.SelectTab | src/components/quiz/QuizSourceSelector.tsx:167-191 | sets only the tab |
| SourceSelector.Selector.HandleUrlChange | src/components/quiz/QuizSourceSelector.tsx:134-141 | stores the URL; no verdict for empty input, else the URL verdict |
| SourceSelector.Selector.HandleJsonChange | src/components/quiz/QuizSourceSelector.tsx:143-146 | stores the text and its JSON verdict |
| SourceSelector.Selector.HandleLoadFromUrl | src/components/quiz/QuizSourceSelector.tsx:148-152 | loads, as "Custom URL", exactly when the URL button is enabled; on a consistent form what it loads is an `http`/`https` address |
| SourceSelector.Selector.HandleLoadFromJson | src/components/quiz/QuizSourceSelector.tsx:154-160 | loads, as "Custom JSON", exactly when the JSON button is enabled and `btoa` accepts the text (no character above U+00FF); on a consistent form the text is not blank |
| Language.WordRun | src/contexts/LanguageContext.tsx:66 | the longest run of `\w` characters at the start |
| Language.PlaceholderLength | src/contexts/LanguageContext.tsx:66 | a match of `\{(\w+)\}` at the start: braces around a non-empty word run |
| Language.Translate | src/contexts/LanguageContext.tsx:46-72 | the loop's result equals the specification of `t` |
| Language.SubstituteNothing | src/contexts/LanguageContext.tsx:65-69 | without a usable parameter the text is unchanged |
| Language.SubstituteWithoutBraces | src/contexts/LanguageContext.tsx:65-69 | text without `{` is unchanged |
| Language.PlaceholderFilled | src/contexts/LanguageContext.tsx:66-68 | a `{word}` with a usable parameter becomes the parameter's text, and the rest follows |
| Language.TranslateFallbacks | src/contexts/LanguageContext.tsx:47-71 | a missing path or a non-string value returns the key; no params or none usable return the stored text |
| Language.TranslatePath | src/contexts/LanguageContext.tsx:47-57 | the dotted key of a path finds the text stored there |
| Language.SavedRoundTrip | src/contexts/LanguageContext.tsx:32-43 | the code the save effect writes is read back by the mount effect as the same language; a saved value changes the language only when it is that language's code |
| Language.LanguageProvider.constructor | src/contexts/LanguageContext.tsx:29 | the language starts as Vietnamese |
| Language.LanguageProvider.LoadSaved | src/contexts/LanguageContext.tsx:32-37 | the mount effect adopts the saved choice |
| Language.LanguageProvider.SetLanguage | src/contexts/LanguageContext.tsx:29 | sets the language |
| Feeds.RelativeTimeBuckets | src/pages/FeedsPage.tsx:130-144 | minutes under an hour, hours under a day, days otherwise, each the whole units elapsed |
| Feeds.DefaultSelectionListed | src/pages/FeedsPage.tsx:66-73 | the default selection is the first listed source with one of its own categories, the same pair choosing that source selects; a non-empty category is then requested |
| Feeds.StaleCategoryRequest | src/pages/FeedsPage.tsx:105-111 | switching to a source without categories requests it with the old category |
| Feeds.FeedsPage.constructor | src/pages/FeedsPage.tsx:28-34 | the initial page state |
| Feeds.FeedsPage.LoadSources | src/pages/FeedsPage.tsx:54-81 | a response stores the sources and the default selection; a failure records the error and keeps the rest |
| Feeds.FeedsPage.LoadFeeds | src/pages/FeedsPage.tsx:83-103 | a response stores the feeds; a failure records the error and keeps the feeds |
| Feeds.FeedsPage.HandleSourceChange | src/pages/FeedsPage.tsx:105-111 | the selection becomes `SourceChanged` of the old one |
| Feeds.FeedsPage.Refresh | src/pages/FeedsPage.tsx:113-117 | the request made is the feeds request of the selection |
| JsText.NatToString | src/components/quiz/TimerDisplay.tsx:25 | the decimal text of a number is non-empty and all digits |
| JsText.LeadingDigits | src/components/quiz/QuizSetup.tsx:41 | the longest digit prefix `parseInt` reads |
| JsText.DigitsValueOfNatToString | src/components/quiz/QuizSetup.tsx:41 | the digits of a number read back as the number |
| JsText.ParseIntOfIntToString | src/components/quiz/QuizSetup.tsx:41 | `parseInt(String(n))` is `n` for every integer |
| JsText.PadStart2 | src/components/quiz/TimerDisplay.tsx:25 | `padStart(2, '0')`: at least two characters, the original at the end, zeros before |
| JsText.JsRem | src/components/quiz/TimerDisplay.tsx:24 | `%` takes the sign of the dividend: for non-negative input it is the remainder, for negative input minus the remainder of its absolute value |
| JsText.RoundedPercent | src/components/quiz/QuizResults.tsx:32 | `Math.round(a / b * 100)` over the exact quotient: none iff `b = 0`, else the integer nearest to `100 a / b`, exact halves up |
| JsText.RoundedPercentBounds | src/components/quiz/QuizResults.tsx:32 | for `0 <= a <= b` the rounded percentage is in [0, 100], 0 at 0, 100 at `b` |
| JsText.RoundedPercentMonotone | src/components/quiz/QuizResults.tsx:32 | the rounded percentage never falls as `a` grows |
| JsText.SliceFromStart | src/hooks/useQuiz.ts:223 | `slice(0, end)` is a prefix of length `min(end, n)`, or `n + end` for a negative end |
| JsText.Split | src/contexts/LanguageContext.tsx:47 | `split` gives at least one part, none holding the separator |
| JsText.JoinSplit | src/contexts/LanguageContext.tsx:47 | joining the parts of a split gives back the key |
| JsText.SplitJoin | src/contexts/LanguageContext.tsx:47 | splitting a join of separator-free parts gives back the parts |
| JsText.SplitAtSeparator | src/components/quiz/TimerDisplay.tsx:25 | a string with one separator splits into its two sides |

## Left out

- Network calls and `await`: each load is split at its `await`, and the response is a parameter. React batching and render interleaving are left out: each `setState(prev => …)` applies to the state the operation reads. Nothing guards against stale responses, so the model has none either.
- `JSON.parse`, `response.json()` and the `URL` constructor: their results are inputs. `btoa` is modelled only by when it throws (a character above U+00FF); the JSON request carries the pasted text, not the base-64 data URL built from it.
- Question and option values: a `question`, `text` or `correct` that is not a string or number, `typeof` checks on other value kinds, and non-integer numbers are not modelled. `correct`/`correctAnswer` are whole numbers or absent, so `item.correct ?? item.correctAnswer` applied to a non-number `correct` is left out.
- The shuffle's distribution and bias, and which orders it can produce: the exchanges are an input, and only that they keep the multiset of questions is proved.
- Error texts and `console` logging: errors are kinds carrying the positions they name.
- The `'checking'` JSON validation state: `validateJson` sets it and overwrites it before any render, so only the final verdict is kept.
- `localStorage` writes (only the stored code, `Language.Code`, is modelled), `document.documentElement.lang`, `Date.now()` and `toLocaleDateString`. Translation files: the dictionary is a parameter.
- `parseInt`: hexadecimal prefixes and digits beyond what `String(n)` produces are modelled only as the leading-decimal rule.
- JsText.RoundedPercent: rounds the exact quotient, so exact halves round up; the program divides and multiplies in double precision first, which can round them down (23 of 40 shows 57 there and 58 here; likewise 29, 57 and 113 of 200). `QuizResults.Summary` and `QuizNavigation.Progress` inherit this. The bounds, the 0 and 100 endpoints and the monotonicity proved about it hold of the double computation too.
- QuizResults.Summary: its percentage is `JsText.RoundedPercent` of the score, so it shows one more than the results screen at the exact halves named above.
- `Object.keys` order and prototype keys in `t` and the feeds source map: both are modelled as ordered sequences and maps of own keys.
- The run screen with no questions renders `undefined` as the current question and fails in the browser. This is not modelled. The invariant only records that such a run has at most one answer slot.
- The card's `selectedAnswer !== null` test for a missing answer slot: the page passes `undefined` there, but a well-formed run of questions always has the slot (`QuizApp.NavigationFlags`).
- `handleStart`'s fixed-number count and its `timeLimit === 0` branch cannot be reached from the form's handlers. They are modelled in `QuizSetup.DeriveConfig` and excluded by `QuizSetup.Reachable`. The HTML `min`/`max` attributes of the inputs are not enforced by the code and not modelled.
- The markup, icons and Tailwind classes: these are enums. The `showDetails` toggle of the results screen is display-only.
- `GRID_COLUMNS`, `API_URL` and the feed endpoint URLs: constants of the layout or the transport.
