/**
 * The quiz session of `useQuiz`: one `QuizState` record that every operation
 * replaces by a new one. The pure transitions below say what each operation
 * produces from the current state; `QuizSession` is the hook itself, a record
 * of mutable fields whose methods perform those transitions in place.
 *
 * Each `setQuizState(prev => …)` is applied to the state the operation reads,
 * one operation at a time; the renders React interleaves are not modelled.
 */
module QuizHook {
  import opened Wrappers
  import opened QuizTypes
  import QuestionLoader
  import JsText

  // ---------------------------------------------------------------------------
  // Helpers for the JavaScript the hook relies on

  /** `new Array(n).fill(null)`. */
  function Nulls(n: nat): (r: seq<Option<int>>)
    ensures |r| == n && forall i :: 0 <= i < n ==> r[i] == None
  {
    seq(n, _ => None)
  }

  /**
   * `a[i] = v` on a JavaScript array: an index past the end grows the array
   * (the gap reads as no answer); a negative index sets a property, not an element.
   */
  function JsSet(a: seq<Option<int>>, i: int, v: int): (r: seq<Option<int>>)
    ensures i < 0 ==> r == a
    ensures i >= 0 ==> |r| == (if i < |a| then |a| else i + 1) && r[i] == Some(v)
    ensures i >= 0 ==> forall k :: 0 <= k < |r| && k != i ==> r[k] == if k < |a| then a[k] else None
  {
    if i < 0 then a
    else if i < |a| then a[i := Some(v)]
    else a + Nulls(i - |a|) + [Some(v)]
  }

  /** Exchanging two positions; a pair out of range leaves the sequence alone. */
  function Swap<T>(s: seq<T>, i: int, j: int): (r: seq<T>)
    ensures |r| == |s| && multiset(r) == multiset(s)
  {
    if 0 <= i < |s| && 0 <= j < |s| then s[i := s[j]][j := s[i]] else s
  }

  /**
   * The order `sort(() => Math.random() - 0.5)` leaves: the random comparator
   * is abstracted as a sequence of exchanges, which reaches every permutation.
   */
  function Shuffled<T>(s: seq<T>, swaps: seq<(int, int)>): (r: seq<T>)
    ensures |r| == |s| && multiset(r) == multiset(s)
    decreases |swaps|
  {
    if swaps == [] then s else Shuffled(Swap(s, swaps[0].0, swaps[0].1), swaps[1..])
  }

  /** `timeLimit ? timeLimit * 60 : null`: minutes to seconds, `0` meaning unlimited. */
  function TimeRemainingFor(timeLimit: Option<int>): Option<int> {
    if timeLimit.Some? && timeLimit.value != 0 then Some(timeLimit.value * 60) else None
  }

  /** Whether answer `i` is right: `answer === questions[i]?.correct`. */
  predicate Hit(answers: seq<Option<int>>, questions: seq<Question>, i: nat)
    requires i < |answers|
  {
    i < |questions| && answers[i] == Some(questions[i].correct)
  }

  /** The `reduce` of `finishQuiz` over the first `n` answers. */
  function CountHits(answers: seq<Option<int>>, questions: seq<Question>, n: nat): nat
    requires n <= |answers|
  {
    if n == 0 then 0 else CountHits(answers, questions, n - 1) + (if Hit(answers, questions, n - 1) then 1 else 0)
  }

  /** The score of a set of answers against the active questions. */
  function Score(answers: seq<Option<int>>, questions: seq<Question>): nat {
    CountHits(answers, questions, |answers|)
  }

  /** The answers that are right, as a set of positions. */
  function HitSet(answers: seq<Option<int>>, questions: seq<Question>, n: nat): set<nat>
    requires n <= |answers|
  {
    set i: nat | i < n && Hit(answers, questions, i)
  }

  // ---------------------------------------------------------------------------
  // The transitions

  /** The state the hook starts in, and the one `resetQuiz` restores. */
  function InitialState(): QuizState {
    QuizState([], [], 0, [], 0, false, false, None, false, Study, None, None, false)
  }

  /** The label stored for the source being loaded: `sourceName || 'Custom Source'`. */
  function SourceLabel(sourceName: Option<string>): (r: string)
    ensures sourceName.Some? && sourceName.value != "" ==> r == sourceName.value
    ensures sourceName.None? || sourceName.value == "" ==> r == "Custom Source"
  {
    if sourceName.Some? && sourceName.value != "" then sourceName.value else "Custom Source"
  }

  /**
   * The stored label is never empty, a non-empty name is kept as given, and
   * loading again under the stored label stores the same label.
   */
  lemma SourceLabelNeverEmpty(sourceName: Option<string>, name: string)
    ensures SourceLabel(sourceName) != ""
    ensures name != "" ==> SourceLabel(Some(name)) == name
    ensures SourceLabel(Some(SourceLabel(sourceName))) == SourceLabel(sourceName)
  {
  }

  /** The synchronous start of `loadQuestions`. */
  function LoadingStarted(s: QuizState): QuizState {
    s.(isLoading := true, error := None)
  }

  /** The end of `loadQuestions`, once the fetch has produced `f`. */
  function LoadCompleted(s: QuizState, f: QuestionLoader.Fetched): QuizState {
    match QuestionLoader.LoadResult(f)
    case Ok(questions) => s.(allQuestions := questions, isLoading := false, error := None, isConfiguring := true)
    case Err(e) => s.(isLoading := false, error := Some(e))
  }

  /** The questions a run draws from the pool: shuffled on request, then `slice(0, count)`. */
  function Drawn(pool: seq<Question>, config: QuizConfig, swaps: seq<(int, int)>): seq<Question> {
    var ordered := if config.randomize then Shuffled(pool, swaps) else pool;
    match config.questionCount
    case All => ordered
    case Count(n) => JsText.SliceFromStart(ordered, n)
  }

  /** `startQuiz(config)`. */
  function Started(s: QuizState, config: QuizConfig, swaps: seq<(int, int)>): QuizState {
    var selected := Drawn(s.allQuestions, config, swaps);
    var timeRemaining := TimeRemainingFor(config.timeLimit);
    s.(questions := selected, selectedAnswers := Nulls(|selected|), isConfiguring := false,
       currentQuestionIndex := 0, score := 0, isCompleted := false, mode := config.mode,
       timeLimit := config.timeLimit, timeRemaining := timeRemaining, isTimerActive := timeRemaining.Some?)
  }

  /** `selectAnswer(answerIndex)`: ignored once the run is completed. */
  function AnswerSelected(s: QuizState, answerIndex: int): QuizState {
    if s.isCompleted then s
    else s.(selectedAnswers := JsSet(s.selectedAnswers, s.currentQuestionIndex, answerIndex))
  }

  function MovedNext(s: QuizState): QuizState {
    if s.currentQuestionIndex < |s.questions| - 1 then s.(currentQuestionIndex := s.currentQuestionIndex + 1) else s
  }

  function MovedPrevious(s: QuizState): QuizState {
    if s.currentQuestionIndex > 0 then s.(currentQuestionIndex := s.currentQuestionIndex - 1) else s
  }

  /** `finishQuiz()`: scores the run, completes it and stops the timer. */
  function Finished(s: QuizState): QuizState {
    s.(score := Score(s.selectedAnswers, s.questions), isCompleted := true, isTimerActive := false)
  }

  /** `restartQuiz()`: the same questions again, answers cleared, timer re-armed from the stored limit. */
  function Restarted(s: QuizState): QuizState {
    var timeRemaining := TimeRemainingFor(s.timeLimit);
    s.(currentQuestionIndex := 0, selectedAnswers := Nulls(|s.questions|), score := 0, isCompleted := false,
       timeRemaining := timeRemaining, isTimerActive := timeRemaining.Some?)
  }

  /** `backToSetup()`: drops the run but keeps the pool and the mode. */
  function BackedToSetup(s: QuizState): QuizState {
    s.(isConfiguring := true, questions := [], currentQuestionIndex := 0, selectedAnswers := [], score := 0,
       isCompleted := false, timeLimit := None, timeRemaining := None, isTimerActive := false)
  }

  /** The timer effect keeps an interval only while this holds. */
  predicate TimerArmed(s: QuizState) {
    s.isTimerActive && s.timeRemaining.Some? && s.timeRemaining.value > 0
  }

  /** One firing of the interval; nothing happens while it is not armed. */
  function Ticked(s: QuizState): QuizState {
    if !TimerArmed(s) then s
    else if s.timeRemaining.value <= 1 then s.(timeRemaining := Some(0), isTimerActive := false, isCompleted := true)
    else s.(timeRemaining := Some(s.timeRemaining.value - 1))
  }

  /** The condition of the auto-finish effect. */
  predicate AutoFinishDue(s: QuizState) {
    s.timeRemaining == Some(0) && !s.isCompleted
  }

  /** The auto-finish effect. */
  function AutoFinished(s: QuizState): QuizState {
    if AutoFinishDue(s) then Finished(s) else s
  }

  /** Everything the session can be asked to do. */
  datatype Action =
    | StartLoading
    | CompleteLoading(fetched: QuestionLoader.Fetched)
    | StartQuiz(config: QuizConfig, swaps: seq<(int, int)>)
    | SelectAnswer(answerIndex: int)
    | NextQuestion
    | PreviousQuestion
    | FinishQuiz
    | RestartQuiz
    | ResetQuiz
    | BackToSetup
    | Tick
    | AutoFinish

  function Step(s: QuizState, a: Action): QuizState {
    match a
    case StartLoading => LoadingStarted(s)
    case CompleteLoading(f) => LoadCompleted(s, f)
    case StartQuiz(config, swaps) => Started(s, config, swaps)
    case SelectAnswer(i) => AnswerSelected(s, i)
    case NextQuestion => MovedNext(s)
    case PreviousQuestion => MovedPrevious(s)
    case FinishQuiz => Finished(s)
    case RestartQuiz => Restarted(s)
    case ResetQuiz => InitialState()
    case BackToSetup => BackedToSetup(s)
    case Tick => Ticked(s)
    case AutoFinish => AutoFinished(s)
  }

  function Run(s: QuizState, actions: seq<Action>): QuizState
    decreases |actions|
  {
    if actions == [] then s else Run(Step(s, actions[0]), actions[1..])
  }

  /** `k` firings of the interval. */
  function TickN(s: QuizState, k: nat): QuizState
    decreases k
  {
    if k == 0 then s else TickN(Ticked(s), k - 1)
  }

  // ---------------------------------------------------------------------------
  // The session invariant

  /**
   * What holds of every state the session reaches: the cursor is on an active
   * question (or 0 when there is none), one answer slot per question, the score
   * is at most the number of questions, a running timer has time left, a
   * completed run has no running timer, an exhausted timer has completed the
   * run, and every question indexes one of its at least two options.
   */
  predicate WellFormed(s: QuizState) {
    && 0 <= s.currentQuestionIndex
    && (|s.questions| > 0 ==> s.currentQuestionIndex < |s.questions| && |s.selectedAnswers| == |s.questions|)
    && (|s.questions| == 0 ==> s.currentQuestionIndex == 0 && |s.selectedAnswers| <= 1)
    && s.score <= |s.questions|
    && 0 <= s.score
    && (s.isTimerActive ==> s.timeRemaining.Some?)
    && (s.isCompleted ==> !s.isTimerActive)
    && (s.timeRemaining == Some(0) ==> s.isCompleted)
    && (forall i :: 0 <= i < |s.allQuestions| ==> QuestionOk(s.allQuestions[i]))
    && (forall i :: 0 <= i < |s.questions| ==> QuestionOk(s.questions[i]))
  }

  // ---------------------------------------------------------------------------
  // Properties

  /** The score counts exactly the right answers. */
  lemma {:induction false} CountHitsIsHitSet(answers: seq<Option<int>>, questions: seq<Question>, n: nat)
    requires n <= |answers|
    ensures CountHits(answers, questions, n) == |HitSet(answers, questions, n)|
  {
    if n > 0 {
      CountHitsIsHitSet(answers, questions, n - 1);
      if Hit(answers, questions, n - 1) {
        assert HitSet(answers, questions, n) == HitSet(answers, questions, n - 1) + {n - 1};
      } else {
        assert HitSet(answers, questions, n) == HitSet(answers, questions, n - 1);
      }
    }
  }

  /** No more right answers than answers, and no more than questions. */
  lemma {:induction false} CountHitsBounded(answers: seq<Option<int>>, questions: seq<Question>, n: nat)
    requires n <= |answers|
    ensures CountHits(answers, questions, n) <= n
    ensures CountHits(answers, questions, n) <= |questions|
  {
    if n > 0 {
      CountHitsBounded(answers, questions, n - 1);
    }
  }

  /** The score is the number of right answers, at most one per active question. */
  lemma ScoreMeaning(answers: seq<Option<int>>, questions: seq<Question>)
    ensures Score(answers, questions) == |HitSet(answers, questions, |answers|)|
    ensures Score(answers, questions) <= |questions| && Score(answers, questions) <= |answers|
  {
    CountHitsIsHitSet(answers, questions, |answers|);
    CountHitsBounded(answers, questions, |answers|);
  }

  /** Answering every question right scores every question; answering none scores zero. */
  lemma {:induction false} ScoreExtremes(answers: seq<Option<int>>, questions: seq<Question>, n: nat)
    requires n <= |answers| && |answers| == |questions|
    ensures (forall i :: 0 <= i < n ==> answers[i] == Some(questions[i].correct)) ==> CountHits(answers, questions, n) == n
    ensures (forall i :: 0 <= i < n ==> answers[i].None?) ==> CountHits(answers, questions, n) == 0
  {
    if n > 0 {
      ScoreExtremes(answers, questions, n - 1);
    }
  }

  /** A prefix of a sequence holds a sub-multiset of it. */
  lemma PrefixSubMultiset<T>(s: seq<T>, k: nat)
    requires k <= |s|
    ensures multiset(s[..k]) <= multiset(s)
  {
    assert s == s[..k] + s[k..];
  }

  /**
   * What `startQuiz` draws: a sub-multiset of the pool, the whole pool for
   * `'all'`, the pool's first questions when not shuffled, `min(n, pool)`
   * questions for a count `n >= 0`, and all but the last `-n` for a negative count.
   */
  lemma DrawnShape(pool: seq<Question>, config: QuizConfig, swaps: seq<(int, int)>)
    ensures var d := Drawn(pool, config, swaps);
      && multiset(d) <= multiset(pool)
      && (config.questionCount.All? ==> multiset(d) == multiset(pool))
      && (!config.randomize ==> d == pool[..|d|])
      && (!config.randomize && config.questionCount.All? ==> d == pool)
      && (config.questionCount.Count? && config.questionCount.n >= 0 ==>
            |d| == if config.questionCount.n < |pool| then config.questionCount.n else |pool|)
      && (config.questionCount.Count? && config.questionCount.n < 0 ==>
            |d| == if |pool| + config.questionCount.n > 0 then |pool| + config.questionCount.n else 0)
  {
    var ordered := if config.randomize then Shuffled(pool, swaps) else pool;
    var d := Drawn(pool, config, swaps);
    if config.questionCount.Count? {
      PrefixSubMultiset(ordered, |d|);
    }
  }

  /** Every question drawn for a run comes from the pool. */
  lemma DrawnFromPool(pool: seq<Question>, config: QuizConfig, swaps: seq<(int, int)>, i: nat)
    requires i < |Drawn(pool, config, swaps)|
    ensures exists j :: 0 <= j < |pool| && pool[j] == Drawn(pool, config, swaps)[i]
  {
    var d := Drawn(pool, config, swaps);
    DrawnShape(pool, config, swaps);
    assert d[i] in multiset(d);
    assert d[i] in multiset(pool);
  }

  /**
   * A started run: fresh answers, the first question, no score, the timer
   * running exactly when the limit is a non-zero number of minutes, the pool
   * and the loading state untouched.
   */
  lemma StartedShape(s: QuizState, config: QuizConfig, swaps: seq<(int, int)>)
    ensures var t := Started(s, config, swaps);
      && t.questions == Drawn(s.allQuestions, config, swaps)
      && |t.selectedAnswers| == |t.questions| && (forall i :: 0 <= i < |t.questions| ==> t.selectedAnswers[i].None?)
      && t.currentQuestionIndex == 0 && t.score == 0 && !t.isCompleted && !t.isConfiguring
      && t.mode == config.mode && t.timeLimit == config.timeLimit
      && (t.isTimerActive <==> config.timeLimit.Some? && config.timeLimit.value != 0)
      && (TimerArmed(t) <==> config.timeLimit.Some? && config.timeLimit.value > 0)
      && (t.timeRemaining.Some? ==> t.timeRemaining.value == 60 * config.timeLimit.value)
      && t.allQuestions == s.allQuestions && t.isLoading == s.isLoading && t.error == s.error
  {
  }

  /** A negative count keeps only the first questions: with a pool of three, `-1` runs two of them. */
  lemma NegativeCountDropsTail(a: Question, b: Question, c: Question)
    ensures Drawn([a, b, c], QuizConfig(Count(-1), false, Study, None), []) == [a, b]
  {
    assert [a, b, c][..2] == [a, b];
  }

  /** Selecting records the answer for the current question and nothing else, unless the run is over. */
  lemma AnswerSelectedShape(s: QuizState, answerIndex: int)
    requires WellFormed(s) && |s.questions| > 0
    ensures var t := AnswerSelected(s, answerIndex);
      && (s.isCompleted ==> t == s)
      && (!s.isCompleted ==>
            && |t.selectedAnswers| == |s.selectedAnswers|
            && t.selectedAnswers[s.currentQuestionIndex] == Some(answerIndex)
            && (forall k :: 0 <= k < |s.selectedAnswers| && k != s.currentQuestionIndex ==>
                  t.selectedAnswers[k] == s.selectedAnswers[k])
            && t == s.(selectedAnswers := t.selectedAnswers))
  {
  }

  /** Moving forward then back returns to the same question when there was one to move to. */
  lemma NextThenPrevious(s: QuizState)
    requires WellFormed(s) && s.currentQuestionIndex < |s.questions| - 1
    ensures MovedPrevious(MovedNext(s)) == s
  {
  }

  /** Finishing scores the answers and completes the run; finishing again changes nothing. */
  lemma FinishedShape(s: QuizState)
    ensures var t := Finished(s);
      && t.isCompleted && !t.isTimerActive && !TimerArmed(t)
      && t.score == |HitSet(s.selectedAnswers, s.questions, |s.selectedAnswers|)|
      && t.score <= |s.questions|
      && Finished(t) == t
  {
    ScoreMeaning(s.selectedAnswers, s.questions);
  }

  /** Restarting keeps the run's questions, mode and limit, clears the answers and re-arms the timer. */
  lemma RestartedShape(s: QuizState)
    ensures var t := Restarted(s);
      && t.questions == s.questions && t.allQuestions == s.allQuestions
      && t.mode == s.mode && t.timeLimit == s.timeLimit
      && |t.selectedAnswers| == |s.questions| && (forall i :: 0 <= i < |s.questions| ==> t.selectedAnswers[i].None?)
      && t.currentQuestionIndex == 0 && t.score == 0 && !t.isCompleted
      && (t.isTimerActive <==> s.timeLimit.Some? && s.timeLimit.value != 0)
  {
  }

  /**
   * Restarting a run, shuffled or cut short, is starting again over exactly its
   * own questions, unshuffled and with every one of them, under the same mode
   * and limit; the pool and the phase flag are left as they were.
   */
  lemma RestartIsStartAgain(s: QuizState)
    ensures Restarted(s) ==
      Started(s.(allQuestions := s.questions), QuizConfig(All, false, s.mode, s.timeLimit), [])
        .(allQuestions := s.allQuestions, isConfiguring := s.isConfiguring)
  {
  }

  /** Leaving a run for the setup keeps the pool and the mode, and stops the timer for good. */
  lemma BackedToSetupShape(s: QuizState)
    ensures var t := BackedToSetup(s);
      && t.isConfiguring && t.questions == [] && t.selectedAnswers == []
      && t.allQuestions == s.allQuestions && t.mode == s.mode
      && !TimerArmed(t) && Ticked(t) == t && !AutoFinishDue(t)
  {
  }

  /** A successful load fills the pool with valid questions and opens the setup; a failed one only reports. */
  lemma LoadCompletedShape(s: QuizState, f: QuestionLoader.Fetched)
    ensures var t := LoadCompleted(s, f);
      && !t.isLoading
      && (QuestionLoader.LoadResult(f).Ok? ==>
            && t.error.None? && t.isConfiguring && |t.allQuestions| > 0
            && (forall i :: 0 <= i < |t.allQuestions| ==> QuestionOk(t.allQuestions[i])))
      && (QuestionLoader.LoadResult(f).Err? ==>
            t == s.(isLoading := false, error := Some(QuestionLoader.LoadResult(f).error)))
  {
    if QuestionLoader.LoadResult(f).Ok? {
      QuestionLoader.LoadedQuestionsOk(f);
    }
  }

  /** While the countdown runs, each tick takes one second off and changes nothing else. */
  lemma {:induction false} CountdownRuns(s: QuizState, k: nat)
    requires TimerArmed(s) && k < s.timeRemaining.value
    ensures TickN(s, k) == s.(timeRemaining := Some(s.timeRemaining.value - k))
    ensures TimerArmed(TickN(s, k))
    decreases k
  {
    if k > 0 {
      var t := Ticked(s);
      assert t == s.(timeRemaining := Some(s.timeRemaining.value - 1));
      CountdownRuns(t, k - 1);
    }
  }

  /**
   * A limit of `t` seconds expires after exactly `t` ticks: the run is then
   * completed with the timer stopped, and with the score it had, since the
   * expiry does not score the answers; further ticks change nothing.
   */
  lemma TimerExpires(s: QuizState)
    requires TimerArmed(s)
    ensures var t := TickN(s, s.timeRemaining.value);
      && t == s.(timeRemaining := Some(0), isTimerActive := false, isCompleted := true)
      && t.score == s.score && t.selectedAnswers == s.selectedAnswers
      && Ticked(t) == t
  {
    var n := s.timeRemaining.value;
    CountdownRuns(s, n - 1);
    var u := TickN(s, n - 1);
    TickNSplit(s, n - 1);
    assert TickN(s, n) == Ticked(u);
  }

  /** One more tick after `k`. */
  lemma {:induction false} TickNSplit(s: QuizState, k: nat)
    ensures TickN(s, k + 1) == Ticked(TickN(s, k))
    decreases k
  {
    if k > 0 {
      TickNSplit(Ticked(s), k - 1);
    }
  }

  /** The auto-finish effect never fires: the only way the time reaches zero already completes the run. */
  lemma AutoFinishNeverDue(s: QuizState)
    requires WellFormed(s)
    ensures !AutoFinishDue(s) && AutoFinished(s) == s
  {
  }

  lemma LoadCompletedWellFormed(s: QuizState, f: QuestionLoader.Fetched)
    requires WellFormed(s)
    ensures WellFormed(LoadCompleted(s, f))
  {
    LoadCompletedShape(s, f);
  }

  lemma StartedWellFormed(s: QuizState, config: QuizConfig, swaps: seq<(int, int)>)
    requires WellFormed(s)
    ensures WellFormed(Started(s, config, swaps))
  {
    var d := Drawn(s.allQuestions, config, swaps);
    forall i | 0 <= i < |d| ensures QuestionOk(d[i]) {
      DrawnFromPool(s.allQuestions, config, swaps, i);
    }
  }

  lemma AnswerSelectedWellFormed(s: QuizState, answerIndex: int)
    requires WellFormed(s)
    ensures WellFormed(AnswerSelected(s, answerIndex))
  {
  }

  lemma FinishedWellFormed(s: QuizState)
    requires WellFormed(s)
    ensures WellFormed(Finished(s))
  {
    ScoreMeaning(s.selectedAnswers, s.questions);
  }

  /** Every action keeps the session invariant. */
  lemma StepPreservesWellFormed(s: QuizState, a: Action)
    requires WellFormed(s)
    ensures WellFormed(Step(s, a))
  {
    match a {
      case CompleteLoading(f) => LoadCompletedWellFormed(s, f);
      case StartQuiz(config, swaps) => StartedWellFormed(s, config, swaps);
      case SelectAnswer(i) => AnswerSelectedWellFormed(s, i);
      case FinishQuiz => FinishedWellFormed(s);
      case _ =>
    }
  }

  /** Every run of actions from the initial state keeps the invariant; in particular the auto-finish never fires. */
  lemma {:induction false} RunPreservesWellFormed(s: QuizState, actions: seq<Action>)
    requires WellFormed(s)
    ensures WellFormed(Run(s, actions))
    ensures !AutoFinishDue(Run(s, actions))
    decreases |actions|
  {
    if actions != [] {
      StepPreservesWellFormed(s, actions[0]);
      RunPreservesWellFormed(Step(s, actions[0]), actions[1..]);
    }
  }

  lemma InitialWellFormed()
    ensures WellFormed(InitialState())
  {
  }

  // ---------------------------------------------------------------------------
  // The hook

  /**
   * The hook: the `quizState` record it keeps with `useState`, and the name of
   * the current source, which it keeps in a second `useState`.
   */
  class QuizSession {
    var quizState: QuizState
    var currentSourceName: string

    ghost predicate Valid()
      reads this
    {
      WellFormed(quizState)
    }

    constructor ()
      ensures quizState == InitialState() && currentSourceName == "" && Valid()
    {
      quizState := InitialState();
      currentSourceName := "";
    }

    /** `loadQuestions` up to its first `await`. */
    method StartLoading(sourceName: Option<string>)
      modifies this
      ensures old(Valid()) ==> Valid()
      ensures quizState == LoadingStarted(old(quizState)) && currentSourceName == SourceLabel(sourceName)
    {
      quizState := quizState.(isLoading := true, error := None);
      currentSourceName := SourceLabel(sourceName);
    }

    /** `loadQuestions` after its `await`s, with what the fetch produced. */
    method CompleteLoading(fetched: QuestionLoader.Fetched)
      modifies this
      ensures old(Valid()) ==> Valid()
      ensures quizState == LoadCompleted(old(quizState), fetched) && currentSourceName == old(currentSourceName)
    {
      var result;
      match fetched {
        case HttpError(status) => result := Err(HttpStatus(status));
        case NetworkError => result := Err(NetworkFailure);
        case Body(p) => result := QuestionLoader.Normalize(p);
      }
      match result {
        case Ok(qs) =>
          quizState := quizState.(allQuestions := qs, isLoading := false, error := None, isConfiguring := true);
        case Err(e) =>
          quizState := quizState.(isLoading := false, error := Some(e));
      }
      if old(Valid()) {
        LoadCompletedWellFormed(old(quizState), fetched);
      }
    }

    method StartQuiz(config: QuizConfig, swaps: seq<(int, int)>)
      modifies this
      ensures old(Valid()) ==> Valid()
      ensures quizState == Started(old(quizState), config, swaps) && currentSourceName == old(currentSourceName)
    {
      var selected := quizState.allQuestions;
      if config.randomize {
        selected := Shuffled(selected, swaps);
      }
      if config.questionCount.Count? {
        selected := JsText.SliceFromStart(selected, config.questionCount.n);
      }
      var remaining := TimeRemainingFor(config.timeLimit);
      quizState := quizState.(
        questions := selected, selectedAnswers := Nulls(|selected|), isConfiguring := false,
        currentQuestionIndex := 0, score := 0, isCompleted := false, mode := config.mode,
        timeLimit := config.timeLimit, timeRemaining := remaining, isTimerActive := remaining.Some?);
      if old(Valid()) {
        StartedWellFormed(old(quizState), config, swaps);
      }
    }

    method SelectAnswer(answerIndex: int)
      modifies this
      ensures old(Valid()) ==> Valid()
      ensures quizState == AnswerSelected(old(quizState), answerIndex) && currentSourceName == old(currentSourceName)
    {
      if quizState.isCompleted {
        return;
      }
      quizState := quizState.(selectedAnswers := JsSet(quizState.selectedAnswers, quizState.currentQuestionIndex, answerIndex));
      if old(Valid()) {
        AnswerSelectedWellFormed(old(quizState), answerIndex);
      }
    }

    method NextQuestion()
      modifies this
      ensures old(Valid()) ==> Valid()
      ensures quizState == MovedNext(old(quizState)) && currentSourceName == old(currentSourceName)
    {
      if quizState.currentQuestionIndex < |quizState.questions| - 1 {
        quizState := quizState.(currentQuestionIndex := quizState.currentQuestionIndex + 1);
      }
    }

    method PreviousQuestion()
      modifies this
      ensures old(Valid()) ==> Valid()
      ensures quizState == MovedPrevious(old(quizState)) && currentSourceName == old(currentSourceName)
    {
      if quizState.currentQuestionIndex > 0 {
        quizState := quizState.(currentQuestionIndex := quizState.currentQuestionIndex - 1);
      }
    }

    /** `finishQuiz()`: the `reduce` over the answers is the loop. */
    method FinishQuiz()
      modifies this
      ensures old(Valid()) ==> Valid()
      ensures quizState == Finished(old(quizState)) && currentSourceName == old(currentSourceName)
    {
      quizState := quizState.(isTimerActive := false);
      var answers := quizState.selectedAnswers;
      var questions := quizState.questions;
      var acc := 0;
      var index := 0;
      while index < |answers|
        invariant 0 <= index <= |answers|
        invariant acc == CountHits(answers, questions, index)
      {
        if index < |questions| && answers[index] == Some(questions[index].correct) {
          acc := acc + 1;
        }
        index := index + 1;
      }
      quizState := quizState.(score := acc, isCompleted := true, isTimerActive := false);
      if old(Valid()) {
        FinishedWellFormed(old(quizState));
      }
    }

    method RestartQuiz()
      modifies this
      ensures old(Valid()) ==> Valid()
      ensures quizState == Restarted(old(quizState)) && currentSourceName == old(currentSourceName)
    {
      var remaining := TimeRemainingFor(quizState.timeLimit);
      quizState := quizState.(
        currentQuestionIndex := 0, selectedAnswers := Nulls(|quizState.questions|), score := 0,
        isCompleted := false, timeRemaining := remaining, isTimerActive := remaining.Some?);
    }

    method ResetQuiz()
      modifies this
      ensures Valid()
      ensures quizState == InitialState() && currentSourceName == ""
    {
      quizState := InitialState();
      currentSourceName := "";
    }

    method BackToSetup()
      modifies this
      ensures old(Valid()) ==> Valid()
      ensures quizState == BackedToSetup(old(quizState)) && currentSourceName == old(currentSourceName)
    {
      quizState := quizState.(
        isConfiguring := true, questions := [], currentQuestionIndex := 0, selectedAnswers := [], score := 0,
        isCompleted := false, timeLimit := None, timeRemaining := None, isTimerActive := false);
    }

    /** One second of the timer effect's interval; nothing while the effect keeps no interval. */
    method Tick()
      modifies this
      ensures old(Valid()) ==> Valid()
      ensures quizState == Ticked(old(quizState)) && currentSourceName == old(currentSourceName)
    {
      var s := quizState;
      if !(s.isTimerActive && s.timeRemaining.Some? && s.timeRemaining.value > 0) {
        return;
      }
      if s.timeRemaining.value <= 1 {
        quizState := s.(timeRemaining := Some(0), isTimerActive := false, isCompleted := true);
      } else {
        quizState := s.(timeRemaining := Some(s.timeRemaining.value - 1));
      }
    }

    /** The auto-finish effect, on whatever state it is handed. */
    method AutoFinish()
      modifies this
      ensures old(Valid()) ==> Valid() && quizState == old(quizState)
      ensures quizState == AutoFinished(old(quizState)) && currentSourceName == old(currentSourceName)
    {
      if quizState.timeRemaining == Some(0) && !quizState.isCompleted {
        FinishQuiz();
      }
      if old(Valid()) {
        AutoFinishNeverDue(old(quizState));
      }
    }
  }
}
