/**
 * The quiz page: which screen the session state selects, the navigation
 * flags handed to the navigation bar, and which session operation each
 * button of each screen calls.
 */
module QuizApp {
  import opened Wrappers
  import opened QuizTypes
  import opened QuizHook
  import QuizNavigation
  import QuestionCard

  datatype Screen = SourceSelection | LoadingScreen | ErrorScreen | SetupScreen | ResultsScreen | RunScreen

  /** The cascade of early returns of the page. */
  function ScreenOf(s: QuizState): Screen {
    if |s.allQuestions| == 0 && !s.isLoading && s.error.None? then SourceSelection
    else if s.isLoading then LoadingScreen
    else if s.error.Some? then ErrorScreen
    else if s.isConfiguring && |s.allQuestions| > 0 then SetupScreen
    else if s.isCompleted then ResultsScreen
    else RunScreen
  }

  predicate CanGoNext(s: QuizState) {
    s.currentQuestionIndex < |s.questions| - 1
  }

  predicate CanGoPrevious(s: QuizState) {
    s.currentQuestionIndex > 0
  }

  predicate IsLastQuestion(s: QuizState) {
    s.currentQuestionIndex == |s.questions| - 1
  }

  /** `selectedAnswers[currentQuestionIndex]`, where a missing slot reads as `undefined`. */
  predicate AnswerSlotExists(s: QuizState) {
    0 <= s.currentQuestionIndex < |s.selectedAnswers|
  }

  /** The answer handed to the question card; `undefined` matches no option, like `null`. */
  function SelectedAnswer(s: QuizState): Option<int> {
    if AnswerSlotExists(s) then s.selectedAnswers[s.currentQuestionIndex] else None
  }

  /** `selectedAnswer !== null`: a missing slot, being `undefined`, counts as answered. */
  predicate HasSelectedAnswer(s: QuizState) {
    !AnswerSlotExists(s) || s.selectedAnswers[s.currentQuestionIndex].Some?
  }

  /** The buttons of the page and of the components it renders. */
  datatype Control =
    | LoadSource(sourceName: Option<string>)
    | Retry
    | SetupStart(config: QuizConfig, swaps: seq<(int, int)>)
    | SetupBack
    | ResultsRestart
    | ResultsNewQuiz
    | RunBack
    | OptionClick(index: int)
    | PreviousClick
    | NextClick

  /**
   * The session operation a control calls on the screen the state selects;
   * `None` when the control is not on that screen or is disabled. The setup
   * screen's Start passes the configuration derived by the setup form.
   */
  function Wire(s: QuizState, c: Control): Option<Action> {
    match (ScreenOf(s), c)
    case (SourceSelection, LoadSource(_)) => Some(StartLoading)
    case (ErrorScreen, Retry) => Some(ResetQuiz)
    case (SetupScreen, SetupStart(config, swaps)) => Some(StartQuiz(config, swaps))
    case (SetupScreen, SetupBack) => Some(ResetQuiz)
    case (ResultsScreen, ResultsRestart) => Some(RestartQuiz)
    case (ResultsScreen, ResultsNewQuiz) => Some(BackToSetup)
    case (RunScreen, RunBack) => Some(BackToSetup)
    case (RunScreen, OptionClick(i)) =>
      var picked := QuestionCard.Click(false, i);
      if picked.Some? then Some(SelectAnswer(picked.value)) else None
    case (RunScreen, PreviousClick) =>
      if QuizNavigation.PreviousDisabled(CanGoPrevious(s)) then None else Some(PreviousQuestion)
    case (RunScreen, NextClick) =>
      if QuizNavigation.NextDisabled(s.mode, HasSelectedAnswer(s)) then None
      else if QuizNavigation.HandleNext(IsLastQuestion(s)) == QuizNavigation.CallFinish then Some(FinishQuiz)
      else Some(NextQuestion)
    case _ => None
  }

  /** Each screen, by the state that selects it. */
  lemma ScreenCases(s: QuizState)
    ensures ScreenOf(s) == SourceSelection <==> |s.allQuestions| == 0 && !s.isLoading && s.error.None?
    ensures ScreenOf(s) == LoadingScreen <==> s.isLoading
    ensures ScreenOf(s) == ErrorScreen <==> !s.isLoading && s.error.Some?
    ensures ScreenOf(s) == SetupScreen <==> !s.isLoading && s.error.None? && s.isConfiguring && |s.allQuestions| > 0
    ensures ScreenOf(s) == ResultsScreen <==>
      !s.isLoading && s.error.None? && |s.allQuestions| > 0 && !s.isConfiguring && s.isCompleted
    ensures ScreenOf(s) == RunScreen <==>
      !s.isLoading && s.error.None? && |s.allQuestions| > 0 && !s.isConfiguring && !s.isCompleted
  {
  }

  /**
   * On a question of a run exactly one of "can go next" and "last question"
   * holds; the flags say whether moving changes the question, and the card's
   * answer is present exactly when the bar counts it as selected.
   */
  lemma NavigationFlags(s: QuizState)
    requires WellFormed(s) && |s.questions| > 0
    ensures CanGoNext(s) != IsLastQuestion(s)
    ensures CanGoNext(s) <==> MovedNext(s).currentQuestionIndex == s.currentQuestionIndex + 1
    ensures !CanGoNext(s) <==> MovedNext(s) == s
    ensures CanGoPrevious(s) <==> MovedPrevious(s).currentQuestionIndex == s.currentQuestionIndex - 1
    ensures !CanGoPrevious(s) <==> MovedPrevious(s) == s
    ensures HasSelectedAnswer(s) <==> SelectedAnswer(s).Some?
  {
  }

  /** The Next button: finishes on the last question, moves on otherwise, and waits for an answer in study mode. */
  lemma NextButton(s: QuizState)
    requires WellFormed(s) && |s.questions| > 0 && ScreenOf(s) == RunScreen
    ensures s.mode == Exam || SelectedAnswer(s).Some? ==>
      Wire(s, NextClick) == Some(if IsLastQuestion(s) then FinishQuiz else NextQuestion)
    ensures s.mode == Study && SelectedAnswer(s).None? ==> Wire(s, NextClick).None?
    ensures Wire(s, NextClick) == Some(FinishQuiz) ==> ScreenOf(Step(s, FinishQuiz)) == ResultsScreen
  {
    NavigationFlags(s);
  }

  /** Retry on the error screen and Back on the setup screen return to the source selection. */
  lemma BackToSourceSelection(s: QuizState, c: Control)
    requires Wire(s, c) == Some(ResetQuiz)
    ensures c == Retry || c == SetupBack
    ensures ScreenOf(Step(s, ResetQuiz)) == SourceSelection
  {
  }

  /** "Load new quiz" on the results and Back during a run return to the setup with the same pool. */
  lemma BackToSetupScreen(s: QuizState, c: Control)
    requires Wire(s, c) == Some(BackToSetup)
    ensures c == ResultsNewQuiz || c == RunBack
    ensures ScreenOf(Step(s, BackToSetup)) == SetupScreen
    ensures Step(s, BackToSetup).allQuestions == s.allQuestions
  {
  }

  /** Starting from the setup and restarting from the results both open a run. */
  lemma IntoARun(s: QuizState, c: Control)
    requires Wire(s, c).Some? && (c.SetupStart? || c == ResultsRestart)
    ensures ScreenOf(Step(s, Wire(s, c).value)) == RunScreen
  {
  }

  /** The page only calls operations that keep the session invariant. */
  lemma WiredKeepsWellFormed(s: QuizState, c: Control)
    requires WellFormed(s) && Wire(s, c).Some?
    ensures WellFormed(Step(s, Wire(s, c).value))
  {
    StepPreservesWellFormed(s, Wire(s, c).value);
  }

  /**
   * Clicking an option in a study run colours the card at once: the correct
   * option green, the clicked one red when it is wrong, the rest grey.
   */
  lemma StudyClickColoursCard(s: QuizState, i: int, j: int)
    requires WellFormed(s) && |s.questions| > 0 && ScreenOf(s) == RunScreen && s.mode == Study
    ensures Wire(s, OptionClick(i)) == Some(SelectAnswer(i))
    ensures var t := Step(s, SelectAnswer(i));
      var c := QuestionCard.ClassOf(t.mode, SelectedAnswer(t), false, t.questions[t.currentQuestionIndex].correct, j);
      && SelectedAnswer(t) == Some(i)
      && (c == QuestionCard.Green <==> j == s.questions[s.currentQuestionIndex].correct)
      && (c == QuestionCard.Red <==> j == i && j != s.questions[s.currentQuestionIndex].correct)
  {
    var t := Step(s, SelectAnswer(i));
    AnswerSelectedShape(s, i);
    QuestionCard.StudyFeedback(SelectedAnswer(t), false, t.questions[t.currentQuestionIndex].correct, j);
  }

  /**
   * The counter of a run: a position from one up to the number of questions,
   * reaching that number exactly on the last question.
   */
  lemma CounterShape(s: QuizState)
    requires WellFormed(s) && |s.questions| > 0
    ensures var r := QuizNavigation.Counter(s.currentQuestionIndex, |s.questions|);
      && 1 <= r.0 <= r.1 == |s.questions|
      && (r.0 == r.1 <==> IsLastQuestion(s))
  {
  }

  /**
   * The explanation under a run's question: never in an exam; in study mode
   * exactly once the current question has an answer and the question has an
   * explanation, so choosing any option reveals a non-empty one.
   */
  lemma ExplanationShown(s: QuizState, i: int)
    requires WellFormed(s) && |s.questions| > 0
    ensures var q := s.questions[s.currentQuestionIndex];
      && (s.mode == Exam ==> !QuestionCard.ExplanationVisible(s.mode, SelectedAnswer(s), q.explanation))
      && (s.mode == Study ==>
            (QuestionCard.ExplanationVisible(s.mode, SelectedAnswer(s), q.explanation) <==>
               s.selectedAnswers[s.currentQuestionIndex].Some? && q.explanation != ""))
    ensures var t := Step(s, SelectAnswer(i));
      var q := s.questions[s.currentQuestionIndex];
      s.mode == Study && !s.isCompleted && q.explanation != "" ==>
        QuestionCard.ExplanationVisible(t.mode, SelectedAnswer(t), t.questions[t.currentQuestionIndex].explanation)
  {
    AnswerSelectedShape(s, i);
  }
}
