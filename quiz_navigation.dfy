/**
 * The navigation bar of a run: the Previous button, the counter and progress
 * text, and the Next button, which finishes the run on the last question.
 */
module QuizNavigation {
  import opened Wrappers
  import opened QuizTypes
  import JsText

  /** The operation the Next/Finish button calls. */
  datatype NextTarget = CallFinish | CallNext

  /** `handleNext`. */
  function HandleNext(isLastQuestion: bool): (r: NextTarget)
    ensures r == CallFinish <==> isLastQuestion
  {
    if isLastQuestion then CallFinish else CallNext
  }

  /** Next/Finish is disabled in study mode until an answer is chosen. */
  predicate NextDisabled(mode: Mode, hasSelectedAnswer: bool) {
    mode == Study && !hasSelectedAnswer
  }

  predicate PreviousDisabled(canGoPrevious: bool) {
    !canGoPrevious
  }

  /** The counter's `current` and `total` parameters: positions count from one. */
  function Counter(currentQuestion: int, totalQuestions: int): (r: (int, int))
    ensures r.0 - 1 == currentQuestion && r.1 == totalQuestions
  {
    (currentQuestion + 1, totalQuestions)
  }

  /** `Math.round((currentQuestion + 1) / totalQuestions * 100)`; no questions gives `NaN`, here `None`. */
  function Progress(currentQuestion: int, totalQuestions: nat): Option<int> {
    JsText.RoundedPercent(currentQuestion + 1, totalQuestions)
  }

  /** Exam mode never blocks moving on; study mode blocks it exactly while nothing is chosen. */
  lemma NextDisabledOnlyInStudy(mode: Mode, hasSelectedAnswer: bool)
    ensures mode == Exam ==> !NextDisabled(mode, hasSelectedAnswer)
    ensures mode == Study ==> (NextDisabled(mode, hasSelectedAnswer) <==> !hasSelectedAnswer)
  {
  }

  /**
   * On a question of the run the progress is a percentage, reaches 100 on the
   * last question, and never falls as the run moves forward.
   */
  lemma ProgressShape(current: int, later: int, total: nat)
    requires 0 <= current <= later < total
    ensures Progress(current, total).Some? && Progress(later, total).Some?
    ensures 0 <= Progress(current, total).value <= 100
    ensures current == total - 1 ==> Progress(current, total).value == 100
    ensures Progress(current, total).value <= Progress(later, total).value
  {
    JsText.RoundedPercentBounds(current + 1, total);
    JsText.RoundedPercentBounds(later + 1, total);
    JsText.RoundedPercentMonotone(current + 1, later + 1, total);
  }

  /** A run of three questions: the first shows 33, the second 67, the last 100. */
  lemma ProgressOfThree()
    ensures Progress(0, 3) == Some(33) && Progress(1, 3) == Some(67) && Progress(2, 3) == Some(100)
  {
  }
}
