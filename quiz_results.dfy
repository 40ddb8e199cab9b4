/**
 * The results screen of a completed run: the score card with its percentage
 * and performance band, the time information, and the per-question review,
 * which marks each question right, wrong or unanswered and each option by
 * whether it is the correct one and whether it was chosen.
 */
module QuizResults {
  import opened Wrappers
  import opened QuizTypes
  import JsText
  import QuizHook
  import TimerDisplay

  /** The score card: `Math.round(score / total * 100)` and `total - score`. */
  function Summary(score: int, totalQuestions: nat): (r: QuizResults)
    ensures r.score == r.correctAnswers == score && r.totalQuestions == totalQuestions
    ensures r.correctAnswers + r.incorrectAnswers == totalQuestions
    ensures r.percentage == JsText.RoundedPercent(score, totalQuestions)
  {
    QuizResults(score, totalQuestions, JsText.RoundedPercent(score, totalQuestions), score, totalQuestions - score)
  }

  datatype Performance = Excellent | Good | Fair | NeedsImprovement

  /** `getPerformanceLevel`: a `NaN` percentage fails every comparison. */
  function PerformanceLevel(percentage: Option<int>): Performance {
    if percentage.Some? && percentage.value >= 90 then Excellent
    else if percentage.Some? && percentage.value >= 75 then Good
    else if percentage.Some? && percentage.value >= 60 then Fair
    else NeedsImprovement
  }

  function Rank(p: Performance): nat {
    match p
    case NeedsImprovement => 0
    case Fair => 1
    case Good => 2
    case Excellent => 3
  }

  /** `timeLimit && timeRemaining !== null ? timeLimit * 60 - timeRemaining : null`. */
  function TimeUsed(timeLimit: Option<int>, timeRemaining: Option<int>): Option<int> {
    if timeLimit.Some? && timeLimit.value != 0 && timeRemaining.Some? then Some(timeLimit.value * 60 - timeRemaining.value)
    else None
  }

  predicate IsTimeUp(timeRemaining: Option<int>) {
    timeRemaining == Some(0)
  }

  /** The remaining-time box: the time-up label, or the clock text of `timeRemaining || 0`. */
  datatype RemainingShown = TimeUpLabel | ClockText(text: string)

  function Remaining(timeRemaining: Option<int>): RemainingShown {
    if IsTimeUp(timeRemaining) then TimeUpLabel
    else ClockText(TimerDisplay.FormatTime(if timeRemaining.Some? then timeRemaining.value else 0))
  }

  /** The four option looks of the review. */
  datatype OptionStyle = CorrectChosen | CorrectMissed | WrongChosen | WrongIgnored

  datatype ReviewIcon = Tick | Cross | Ring

  /** The answer of question `i`; an answer past the end of the array reads as `undefined`, which matches no option. */
  function AnswerAt(answers: seq<Option<int>>, i: int): Option<int> {
    if 0 <= i < |answers| then answers[i] else None
  }

  /** `getOptionStyle(questionIndex, optionIndex)`. */
  function StyleOf(answers: seq<Option<int>>, questions: seq<Question>, q: nat, optionIndex: int): OptionStyle
    requires q < |questions|
  {
    var isCorrect := optionIndex == questions[q].correct;
    var isSelected := AnswerAt(answers, q) == Some(optionIndex);
    if isCorrect && isSelected then CorrectChosen
    else if isCorrect then CorrectMissed
    else if isSelected then WrongChosen
    else WrongIgnored
  }

  /** `getOptionIcon(questionIndex, optionIndex)`. */
  function IconOf(answers: seq<Option<int>>, questions: seq<Question>, q: nat, optionIndex: int): ReviewIcon
    requires q < |questions|
  {
    var isCorrect := optionIndex == questions[q].correct;
    var isSelected := AnswerAt(answers, q) == Some(optionIndex);
    if isCorrect then Tick else if isSelected then Cross else Ring
  }

  /** A question is reviewed as right when its answer is its correct index. */
  predicate MarkedCorrect(answers: seq<Option<int>>, questions: seq<Question>, q: nat)
    requires q < |questions|
  {
    AnswerAt(answers, q) == Some(questions[q].correct)
  }

  /** The answer summary under each question. */
  datatype AnswerSummary = NoAnswer | Right | Wrong

  /** `selectedAnswer !== null`: only an explicit `null` counts as no answer; a missing slot shows as wrong. */
  function SummaryOf(answers: seq<Option<int>>, questions: seq<Question>, q: nat): AnswerSummary
    requires q < |questions|
  {
    if q < |answers| && answers[q].None? then NoAnswer
    else if MarkedCorrect(answers, questions, q) then Right
    else Wrong
  }

  /** The positions the review marks as right. */
  function MarkedSet(answers: seq<Option<int>>, questions: seq<Question>): set<nat> {
    set q: nat | q < |questions| && MarkedCorrect(answers, questions, q)
  }

  /**
   * The score card of a run with questions: the percentage is a rounded share
   * in `[0, 100]`, `0` for none right and `100` for all right, never lower for
   * a higher score; the wrong answers are the rest.
   */
  lemma SummaryShape(score: int, better: int, total: nat)
    requires 0 <= score <= better <= total && total > 0
    ensures var r := Summary(score, total);
      && r.percentage.Some? && 0 <= r.percentage.value <= 100
      && (score == 0 ==> r.percentage.value == 0)
      && (score == total ==> r.percentage.value == 100)
      && r.percentage.value <= Summary(better, total).percentage.value
      && 0 <= r.incorrectAnswers <= total
  {
    JsText.RoundedPercentBounds(score, total);
    JsText.RoundedPercentBounds(better, total);
    JsText.RoundedPercentMonotone(score, better, total);
  }

  /** A run without questions shows `NaN` and needs improvement. */
  lemma EmptyRunSummary(score: int)
    ensures Summary(score, 0).percentage.None? && PerformanceLevel(Summary(score, 0).percentage) == NeedsImprovement
  {
  }

  /** The bands, both ways, and a higher percentage never lands in a lower band. */
  lemma PerformanceBands(p: int, q: int)
    requires p <= q
    ensures PerformanceLevel(Some(p)) == Excellent <==> p >= 90
    ensures PerformanceLevel(Some(p)) == Good <==> 75 <= p < 90
    ensures PerformanceLevel(Some(p)) == Fair <==> 60 <= p < 75
    ensures PerformanceLevel(Some(p)) == NeedsImprovement <==> p < 60
    ensures Rank(PerformanceLevel(Some(p))) <= Rank(PerformanceLevel(Some(q)))
  {
  }

  /**
   * The icon marks the correct option with a tick whether chosen or not, a
   * cross only on a chosen wrong option; the style tells all four
   * combinations apart.
   */
  lemma OptionMarks(answers: seq<Option<int>>, questions: seq<Question>, q: nat, i: int, j: int)
    requires q < |questions|
    ensures IconOf(answers, questions, q, i) == Tick <==> i == questions[q].correct
    ensures IconOf(answers, questions, q, i) == Cross <==> i != questions[q].correct && AnswerAt(answers, q) == Some(i)
    ensures StyleOf(answers, questions, q, i) == StyleOf(answers, questions, q, j) <==>
      (i == questions[q].correct <==> j == questions[q].correct) &&
      (AnswerAt(answers, q) == Some(i) <==> AnswerAt(answers, q) == Some(j))
  {
  }

  /** The review marks right exactly the questions the score counts, so the score equals the number of right marks. */
  lemma MarkedAgreesWithScore(answers: seq<Option<int>>, questions: seq<Question>)
    ensures MarkedSet(answers, questions) == QuizHook.HitSet(answers, questions, |answers|)
    ensures |MarkedSet(answers, questions)| == QuizHook.Score(answers, questions)
  {
    QuizHook.ScoreMeaning(answers, questions);
  }

  /**
   * The answer summary: no answer exactly for an explicit `null`, right exactly
   * for the questions the review marks right; on a well-formed run every
   * question shows one of the three and the right ones are the ones scored.
   */
  lemma SummaryOfMeaning(answers: seq<Option<int>>, questions: seq<Question>, q: nat)
    requires q < |questions|
    ensures SummaryOf(answers, questions, q) == NoAnswer <==> q < |answers| && answers[q].None?
    ensures SummaryOf(answers, questions, q) == Right <==> MarkedCorrect(answers, questions, q)
    ensures |answers| == |questions| ==>
      (SummaryOf(answers, questions, q) == Right <==> q in QuizHook.HitSet(answers, questions, |answers|))
  {
  }

  /** After `finishQuiz` the score card and the review agree. */
  lemma FinishedCardMatchesReview(s: QuizState)
    ensures var t := QuizHook.Finished(s);
      t.score == |MarkedSet(t.selectedAnswers, t.questions)| &&
      Summary(t.score, |t.questions|).correctAnswers == |MarkedSet(t.selectedAnswers, t.questions)|
  {
    MarkedAgreesWithScore(s.selectedAnswers, s.questions);
  }

  /**
   * The time used is the number of seconds ticked since the run started with
   * a limit of `m` minutes, and the time is up exactly after `60 * m` ticks.
   */
  lemma TimeUsedCountsTicks(s: QuizState, config: QuizConfig, swaps: seq<(int, int)>, k: nat)
    requires config.timeLimit.Some? && config.timeLimit.value > 0 && k <= 60 * config.timeLimit.value
    ensures var u := QuizHook.TickN(QuizHook.Started(s, config, swaps), k);
      && TimeUsed(u.timeLimit, u.timeRemaining) == Some(k)
      && (IsTimeUp(u.timeRemaining) <==> k == 60 * config.timeLimit.value)
  {
    var t := QuizHook.Started(s, config, swaps);
    QuizHook.StartedShape(s, config, swaps);
    TicksUsed(t, config.timeLimit.value, k);
  }

  /** From an armed timer of `m` full minutes, `k` ticks use `k` seconds, all of them when `k == 60 * m`. */
  lemma TicksUsed(t: QuizState, m: int, k: nat)
    requires QuizHook.TimerArmed(t) && t.timeLimit == Some(m) && m > 0
    requires t.timeRemaining == Some(60 * m) && k <= 60 * m
    ensures var u := QuizHook.TickN(t, k);
      && TimeUsed(u.timeLimit, u.timeRemaining) == Some(k)
      && (IsTimeUp(u.timeRemaining) <==> k == 60 * m)
  {
    if k < 60 * m {
      QuizHook.CountdownRuns(t, k);
    } else {
      QuizHook.TimerExpires(t);
    }
  }

  /**
   * A run whose time runs out is not rescored: one question, answered right,
   * expires with the score card still at zero while the review marks the
   * question right.
   */
  lemma ExpiredRunShowsStartScore(pool: seq<Question>, q: Question)
    requires pool == [q]
    ensures var started := QuizHook.Started(QuizHook.InitialState().(allQuestions := pool), QuizConfig(All, false, Exam, Some(1)), []);
      var answered := QuizHook.AnswerSelected(started, q.correct);
      var expired := QuizHook.TickN(answered, 60);
      && expired.isCompleted && IsTimeUp(expired.timeRemaining)
      && expired.score == 0 && |MarkedSet(expired.selectedAnswers, expired.questions)| == 1
  {
    var started := QuizHook.Started(QuizHook.InitialState().(allQuestions := pool), QuizConfig(All, false, Exam, Some(1)), []);
    var answered := QuizHook.AnswerSelected(started, q.correct);
    assert answered.selectedAnswers == [Some(q.correct)];
    QuizHook.TimerExpires(answered);
    var expired := QuizHook.TickN(answered, 60);
    assert MarkedSet(expired.selectedAnswers, expired.questions) == {0};
  }

  /** The remaining-time box shows the time-up label exactly when the time is up. */
  lemma RemainingShownIff(timeRemaining: Option<int>)
    ensures Remaining(timeRemaining) == TimeUpLabel <==> IsTimeUp(timeRemaining)
    ensures timeRemaining.None? ==> Remaining(timeRemaining) == ClockText("0:00")
  {
    assert TimerDisplay.FormatTime(0) == "0:00";
  }
}
