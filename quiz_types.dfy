/** The record shapes of the quiz: questions, run configuration, session state, results. */
module QuizTypes {
  import opened Wrappers

  /**
   * A normalised question. `id` is 1-based, `correct` indexes `options`.
   * The optional `explanation` is always filled in by the loader (`''` when absent).
   */
  datatype Question = Question(
    id: int,
    question: string,
    options: seq<string>,
    correct: int,
    explanation: string)

  /** The invariant every loaded question satisfies. */
  predicate QuestionOk(q: Question) {
    |q.options| >= 2 && 0 <= q.correct < |q.options|
  }

  datatype Mode = Study | Exam

  /** `questionCount: number | 'all'`. */
  datatype QuestionCount = All | Count(n: int)

  /** A run configuration; `timeLimit` is in minutes, `None` is unlimited. */
  datatype QuizConfig = QuizConfig(
    questionCount: QuestionCount,
    randomize: bool,
    mode: Mode,
    timeLimit: Option<int>)

  /** The summary the results screen derives; `percentage` is `None` where JavaScript gives NaN or an infinity. */
  datatype QuizResults = QuizResults(
    score: int,
    totalQuestions: int,
    percentage: Option<int>,
    correctAnswers: int,
    incorrectAnswers: int)

  /**
   * Why a load failed. The session stores a message; the model keeps its kind
   * and the positions it names (records and options are numbered from 1).
   */
  datatype LoadError =
    | HttpStatus(status: int)
    | NetworkFailure
    | InvalidJson
    | NotAnArray
    | NoQuestions
    | NullRecord  // the `TypeError` of reading a field of a `null` element, whose message names no record
    | MissingQuestion(record: nat)
    | MissingOptions(record: nat)
    | TooFewOptions(record: nat)
    | MalformedObjectOption(record: nat, option: nat)
    | MalformedOption(record: nat, option: nat)
    | NoCorrectAnswer(record: nat)
    | SeveralCorrectAnswers(record: nat, question: string, flagged: seq<nat>, texts: seq<string>)

  /**
   * The session state. `timeLimit` is in minutes and `timeRemaining` in seconds,
   * `None` meaning unlimited; `selectedAnswers` holds an option index or `None`
   * (JavaScript `null`) per active question; `allQuestions` is the loaded pool,
   * `questions` the active run drawn from it.
   */
  datatype QuizState = QuizState(
    questions: seq<Question>,
    allQuestions: seq<Question>,
    currentQuestionIndex: int,
    selectedAnswers: seq<Option<int>>,
    score: int,
    isCompleted: bool,
    isLoading: bool,
    error: Option<LoadError>,
    isConfiguring: bool,
    mode: Mode,
    timeLimit: Option<int>,
    timeRemaining: Option<int>,
    isTimerActive: bool)
}
