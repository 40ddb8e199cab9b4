/**
 * The setup form shown once questions are loaded: mode, how many questions,
 * shuffling and the time limit, and the configuration `handleStart` derives
 * from them for `startQuiz`.
 */
module QuizSetup {
  import opened Wrappers
  import opened QuizTypes
  import JsText
  import QuizHook

  /** The question-count field: `'all'`, `'custom'`, or a number. */
  datatype CountSetting = AllSetting | CustomSetting | NumberSetting(n: int)

  /** The fields of the form. */
  datatype Form = Form(
    mode: Mode,
    questionCount: CountSetting,
    customQuestionCount: string,
    randomize: bool,
    timeLimit: Option<int>,
    customTimeLimit: string)

  /** The defaults: study mode, all questions, no shuffling, no time limit. */
  function DefaultForm(): Form {
    Form(Study, AllSetting, "", false, None, "")
  }

  /** `Math.min(parseInt(customQuestionCount) || totalQuestions, totalQuestions)`. */
  function CustomCount(text: string, totalQuestions: int): (r: int)
    ensures r <= totalQuestions
  {
    var n := JsText.NumberOr(JsText.ParseInt(text), totalQuestions);
    if n < totalQuestions then n else totalQuestions
  }

  /** `timeLimit === 0 ? null : timeLimit === -1 ? parseInt(customTimeLimit) || null : timeLimit`. */
  function FinalTimeLimit(timeLimit: Option<int>, customTimeLimit: string): Option<int> {
    if timeLimit == Some(0) then None
    else if timeLimit == Some(-1) then
      var p := JsText.ParseInt(customTimeLimit);
      if p.Some? && p.value != 0 then p else None
    else timeLimit
  }

  /** `handleStart`: the configuration passed to `onStart`. */
  function DeriveConfig(form: Form, totalQuestions: int): QuizConfig {
    var count :=
      match form.questionCount
      case AllSetting => All
      case CustomSetting => Count(CustomCount(form.customQuestionCount, totalQuestions))
      case NumberSetting(n) => Count(n);
    QuizConfig(count, form.randomize, form.mode, FinalTimeLimit(form.timeLimit, form.customTimeLimit))
  }

  /** The form's own handlers only ever set the count to `'all'` or `'custom'` and the limit to `null` or `-1`. */
  predicate Reachable(form: Form) {
    !form.questionCount.NumberSetting? && (form.timeLimit.None? || form.timeLimit == Some(-1))
  }

  /**
   * A custom count never exceeds the pool; empty, unparsable or zero input
   * means the whole pool; any other parsed number up to the pool is taken as is.
   */
  lemma CustomCountMeaning(text: string, total: int)
    ensures CustomCount(text, total) <= total
    ensures JsText.ParseInt(text).None? || JsText.ParseInt(text) == Some(0) ==> CustomCount(text, total) == total
    ensures var p := JsText.ParseInt(text);
      p.Some? && p.value != 0 && p.value <= total ==> CustomCount(text, total) == p.value
  {
  }

  /** Typing a count shows the number typed: `"7"` out of 10 gives 7, and `""` gives the pool. */
  lemma CustomCountOfTypedNumber(n: nat, total: int)
    requires 0 < n <= total
    ensures CustomCount(JsText.IntToString(n), total) == n
    ensures CustomCount("", total) == total
  {
    JsText.ParseIntOfIntToString(n);
  }

  /**
   * What `handleStart` passes on: the mode and shuffling as chosen, `'all'` as
   * is, a custom count bounded by the pool, and a time limit that is never `0`:
   * no limit stays none, `0` becomes none, and the custom choice becomes the
   * parsed minutes or none.
   */
  lemma DeriveConfigShape(form: Form, total: int)
    ensures var c := DeriveConfig(form, total);
      && c.mode == form.mode && c.randomize == form.randomize
      && (form.questionCount == AllSetting <==> c.questionCount == All)
      && (form.questionCount == CustomSetting ==> c.questionCount.Count? && c.questionCount.n <= total)
      && (form.timeLimit.None? ==> c.timeLimit.None?)
      && (form.timeLimit == Some(0) ==> c.timeLimit.None?)
      && (form.timeLimit == Some(-1) ==>
            c.timeLimit == (var p := JsText.ParseInt(form.customTimeLimit); if p.Some? && p.value != 0 then p else None))
      && c.timeLimit != Some(0)
  {
  }

  /** The defaults start an unshuffled study run over every question, without a limit. */
  lemma DefaultConfig(total: int)
    ensures DeriveConfig(DefaultForm(), total) == QuizConfig(All, false, Study, None)
    ensures Reachable(DefaultForm())
  {
  }

  /**
   * Started from the form a run has at most as many questions as the pool, and
   * exactly the typed number when the input is a positive number inside it;
   * a timed run is armed exactly when the typed minutes are positive.
   */
  lemma StartFromForm(s: QuizState, form: Form, swaps: seq<(int, int)>)
    requires form.questionCount == CustomSetting
    ensures var t := QuizHook.Started(s, DeriveConfig(form, |s.allQuestions|), swaps);
      && |t.questions| <= |s.allQuestions|
      && (var p := JsText.ParseInt(form.customQuestionCount);
          p.Some? && 0 < p.value <= |s.allQuestions| ==> |t.questions| == p.value)
      && (form.timeLimit == Some(-1) ==>
            (QuizHook.TimerArmed(t) <==> var p := JsText.ParseInt(form.customTimeLimit); p.Some? && p.value > 0))
  {
    var total := |s.allQuestions|;
    var c := DeriveConfig(form, total);
    var n := CustomCount(form.customQuestionCount, total);
    CustomCountMeaning(form.customQuestionCount, total);
    assert c.questionCount == Count(n);
    QuizHook.DrawnShape(s.allQuestions, c, swaps);
    QuizHook.StartedShape(s, c, swaps);
  }

  /**
   * As written, a negative custom count gets through: `parseInt` of `"-k"` is
   * truthy and below the pool, and `slice(0, -k)` then drops the last `k`
   * questions of the (possibly shuffled) pool.
   */
  lemma NegativeCustomCount(s: QuizState, form: Form, swaps: seq<(int, int)>)
    requires form.questionCount == CustomSetting
    requires var p := JsText.ParseInt(form.customQuestionCount); p.Some? && p.value < 0
    ensures var t := QuizHook.Started(s, DeriveConfig(form, |s.allQuestions|), swaps);
      var k := -JsText.ParseInt(form.customQuestionCount).value;
      && |t.questions| == (if k < |s.allQuestions| then |s.allQuestions| - k else 0)
      && (!form.randomize ==> t.questions == s.allQuestions[..|t.questions|])
  {
    var total := |s.allQuestions|;
    var c := DeriveConfig(form, total);
    CustomCountMeaning(form.customQuestionCount, total);
    assert c.questionCount == Count(JsText.ParseInt(form.customQuestionCount).value);
    QuizHook.DrawnShape(s.allQuestions, c, swaps);
  }

  /** The text `"-1"` parses as minus one, so it is such a count. */
  lemma MinusOneParses()
    ensures JsText.ParseInt("-1") == Some(-1)
  {
    assert JsText.NatToString(1) == "1";
    assert JsText.IntToString(-1) == "-1";
    JsText.ParseIntOfIntToString(-1);
  }

  /** The form component: its fields and the handlers of its inputs. */
  class SetupForm {
    var mode: Mode
    var questionCount: CountSetting
    var customQuestionCount: string
    var randomize: bool
    var timeLimit: Option<int>
    var customTimeLimit: string

    function Fields(): Form
      reads this
    {
      Form(mode, questionCount, customQuestionCount, randomize, timeLimit, customTimeLimit)
    }

    constructor ()
      ensures Fields() == DefaultForm()
    {
      mode, questionCount, customQuestionCount := Study, AllSetting, "";
      randomize, timeLimit, customTimeLimit := false, None, "";
    }

    /** The study and exam buttons. */
    method SetMode(m: Mode)
      modifies this
      ensures Fields() == old(Fields()).(mode := m)
      ensures old(Reachable(Fields())) ==> Reachable(Fields())
    {
      mode := m;
    }

    method ChooseAllQuestions()
      modifies this
      ensures Fields() == old(Fields()).(questionCount := AllSetting)
      ensures old(Reachable(Fields())) ==> Reachable(Fields())
    {
      questionCount := AllSetting;
    }

    method ChooseCustomCount()
      modifies this
      ensures Fields() == old(Fields()).(questionCount := CustomSetting)
      ensures old(Reachable(Fields())) ==> Reachable(Fields())
    {
      questionCount := CustomSetting;
    }

    method SetCustomQuestionCount(text: string)
      modifies this
      ensures Fields() == old(Fields()).(customQuestionCount := text)
      ensures old(Reachable(Fields())) ==> Reachable(Fields())
    {
      customQuestionCount := text;
    }

    method SetRandomize(checked: bool)
      modifies this
      ensures Fields() == old(Fields()).(randomize := checked)
      ensures old(Reachable(Fields())) ==> Reachable(Fields())
    {
      randomize := checked;
    }

    /** The "no limit" radio button. */
    method ChooseNoLimit()
      modifies this
      ensures Fields() == old(Fields()).(timeLimit := None)
      ensures old(Reachable(Fields())) ==> Reachable(Fields())
    {
      timeLimit := None;
    }

    /** The "custom limit" radio button. */
    method ChooseCustomTime()
      modifies this
      ensures Fields() == old(Fields()).(timeLimit := Some(-1))
      ensures old(Reachable(Fields())) ==> Reachable(Fields())
    {
      timeLimit := Some(-1);
    }

    method SetCustomTimeLimit(text: string)
      modifies this
      ensures Fields() == old(Fields()).(customTimeLimit := text)
      ensures old(Reachable(Fields())) ==> Reachable(Fields())
    {
      customTimeLimit := text;
    }

    /** `handleStart`: reads the fields and returns the configuration for `onStart`. */
    method HandleStart(totalQuestions: int) returns (config: QuizConfig)
      ensures config == DeriveConfig(Fields(), totalQuestions)
      ensures config.mode == mode && config.randomize == randomize && config.timeLimit != Some(0)
      ensures questionCount == CustomSetting ==> config.questionCount.Count? && config.questionCount.n <= totalQuestions
    {
      var finalCount: QuestionCount;
      if questionCount == AllSetting {
        finalCount := All;
      } else if questionCount == CustomSetting {
        var n := JsText.NumberOr(JsText.ParseInt(customQuestionCount), totalQuestions);
        finalCount := Count(if n < totalQuestions then n else totalQuestions);
      } else {
        finalCount := Count(questionCount.n);
      }
      var finalTime: Option<int>;
      if timeLimit == Some(0) {
        finalTime := None;
      } else if timeLimit == Some(-1) {
        var p := JsText.ParseInt(customTimeLimit);
        finalTime := if p.Some? && p.value != 0 then p else None;
      } else {
        finalTime := timeLimit;
      }
      config := QuizConfig(finalCount, randomize, mode, finalTime);
    }
  }
}
