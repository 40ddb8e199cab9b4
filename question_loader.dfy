/**
 * The question normaliser of `loadQuestions`: untrusted JSON records become
 * `Question`s, all of them or none. Each record may encode its options as
 * strings plus a `correct`/`correctAnswer` index, or as `{ text, isCorrect }`
 * objects; the encoding is decided per option element.
 */
module QuestionLoader {
  import opened Wrappers
  import opened QuizTypes

  /** One element of a record's `options` array: a string, an object, or anything else (number, boolean, null). */
  datatype RawOption =
    | Str(s: string)
    | Obj(text: Option<string>, isCorrect: Option<bool>)
    | Bad

  /**
   * One record of the payload. `question`/`explanation` are `None` when absent;
   * `options` is `None` when absent or not an array; `correct`/`correctAnswer`
   * are `None` when null, undefined or not a number.
   */
  datatype RawRecord = RawRecord(
    question: Option<string>,
    options: Option<seq<RawOption>>,
    correct: Option<int>,
    correctAnswer: Option<int>,
    explanation: Option<string>)

  /**
   * One element of the payload array: `null`, on which reading `item.question`
   * throws a `TypeError`, or a record (any other value; one that is not an
   * object reads as a record with every field absent).
   */
  datatype RawItem = NullItem | Item(record: RawRecord)

  /** What `response.json()` produced. */
  datatype Payload = Unparsable | NotArray | Records(items: seq<RawItem>)

  /** What the fetch of a source produced. */
  datatype Fetched = HttpError(status: int) | NetworkError | Body(payload: Payload)

  // ---------------------------------------------------------------------------
  // Specification of one record

  /** An option element the loop accepts: a string, or an object with a truthy `text` and a boolean `isCorrect`. */
  predicate OptionWellFormed(o: RawOption) {
    match o
    case Str(_) => true
    case Obj(text, isCorrect) => text.Some? && text.value != "" && isCorrect.Some?
    case Bad => false
  }

  function OptionText(o: RawOption): string
    requires OptionWellFormed(o)
  {
    match o
    case Str(s) => s
    case Obj(text, _) => text.value
  }

  /**
   * Whether option `i` counts as correct: a string option when its index equals
   * `correct` or `correctAnswer`, an object option when `isCorrect` is true.
   */
  predicate FlagsCorrect(item: RawRecord, opts: seq<RawOption>, i: int) {
    0 <= i < |opts| &&
    match opts[i]
    case Str(_) => item.correct == Some(i) || item.correctAnswer == Some(i)
    case Obj(_, isCorrect) => isCorrect == Some(true)
    case Bad => false
  }

  /** What the `forEach` over the options has gathered: the texts and flagged indices, or the first malformed index. */
  datatype Scan = Scan(malformed: Option<nat>, texts: seq<string>, flagged: seq<nat>)

  /** The `forEach` over the first `n` options (lines 108-134), stopping at the first malformed one. */
  function ScanSpec(item: RawRecord, opts: seq<RawOption>, n: nat): Scan
    requires n <= |opts|
  {
    if n == 0 then Scan(None, [], [])
    else
      var prev := ScanSpec(item, opts, n - 1);
      if prev.malformed.Some? then prev
      else if !OptionWellFormed(opts[n - 1]) then prev.(malformed := Some(n - 1))
      else Scan(None, prev.texts + [OptionText(opts[n - 1])],
                prev.flagged + (if FlagsCorrect(item, opts, n - 1) then [n - 1] else []))
  }

  /** The rescue of lines 137-143: with no option flagged, `correct ?? correctAnswer` when it is a valid index. */
  function FallbackIndex(item: RawRecord, n: nat): (r: Option<int>)
    ensures r.Some? ==> 0 <= r.value < n
    ensures r.Some? ==>
      || (item.correct.Some? && r.value == item.correct.value)
      || (item.correct.None? && item.correctAnswer == Some(r.value))
    ensures item.correct.Some? && 0 <= item.correct.value < n ==> r == item.correct
    ensures item.correct.None? && item.correctAnswer.Some? && 0 <= item.correctAnswer.value < n ==> r == item.correctAnswer
  {
    if item.correct.Some? || item.correctAnswer.Some? then
      var idx := if item.correct.Some? then item.correct.value else item.correctAnswer.value;
      if 0 <= idx < n then Some(idx) else None
    else None
  }

  /** `item.explanation || ''`. */
  function ExplanationOf(e: Option<string>): string {
    if e.Some? then e.value else ""
  }

  function OneBased(indices: seq<nat>): (r: seq<nat>)
    ensures |r| == |indices| && forall k :: 0 <= k < |r| ==> r[k] == indices[k] + 1
  {
    seq(|indices|, k requires 0 <= k < |indices| => indices[k] + 1)
  }

  /** The texts at the given indices; an index out of range (which the scan never produces) reads as empty. */
  function TextsAt(texts: seq<string>, indices: seq<nat>): (r: seq<string>)
    ensures |r| == |indices|
    ensures forall k :: 0 <= k < |r| && indices[k] < |texts| ==> r[k] == texts[indices[k]]
  {
    seq(|indices|, k requires 0 <= k < |indices| => if indices[k] < |texts| then texts[indices[k]] else "")
  }

  /** The error thrown for the malformed option at 0-based position `j` of record `record`. */
  function MalformedError(record: nat, o: RawOption, j: nat): LoadError {
    if o.Obj? then MalformedObjectOption(record, j + 1) else MalformedOption(record, j + 1)
  }

  /** The outcome for a record whose options scanned cleanly (lines 137-182). */
  function Accepted(item: RawRecord, question: string, record: nat, scan: Scan): Result<Question, LoadError> {
    var q := Question(record, question, scan.texts, 0, ExplanationOf(item.explanation));
    if |scan.flagged| == 0 then
      match FallbackIndex(item, |scan.texts|)
      case None => Err(NoCorrectAnswer(record))
      case Some(c) => Ok(q.(correct := c))
    else if |scan.flagged| > 1 then
      Err(SeveralCorrectAnswers(record, question, OneBased(scan.flagged), TextsAt(scan.texts, scan.flagged)))
    else Ok(q.(correct := scan.flagged[0]))
  }

  /** The outcome for the record at 0-based position `index`, checks in the code's order (lines 88-183). */
  function RecordSpec(item: RawRecord, index: nat): Result<Question, LoadError> {
    var record := index + 1;
    if item.question.None? || item.question.value == "" then Err(MissingQuestion(record))
    else if item.options.None? then Err(MissingOptions(record))
    else
      var opts := item.options.value;
      if |opts| < 2 then Err(TooFewOptions(record))
      else
        var scan := ScanSpec(item, opts, |opts|);
        match scan.malformed
        case Some(j) => Err(MalformedError(record, if j < |opts| then opts[j] else Bad, j))
        case None => Accepted(item, item.question.value, record, scan)
  }

  /** The outcome for the payload element at 0-based position `index`. */
  function ItemSpec(it: RawItem, index: nat): Result<Question, LoadError> {
    match it
    case NullItem => Err(NullRecord)
    case Item(item) => RecordSpec(item, index)
  }

  /** The outcome of every element, by position: what the `data.map` callback returns or throws. */
  function Outcomes(items: seq<RawItem>): (r: seq<Result<Question, LoadError>>)
    ensures |r| == |items| && forall i :: 0 <= i < |items| ==> r[i] == ItemSpec(items[i], i)
  {
    seq(|items|, i requires 0 <= i < |items| => ItemSpec(items[i], i))
  }

  /** The first `n` outcomes run in order: the first error propagates, otherwise every value in order. */
  function Collect<T, E>(rs: seq<Result<T, E>>, n: nat): Result<seq<T>, E>
    requires n <= |rs|
  {
    if n == 0 then Ok([])
    else match Collect(rs, n - 1)
      case Err(e) => Err(e)
      case Ok(vs) => if rs[n - 1].Err? then Err(rs[n - 1].error) else Ok(vs + [rs[n - 1].value])
  }

  /** The outcome for a whole payload (lines 77-183). */
  function NormalizeSpec(p: Payload): Result<seq<Question>, LoadError> {
    match p
    case Unparsable => Err(InvalidJson)
    case NotArray => Err(NotAnArray)
    case Records(items) => if |items| == 0 then Err(NoQuestions) else Collect(Outcomes(items), |items|)
  }

  /** The outcome of a whole load, transport included (lines 70-183). */
  function LoadResult(f: Fetched): Result<seq<Question>, LoadError> {
    match f
    case HttpError(status) => Err(HttpStatus(status))
    case NetworkError => Err(NetworkFailure)
    case Body(p) => NormalizeSpec(p)
  }

  // ---------------------------------------------------------------------------
  // Facts about the scan

  /** A malformed option, once found, stays the scan's verdict. */
  lemma {:induction false} ScanStable(item: RawRecord, opts: seq<RawOption>, k: nat, n: nat)
    requires k <= n <= |opts|
    requires ScanSpec(item, opts, k).malformed.Some?
    ensures ScanSpec(item, opts, n) == ScanSpec(item, opts, k)
    decreases n - k
  {
    if k < n {
      ScanStable(item, opts, k, n - 1);
    }
  }

  /** The scan reports the first malformed option, or none when every option is well formed. */
  lemma {:induction false} ScanMalformed(item: RawRecord, opts: seq<RawOption>, n: nat)
    requires n <= |opts|
    ensures var m := ScanSpec(item, opts, n).malformed;
      && (m.None? <==> forall k :: 0 <= k < n ==> OptionWellFormed(opts[k]))
      && (m.Some? ==> m.value < n && !OptionWellFormed(opts[m.value])
                      && forall k :: 0 <= k < m.value ==> OptionWellFormed(opts[k]))
  {
    if n > 0 {
      ScanMalformed(item, opts, n - 1);
    }
  }

  /** A clean scan holds every option's text, in order. */
  lemma {:induction false} ScanTexts(item: RawRecord, opts: seq<RawOption>, n: nat)
    requires n <= |opts|
    requires ScanSpec(item, opts, n).malformed.None?
    ensures var s := ScanSpec(item, opts, n);
      && |s.texts| == n
      && forall k :: 0 <= k < n ==> OptionWellFormed(opts[k]) && s.texts[k] == OptionText(opts[k])
  {
    if n > 0 {
      ScanTexts(item, opts, n - 1);
    }
  }

  /** A clean scan lists exactly the flagged options, in increasing order. */
  lemma {:induction false} ScanFlagged(item: RawRecord, opts: seq<RawOption>, n: nat)
    requires n <= |opts|
    requires ScanSpec(item, opts, n).malformed.None?
    ensures var f := ScanSpec(item, opts, n).flagged;
      && (forall k :: 0 <= k < |f| ==> f[k] < n && FlagsCorrect(item, opts, f[k]))
      && (forall i :: 0 <= i < n && FlagsCorrect(item, opts, i) ==> i in f)
      && (forall k, l :: 0 <= k < l < |f| ==> f[k] < f[l])
  {
    if n > 0 {
      ScanFlagged(item, opts, n - 1);
      var f := ScanSpec(item, opts, n).flagged;
      var g := ScanSpec(item, opts, n - 1).flagged;
      assert f == g + (if FlagsCorrect(item, opts, n - 1) then [n - 1] else []);
      forall i | 0 <= i < n && FlagsCorrect(item, opts, i) ensures i in f {
        if i < n - 1 {
          assert i in g;
        } else {
          assert f[|f| - 1] == i;
        }
      }
    }
  }

  /** Exactly option `k` flagged correct: the scan lists `[k]` once `k` is in range. */
  lemma {:induction false} ScanSingleFlag(item: RawRecord, opts: seq<RawOption>, k: nat, n: nat)
    requires n <= |opts|
    requires forall j :: 0 <= j < |opts| ==> OptionWellFormed(opts[j])
    requires forall j :: 0 <= j < |opts| ==> (FlagsCorrect(item, opts, j) <==> j == k)
    ensures ScanSpec(item, opts, n).malformed.None?
    ensures ScanSpec(item, opts, n).flagged == if k < n then [k] else []
  {
    if n > 0 {
      ScanSingleFlag(item, opts, k, n - 1);
    }
  }

  // ---------------------------------------------------------------------------
  // The code: a loop per record, a loop over the records

  /**
   * The `forEach` over a record's options (lines 104-134): collects the texts and
   * the flagged indices, or stops at the first malformed option.
   */
  method ScanOptions(item: RawRecord, record: nat, opts: seq<RawOption>)
    returns (failure: Option<LoadError>, options: seq<string>, correctIndex: int, correctCount: nat, correctAnswers: seq<nat>)
    ensures var scan := ScanSpec(item, opts, |opts|);
      && (failure.Some? <==> scan.malformed.Some?)
      && (failure.Some? ==> scan.malformed.value < |opts|
                            && failure.value == MalformedError(record, opts[scan.malformed.value], scan.malformed.value))
      && (failure.None? ==>
            && options == scan.texts
            && correctAnswers == scan.flagged
            && correctCount == |correctAnswers|
            && correctIndex == if correctAnswers == [] then -1 else correctAnswers[|correctAnswers| - 1])
  {
    options := [];
    correctIndex := -1;
    correctCount := 0;
    correctAnswers := [];
    var k := 0;
    while k < |opts|
      invariant 0 <= k <= |opts|
      invariant ScanSpec(item, opts, k) == Scan(None, options, correctAnswers)
      invariant correctCount == |correctAnswers|
      invariant correctIndex == if correctAnswers == [] then -1 else correctAnswers[|correctAnswers| - 1]
    {
      match opts[k] {
        case Str(s) =>
          options := options + [s];
          if item.correct == Some(k) || item.correctAnswer == Some(k) {
            correctCount := correctCount + 1;
            correctIndex := k;
            correctAnswers := correctAnswers + [k];
          }
        case Obj(text, isCorrect) =>
          if text.None? || text.value == "" || isCorrect.None? {
            ScanStable(item, opts, k + 1, |opts|);
            failure := Some(MalformedObjectOption(record, k + 1));
            return;
          }
          options := options + [text.value];
          if isCorrect.value {
            correctCount := correctCount + 1;
            correctIndex := k;
            correctAnswers := correctAnswers + [k];
          }
        case Bad =>
          ScanStable(item, opts, k + 1, |opts|);
          failure := Some(MalformedOption(record, k + 1));
          return;
      }
      k := k + 1;
    }
    failure := None;
  }

  /** The body of the `data.map` callback (lines 88-183). */
  method NormalizeRecord(item: RawRecord, index: nat) returns (r: Result<Question, LoadError>)
    ensures r == RecordSpec(item, index)
  {
    if item.question.None? || item.question.value == "" {
      return Err(MissingQuestion(index + 1));
    }
    if item.options.None? {
      return Err(MissingOptions(index + 1));
    }
    var opts := item.options.value;
    if |opts| < 2 {
      return Err(TooFewOptions(index + 1));
    }
    var failure, options, correctIndex, correctCount, correctAnswers := ScanOptions(item, index + 1, opts);
    if failure.Some? {
      return Err(failure.value);
    }
    if correctCount == 0 && (item.correct.Some? || item.correctAnswer.Some?) {
      var correctIdx := if item.correct.Some? then item.correct.value else item.correctAnswer.value;
      if 0 <= correctIdx < |options| {
        correctIndex := correctIdx;
        correctCount := 1;
      }
    }
    if correctCount == 0 {
      return Err(NoCorrectAnswer(index + 1));
    }
    if correctCount > 1 {
      return Err(SeveralCorrectAnswers(index + 1, item.question.value,
                                       OneBased(correctAnswers), TextsAt(options, correctAnswers)));
    }
    r := Ok(Question(index + 1, item.question.value, options, correctIndex, ExplanationOf(item.explanation)));
  }

  /** Collecting is all-or-nothing: success holds one value per outcome, in order. */
  lemma {:induction false} CollectOk<T, E>(rs: seq<Result<T, E>>, n: nat)
    requires n <= |rs|
    ensures Collect(rs, n).Ok? <==> forall i :: 0 <= i < n ==> rs[i].Ok?
    ensures Collect(rs, n).Ok? ==>
      var vs := Collect(rs, n).value;
      |vs| == n && forall i :: 0 <= i < n ==> rs[i] == Ok(vs[i])
  {
    if n > 0 {
      CollectOk(rs, n - 1);
    }
  }

  /** The first error among the first `n` outcomes is what collecting them yields. */
  lemma {:induction false} CollectFirstError<T, E>(rs: seq<Result<T, E>>, n: nat, i: nat, e: E)
    requires i < n <= |rs|
    requires rs[i] == Err(e) && forall j :: 0 <= j < i ==> rs[j].Ok?
    ensures Collect(rs, n) == Err(e)
  {
    if n > i + 1 {
      CollectFirstError(rs, n - 1, i, e);
    } else {
      CollectOk(rs, i);
    }
  }

  /** Outcomes that are all successes collect to their values. */
  lemma CollectAllOk<T, E>(rs: seq<Result<T, E>>, vs: seq<T>)
    requires |vs| == |rs| && forall j :: 0 <= j < |rs| ==> rs[j] == Ok(vs[j])
    ensures Collect(rs, |rs|) == Ok(vs)
  {
    CollectOk(rs, |rs|);
    var ws := Collect(rs, |rs|).value;
    assert forall j :: 0 <= j < |rs| ==> rs[j] == Ok(ws[j]);
    assert ws == vs;
  }

  /** The payload checks and the `data.map` over the records (lines 77-183). */
  method Normalize(p: Payload) returns (r: Result<seq<Question>, LoadError>)
    ensures r == NormalizeSpec(p)
  {
    if p.Unparsable? {
      return Err(InvalidJson);
    }
    if p.NotArray? {
      return Err(NotAnArray);
    }
    var items := p.items;
    if |items| == 0 {
      return Err(NoQuestions);
    }
    ghost var outcomes := Outcomes(items);
    var questions: seq<Question> := [];
    var i := 0;
    while i < |items|
      invariant 0 <= i <= |items|
      invariant |questions| == i && forall j :: 0 <= j < i ==> outcomes[j] == Ok(questions[j])
    {
      if items[i].NullItem? {
        CollectFirstError(outcomes, |items|, i, NullRecord);
        return Err(NullRecord);
      }
      var q := NormalizeRecord(items[i].record, i);
      if q.Err? {
        CollectFirstError(outcomes, |items|, i, q.error);
        return Err(q.error);
      }
      questions := questions + [q.value];
      i := i + 1;
    }
    CollectAllOk(outcomes, questions);
    r := Ok(questions);
  }

  // ---------------------------------------------------------------------------
  // Properties of the specification

  /** An accepted record keeps its text and options in order, numbers itself by position, and indexes a real option. */
  lemma AcceptedRecordShape(item: RawRecord, index: nat)
    requires RecordSpec(item, index).Ok?
    ensures var q := RecordSpec(item, index).value;
      && item.question.Some? && item.options.Some?
      && q.id == index + 1
      && q.question == item.question.value
      && |q.options| == |item.options.value| >= 2
      && (forall k :: 0 <= k < |q.options| ==>
            OptionWellFormed(item.options.value[k]) && q.options[k] == OptionText(item.options.value[k]))
      && 0 <= q.correct < |q.options|
      && q.explanation == (if item.explanation.Some? then item.explanation.value else "")
      && QuestionOk(q)
  {
    var opts := item.options.value;
    ScanTexts(item, opts, |opts|);
    ScanFlagged(item, opts, |opts|);
    var flagged := ScanSpec(item, opts, |opts|).flagged;
    if |flagged| == 1 {
      assert flagged[0] < |opts|;
    }
  }

  /**
   * A record is accepted exactly when its question is truthy, it has at least two
   * well-formed options, and either exactly one option is flagged correct or none
   * is and the `correct ?? correctAnswer` fallback names a valid index.
   */
  lemma AcceptedIff(item: RawRecord, index: nat)
    ensures RecordSpec(item, index).Ok? <==>
      && item.question.Some? && item.question.value != ""
      && item.options.Some? && |item.options.value| >= 2
      && (forall k :: 0 <= k < |item.options.value| ==> OptionWellFormed(item.options.value[k]))
      && var flagged := ScanSpec(item, item.options.value, |item.options.value|).flagged;
         || |flagged| == 1
         || (|flagged| == 0 && FallbackIndex(item, |item.options.value|).Some?)
  {
    if item.options.Some? {
      var opts := item.options.value;
      ScanMalformed(item, opts, |opts|);
      if ScanSpec(item, opts, |opts|).malformed.None? {
        ScanTexts(item, opts, |opts|);
      }
    }
  }

  /**
   * The accepted answer: when some option is flagged it is the only flagged one;
   * otherwise no option is flagged and the fallback index was used.
   */
  lemma AcceptedCorrectIsTheFlaggedOne(item: RawRecord, index: nat)
    requires RecordSpec(item, index).Ok?
    ensures var q := RecordSpec(item, index).value;
      var opts := item.options.value;
      || (FlagsCorrect(item, opts, q.correct)
          && forall j :: 0 <= j < |opts| && j != q.correct ==> !FlagsCorrect(item, opts, j))
      || ((forall j :: 0 <= j < |opts| ==> !FlagsCorrect(item, opts, j))
          && Some(q.correct) == FallbackIndex(item, |opts|))
  {
    var opts := item.options.value;
    ScanTexts(item, opts, |opts|);
    ScanFlagged(item, opts, |opts|);
  }

  /** Object-form options with exactly one `isCorrect: true`: accepted, and `correct` is that option. */
  lemma ObjectFormSingleTrue(item: RawRecord, index: nat, k: nat)
    requires item.question.Some? && item.question.value != ""
    requires item.options.Some? && |item.options.value| >= 2
    requires forall j :: 0 <= j < |item.options.value| ==>
      item.options.value[j].Obj? && OptionWellFormed(item.options.value[j])
    requires k < |item.options.value| && item.options.value[k].isCorrect == Some(true)
    requires forall j :: 0 <= j < |item.options.value| && j != k ==> item.options.value[j].isCorrect == Some(false)
    ensures RecordSpec(item, index).Ok? && RecordSpec(item, index).value.correct == k
  {
    var opts := item.options.value;
    ScanSingleFlag(item, opts, k, |opts|);
  }

  /**
   * Two or more flagged options (with the earlier checks passed): the load fails
   * naming the record, its question, every flagged option 1-based in order, and their texts.
   */
  lemma SeveralCorrectReported(item: RawRecord, index: nat)
    requires item.question.Some? && item.question.value != ""
    requires item.options.Some? && |item.options.value| >= 2
    requires forall j :: 0 <= j < |item.options.value| ==> OptionWellFormed(item.options.value[j])
    requires |ScanSpec(item, item.options.value, |item.options.value|).flagged| > 1
    ensures var opts := item.options.value;
      var r := RecordSpec(item, index);
      && r.Err? && r.error.SeveralCorrectAnswers?
      && r.error.record == index + 1 && r.error.question == item.question.value
      && |r.error.flagged| == |r.error.texts| > 1
      && (forall l :: 0 <= l < |r.error.flagged| ==>
            1 <= r.error.flagged[l] <= |opts|
            && FlagsCorrect(item, opts, r.error.flagged[l] - 1)
            && r.error.texts[l] == OptionText(opts[r.error.flagged[l] - 1]))
      && (forall l, m :: 0 <= l < m < |r.error.flagged| ==> r.error.flagged[l] < r.error.flagged[m])
      && (forall j :: 0 <= j < |opts| && FlagsCorrect(item, opts, j) ==> j + 1 in r.error.flagged)
  {
    var opts := item.options.value;
    ScanMalformed(item, opts, |opts|);
    ScanTexts(item, opts, |opts|);
    ScanFlagged(item, opts, |opts|);
    var flagged := ScanSpec(item, opts, |opts|).flagged;
    var r := RecordSpec(item, index);
    forall j | 0 <= j < |opts| && FlagsCorrect(item, opts, j)
      ensures j + 1 in r.error.flagged
    {
      var l :| 0 <= l < |flagged| && flagged[l] == j;
      assert r.error.flagged[l] == j + 1;
    }
  }

  /** The example payload with two `isCorrect: true` options fails naming options 1 and 2. */
  lemma TwoTrueOptionsExample()
    ensures NormalizeSpec(Records([Item(RawRecord(Some("Q1"),
              Some([Obj(Some("A"), Some(true)), Obj(Some("B"), Some(true))]), None, None, None))]))
            == Err(SeveralCorrectAnswers(1, "Q1", [1, 2], ["A", "B"]))
  {
    var item := RawRecord(Some("Q1"),
      Some([Obj(Some("A"), Some(true)), Obj(Some("B"), Some(true))]), None, None, None);
    var opts := item.options.value;
    assert ScanSpec(item, opts, 1) == Scan(None, ["A"], [0]);
    assert ScanSpec(item, opts, 2) == Scan(None, ["A", "B"], [0, 1]);
    assert OneBased([0, 1]) == [1, 2];
    assert TextsAt(["A", "B"], [0, 1]) == ["A", "B"];
    assert RecordSpec(item, 0) == Err(SeveralCorrectAnswers(1, "Q1", [1, 2], ["A", "B"]));
    assert Outcomes([Item(item)])[0] == RecordSpec(item, 0);
  }

  /** Outcome `i` is the first error among the first `n`, and it is `e`. */
  predicate FirstError<T, E(==)>(rs: seq<Result<T, E>>, n: nat, i: nat, e: E)
    requires n <= |rs|
  {
    i < n && rs[i] == Err(e) && forall j :: 0 <= j < i ==> rs[j].Ok?
  }

  /** A failed collection reports the error of its first failing outcome. */
  lemma {:induction false} CollectErr<T, E>(rs: seq<Result<T, E>>, n: nat)
    requires n <= |rs|
    requires Collect(rs, n).Err?
    ensures exists i :: FirstError(rs, n, i, Collect(rs, n).error)
  {
    if Collect(rs, n - 1).Err? {
      CollectErr(rs, n - 1);
      var i :| FirstError(rs, n - 1, i, Collect(rs, n - 1).error);
      assert FirstError(rs, n, i, Collect(rs, n).error);
    } else {
      CollectOk(rs, n - 1);
      assert FirstError(rs, n, n - 1, Collect(rs, n).error);
    }
  }

  /** Element `i` is the first element to be rejected, with error `e`. */
  predicate FirstRejected(items: seq<RawItem>, i: nat, e: LoadError) {
    i < |items| && ItemSpec(items[i], i) == Err(e) && forall j :: 0 <= j < i ==> ItemSpec(items[j], j).Ok?
  }

  /**
   * A load of records succeeds exactly when there is at least one record and
   * every record is accepted; then it holds one question per record, in source
   * order, each with `id` = position + 1 and satisfying the question invariant.
   * Otherwise the error is that of the first rejected record.
   */
  lemma LoadAllOrNothing(items: seq<RawItem>)
    ensures NormalizeSpec(Records(items)).Ok? <==>
      |items| > 0 && forall i :: 0 <= i < |items| ==> items[i].Item? && RecordSpec(items[i].record, i).Ok?
    ensures NormalizeSpec(Records(items)).Ok? ==>
      var qs := NormalizeSpec(Records(items)).value;
      && |qs| == |items|
      && forall i :: 0 <= i < |items| ==>
           items[i].Item? && Ok(qs[i]) == RecordSpec(items[i].record, i) && qs[i].id == i + 1 && QuestionOk(qs[i])
    ensures |items| > 0 && NormalizeSpec(Records(items)).Err? ==>
      exists i :: FirstRejected(items, i, NormalizeSpec(Records(items)).error)
  {
    if |items| > 0 {
      var outcomes := Outcomes(items);
      CollectOk(outcomes, |items|);
      if Collect(outcomes, |items|).Ok? {
        var qs := Collect(outcomes, |items|).value;
        forall i | 0 <= i < |items| ensures qs[i].id == i + 1 && QuestionOk(qs[i]) {
          AcceptedRecordShape(items[i].record, i);
        }
      } else {
        CollectErr(outcomes, |items|);
        var i :| FirstError(outcomes, |items|, i, Collect(outcomes, |items|).error);
        assert FirstRejected(items, i, NormalizeSpec(Records(items)).error);
      }
    }
  }

  /**
   * A `null` element fails the whole load with the `TypeError` of reading its
   * `question`, unless an earlier element has already failed it.
   */
  lemma NullElementFailsLoad(items: seq<RawItem>, i: nat)
    requires i < |items| && items[i].NullItem?
    ensures NormalizeSpec(Records(items)).Err?
    ensures (forall j :: 0 <= j < i ==> ItemSpec(items[j], j).Ok?) ==> NormalizeSpec(Records(items)) == Err(NullRecord)
  {
    var outcomes := Outcomes(items);
    CollectOk(outcomes, |items|);
    if forall j :: 0 <= j < i ==> ItemSpec(items[j], j).Ok? {
      CollectFirstError(outcomes, |items|, i, NullRecord);
    }
  }

  /** Every successful load, whatever its transport, yields only questions satisfying the invariant. */
  lemma LoadedQuestionsOk(f: Fetched)
    requires LoadResult(f).Ok?
    ensures |LoadResult(f).value| > 0
    ensures forall i :: 0 <= i < |LoadResult(f).value| ==> QuestionOk(LoadResult(f).value[i])
  {
    LoadAllOrNothing(f.payload.items);
  }
}
