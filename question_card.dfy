/**
 * How one question's options look while it is answered: the class and the
 * icon of each option, when the explanation appears, and what a click does.
 */
module QuestionCard {
  import opened Wrappers
  import opened QuizTypes

  /**
   * The option classes: green and red feedback, a muted grey, the open
   * (hoverable) look of an unanswered question, and the blue of a choice.
   */
  datatype OptionClass = Green | Red | Gray | Open | Blue

  datatype OptionIcon = Check | Cross | Circle | Dot

  /** `getOptionClass(optionIndex)`. */
  function ClassOf(mode: Mode, selected: Option<int>, showResults: bool, correct: int, optionIndex: int): OptionClass {
    if mode == Study && selected.Some? then
      if optionIndex == correct then Green
      else if selected == Some(optionIndex) then Red
      else Gray
    else if selected.None? then Open
    else if selected == Some(optionIndex) then
      if showResults then (if optionIndex == correct then Green else Red) else Blue
    else if showResults && optionIndex == correct then Green
    else Gray
  }

  /** `getOptionIcon(optionIndex)`. */
  function IconOf(mode: Mode, selected: Option<int>, showResults: bool, correct: int, optionIndex: int): OptionIcon {
    if mode == Study && selected.Some? then
      if optionIndex == correct then Check
      else if selected == Some(optionIndex) then Cross
      else Circle
    else if !showResults then (if selected == Some(optionIndex) then Dot else Circle)
    else if optionIndex == correct then Check
    else if selected == Some(optionIndex) && optionIndex != correct then Cross
    else Circle
  }

  /** The explanation shows in study mode once an answer is chosen, when there is one. */
  predicate ExplanationVisible(mode: Mode, selected: Option<int>, explanation: string) {
    mode == Study && selected.Some? && explanation != ""
  }

  /** Clicking option `index`: the answer it selects, or nothing while the buttons are disabled. */
  function Click(showResults: bool, index: int): (r: Option<int>)
    ensures r.Some? <==> !showResults
    ensures r.Some? ==> r.value == index
  {
    if showResults then None else Some(index)
  }

  /**
   * Study feedback appears as soon as an answer is chosen: the correct option
   * is green with a check whether chosen or not, a chosen wrong option is red
   * with a cross, every other option grey with a circle.
   */
  lemma StudyFeedback(selected: Option<int>, showResults: bool, correct: int, i: int)
    requires selected.Some?
    ensures var c := ClassOf(Study, selected, showResults, correct, i);
      var k := IconOf(Study, selected, showResults, correct, i);
      && (c == Green <==> i == correct) && (k == Check <==> i == correct)
      && (c == Red <==> selected == Some(i) && i != correct) && (k == Cross <==> selected == Some(i) && i != correct)
      && (c == Gray <==> k == Circle)
  {
  }

  /** With nothing chosen every option has the open look, and no option is marked as chosen. */
  lemma NothingChosen(mode: Mode, showResults: bool, correct: int, i: int)
    ensures ClassOf(mode, None, showResults, correct, i) == Open
    ensures IconOf(mode, None, showResults, correct, i) != Dot
    ensures !showResults ==> IconOf(mode, None, showResults, correct, i) == Circle
  {
  }

  /** In an exam without results the choice is blue with a dot, the other options grey circles, and nothing reveals the correct one. */
  lemma ExamHidesCorrectness(selected: Option<int>, correct: int, other: int, i: int)
    requires selected.Some?
    ensures var c := ClassOf(Exam, selected, false, correct, i);
      var k := IconOf(Exam, selected, false, correct, i);
      && (c == Blue <==> selected == Some(i)) && (k == Dot <==> selected == Some(i))
      && (selected != Some(i) ==> c == Gray && k == Circle)
      && ClassOf(Exam, selected, false, correct, i) == ClassOf(Exam, selected, false, other, i)
  {
  }

  /**
   * With results shown in exam mode: a chosen option is green when right and
   * red when wrong, an unchosen correct option is green with a check.
   */
  lemma ExamResults(selected: Option<int>, correct: int, i: int)
    requires selected.Some?
    ensures var c := ClassOf(Exam, selected, true, correct, i);
      var k := IconOf(Exam, selected, true, correct, i);
      && (selected == Some(i) ==> (c == Green <==> i == correct) && (c == Red <==> i != correct))
      && (i == correct ==> c == Green && k == Check)
      && (selected != Some(i) && i != correct ==> c == Gray && k == Circle)
  {
  }

  /**
   * The class and the icon agree: green always carries a check, red a cross,
   * and blue a dot. The only disagreement is the open look, which carries a
   * check on the correct option when results are shown with nothing chosen.
   */
  lemma ClassAndIconAgree(mode: Mode, selected: Option<int>, showResults: bool, correct: int, i: int)
    ensures var c := ClassOf(mode, selected, showResults, correct, i);
      var k := IconOf(mode, selected, showResults, correct, i);
      && (c == Green ==> k == Check)
      && (c == Red ==> k == Cross)
      && (c == Blue <==> k == Dot)
      && (c == Gray ==> k == Circle)
      && (c == Open ==> (k == Check <==> showResults && i == correct))
  {
  }
}
