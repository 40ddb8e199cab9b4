/**
 * The countdown shown during a timed run: hidden without a running timer,
 * `m:ss` text, a colour that turns orange in the last five minutes and red
 * in the last one, and an alert icon in the last minute.
 */
module TimerDisplay {
  import opened Wrappers
  import opened JsText
  import opened QuizTypes
  import QuizHook

  /** The component renders nothing without a remaining time or while inactive. */
  predicate Visible(timeRemaining: Option<int>, isActive: bool) {
    timeRemaining.Some? && isActive
  }

  /**
   * `formatTime(seconds)`: `Math.floor(seconds / 60)`, a colon, and
   * `seconds % 60` padded to two digits.
   */
  function FormatTime(seconds: int): string {
    IntToString(seconds / 60) + ":" + PadStart2(IntToString(JsRem(seconds, 60)))
  }

  datatype TimerColor = Red | Orange | Blue

  function Color(timeRemaining: int): TimerColor {
    if timeRemaining <= 60 then Red else if timeRemaining <= 300 then Orange else Blue
  }

  datatype TimerIcon = Alert | Clock

  function Icon(timeRemaining: int): TimerIcon {
    if timeRemaining <= 60 then Alert else Clock
  }

  /** How far a colour is from the calm one. */
  function Urgency(c: TimerColor): nat {
    match c
    case Blue => 0
    case Orange => 1
    case Red => 2
  }

  /** Less time left never looks calmer; the alert icon goes with red and only with red. */
  lemma ColorMonotone(t: int, u: int)
    requires t <= u
    ensures Urgency(Color(t)) >= Urgency(Color(u))
    ensures Icon(t) == Alert <==> Color(t) == Red
    ensures Color(t) == Red <==> t <= 60
    ensures Color(t) == Orange <==> 60 < t <= 300
  {
  }

  lemma NatToStringWithoutColon(n: nat)
    ensures forall i :: 0 <= i < |NatToString(n)| ==> NatToString(n)[i] != ':'
  {
    var s := NatToString(n);
    assert AllDigits(s);
  }

  /** The two digits of the padded seconds read back as the seconds. */
  lemma PaddedSecondsReadBack(r: nat)
    requires r < 60
    ensures |PadStart2(IntToString(r))| == 2
    ensures AllDigits(PadStart2(IntToString(r)))
    ensures ParseInt(PadStart2(IntToString(r))) == Some(r)
  {
    if r < 10 {
      OneDigitPadded(r);
    } else {
      var s := IntToString(r);
      assert NatToString(r / 10) == [DigitChar(r / 10)];
      assert s == NatToString(r / 10) + [DigitChar(r % 10)];
      ParseIntOfIntToString(r);
    }
  }

  lemma OneDigitPadded(r: nat)
    requires r < 10
    ensures PadStart2(IntToString(r)) == ['0', DigitChar(r)]
    ensures ParseInt(['0', DigitChar(r)]) == Some(r)
  {
    var p := ['0', DigitChar(r)];
    DigitRoundTrip(r);
    assert p[..1] == ['0'];
    assert ['0'][..0] == [];
    assert DigitsValue(['0']) == 0;
    assert DigitsValue(p) == r;
    LeadingDigitsOfDigits(p);
    assert SkipWhitespace(p) == p;
  }

  /**
   * The text reads back as the time it shows: for `s >= 0` seconds it splits
   * at its one colon into the minutes and exactly two digits of seconds, whose
   * values recombine to `s`.
   */
  lemma FormatTimeReadsBack(s: int)
    requires s >= 0
    ensures var parts := Split(FormatTime(s), ':');
      && |parts| == 2
      && ParseInt(parts[0]) == Some(s / 60)
      && |parts[1]| == 2
      && ParseInt(parts[1]) == Some(s % 60)
      && 60 * (s / 60) + s % 60 == s
  {
    var minutes := s / 60;
    var seconds := s % 60;
    var m := IntToString(minutes);
    var r := PadStart2(IntToString(seconds));
    FormatTimeParts(s);
    PaddedSecondsReadBack(seconds);
    SplitAtSeparator(m, r, ':');
    ParseIntOfIntToString(minutes);
  }

  lemma DigitsWithoutColon(t: string)
    requires AllDigits(t)
    ensures forall i :: 0 <= i < |t| ==> t[i] != ':'
  {
  }

  /** For `s >= 0` the text is colon-free minutes, a colon, and the padded seconds. */
  lemma FormatTimeParts(s: int)
    requires s >= 0
    ensures FormatTime(s) == IntToString(s / 60) + [':'] + PadStart2(IntToString(s % 60))
    ensures forall i :: 0 <= i < |IntToString(s / 60)| ==> IntToString(s / 60)[i] != ':'
    ensures forall i :: 0 <= i < |PadStart2(IntToString(s % 60))| ==> PadStart2(IntToString(s % 60))[i] != ':'
  {
    var minutes: nat := s / 60;
    var seconds: nat := s % 60;
    var m := IntToString(minutes);
    var r := PadStart2(IntToString(seconds));
    assert JsRem(s, 60) == seconds;
    assert m == NatToString(minutes);
    DigitsWithoutColon(m);
    PaddedSecondsReadBack(seconds);
    DigitsWithoutColon(r);
    assert FormatTime(s) == m + [':'] + r;
  }

  /** A worked case: ninety-five seconds shows as `1:35`, five as `0:05`. */
  lemma FormatTimeExamples()
    ensures FormatTime(95) == "1:35"
    ensures FormatTime(5) == "0:05"
  {
    assert NatToString(35) == "35";
  }

  /** In a session the countdown is on screen exactly while the timer runs. */
  lemma VisibleIffTimerActive(s: QuizState)
    requires QuizHook.WellFormed(s)
    ensures Visible(s.timeRemaining, s.isTimerActive) <==> s.isTimerActive
  {
  }
}
