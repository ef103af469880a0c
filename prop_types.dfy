/** The `timeString` prop-type validator of the time pickers and its
    `isRequired` variant. */
module PropTypes {
  import opened Text
  import opened TimeValue
  import TimeValueLemmas
  import Picker

  /** A prop as the validator sees it. A prop that is absent from `props`
      reads as `undefined`. */
  datatype PropValue = Undefined | Null | Str(s: string)

  /** A validator's verdict: nothing, or an `Error` with its message. */
  datatype Check = Passed | Failed(message: string)

  function Lookup(props: map<string, PropValue>, propName: string): PropValue {
    if propName in props then props[propName] else Undefined
  }

  /** `!value` for the values modelled here. */
  predicate Falsy(v: PropValue) {
    v == Undefined || v == Null || v == Str("")
  }

  /** String interpolation of a prop value. */
  function Render(v: PropValue): string {
    match v
    case Undefined => "undefined"
    case Null => "null"
    case Str(s) => s
  }

  predicate InRange(c: char, lo: char, hi: char) { lo <= c <= hi }

  /** `TIME_PATTERN.test(s)` for `/^(?:[01]?\d|2[0-3]):[0-5]\d$/`: one hour
      digit, or two hour digits `0x`, `1x` or `20`-`23`; a colon; a minute
      `00`-`59`; nothing else. */
  predicate MatchesTimePattern(s: string) {
    if |s| == 4 then
      IsDigit(s[0]) && s[1] == ':' && InRange(s[2], '0', '5') && IsDigit(s[3])
    else if |s| == 5 then
      ((InRange(s[0], '0', '1') && IsDigit(s[1])) || (s[0] == '2' && InRange(s[1], '0', '3')))
      && s[2] == ':' && InRange(s[3], '0', '5') && IsDigit(s[4])
    else false
  }

  function InvalidMessage(propName: string, componentName: string, value: string): string {
    "Invalid prop `" + propName + "` supplied to `" + componentName
    + "`. Expected format 'H:MM' or 'HH:MM'. Got '" + value + "'."
  }

  function RequiredMessage(propName: string, componentName: string, value: string): string {
    "The prop `" + propName + "` is marked as required in `" + componentName
    + "`, but its value is `" + value + "`."
  }

  /** `timeString(props, propName, componentName)`. */
  function TimeString(props: map<string, PropValue>, propName: string, componentName: string): Check {
    var value := Lookup(props, propName);
    if Falsy(value) then Passed
    else if !MatchesTimePattern(Render(value)) then Failed(InvalidMessage(propName, componentName, Render(value)))
    else Passed
  }

  /** `timeString.isRequired(props, propName, componentName)`. */
  function TimeStringRequired(props: map<string, PropValue>, propName: string, componentName: string): Check {
    var value := Lookup(props, propName);
    if Falsy(value) then Failed(RequiredMessage(propName, componentName, Render(value)))
    else TimeString(props, propName, componentName)
  }

  // ---------------------------------------------------------------------

  /** An `H:MM` or `HH:MM` clock: one or two hour digits denoting at most 23,
      a colon, and two minute digits denoting at most 59. */
  predicate IsClock(s: string) {
    && (|s| == 4 || |s| == 5)
    && s[|s| - 3] == ':'
    && AllDigits(s[..|s| - 3]) && AllDigits(s[|s| - 2..])
    && ValueIn(s[..|s| - 3], 0, |s| - 3) <= 23
    && ValueIn(s[|s| - 2..], 0, 2) <= 59
  }

  /** The pattern accepts exactly the clocks with a valid hour and minute. */
  lemma PatternMeaning(s: string)
    ensures MatchesTimePattern(s) <==> IsClock(s)
  {
    if |s| == 4 || |s| == 5 {
      var d, m := s[..|s| - 3], s[|s| - 2..];
      DigitsInMeans(d, 0, |d|);
      DigitsInMeans(m, 0, 2);
      if AllDigits(d) && AllDigits(m) {
        ShortValues(d);
        ShortValues(m);
      }
    }
  }

  /** An accepted prop is read, in the 24-hour and the default grammar, as
      the time its hour and minute denote. */
  lemma PatternReads(s: string)
    requires MatchesTimePattern(s)
    ensures var d, m := s[..|s| - 3], s[|s| - 2..];
      && AllDigits(d) && AllDigits(m)
      && FromString(s, Mode24) == Valid(ValueIn(d, 0, |d|) * 60 + ValueIn(m, 0, 2))
      && FromString(s, ModeAny) == FromString(s, Mode24)
  {
    PatternMeaning(s);
    var d, m := s[..|s| - 3], s[|s| - 2..];
    assert s == d + ":" + m;
    TimeValueLemmas.HourMinute24(d, m);
  }

  /** The validator passes exactly the absent, empty and clock-shaped props,
      and names the prop, the component and the value when it fails. */
  lemma TimeStringMeaning(props: map<string, PropValue>, propName: string, componentName: string)
    ensures var v := Lookup(props, propName);
      && (TimeString(props, propName, componentName) == Passed <==> Falsy(v) || IsClock(Render(v)))
      && (TimeString(props, propName, componentName).Failed? ==>
            TimeString(props, propName, componentName).message == InvalidMessage(propName, componentName, Render(v)))
  {
    PatternMeaning(Render(Lookup(props, propName)));
  }

  /** The required variant fails on every falsy prop, saying so, and agrees
      with the plain validator on every other. */
  lemma RequiredMeaning(props: map<string, PropValue>, propName: string, componentName: string)
    ensures var v := Lookup(props, propName);
      && (Falsy(v) ==> TimeStringRequired(props, propName, componentName)
                       == Failed(RequiredMessage(propName, componentName, Render(v))))
      && (!Falsy(v) ==> TimeStringRequired(props, propName, componentName) == TimeString(props, propName, componentName))
      && (TimeStringRequired(props, propName, componentName) == Passed <==> !Falsy(v) && IsClock(Render(v)))
  {
    TimeStringMeaning(props, propName, componentName);
  }

  /** The `HH:MM` string of every time of day passes the pattern. */
  lemma ToStringMatches(t: Time)
    requires InDay(t)
    ensures MatchesTimePattern(ToString(t))
  {
    var h, m := t.minutes / 60, t.minutes % 60;
    TimeValueLemmas.TwoDigits(h);
    TimeValueLemmas.TwoDigits(m);
    var s := ToString(t);
    assert s == PadStart2(NatToString(h)) + ":" + PadStart2(NatToString(m));
    PatternMeaning(s);
    assert s[..2] == PadStart2(NatToString(h));
    assert s[3..] == PadStart2(NatToString(m));
  }

  /** Every value the pickers report through `onChange` is a valid
      `timeString` prop, so passing it back as `value` never warns. */
  lemma ReportedValuesPass(text: string, propName: string, componentName: string)
    ensures TimeString(map[propName := Str(Picker.ChangeValue(text))], propName, componentName) == Passed
  {
    var t := FromString(text, ModeAny);
    if t.Valid? {
      ToStringMatches(t);
    }
  }

  lemma AcceptedExamples()
    ensures MatchesTimePattern("0:00") && MatchesTimePattern("7:05")
    ensures MatchesTimePattern("09:30") && MatchesTimePattern("23:59")
  {
  }

  lemma RejectedExamples()
    ensures !MatchesTimePattern("24:00") && !MatchesTimePattern("12:60")
    ensures !MatchesTimePattern("7:5") && !MatchesTimePattern("123:00")
    ensures !MatchesTimePattern("7:05pm") && !MatchesTimePattern("07.05")
  {
  }

  lemma InvalidExample()
    ensures TimeString(map["value" := Str("25:00")], "value", "TimePicker")
      == Failed(InvalidMessage("value", "TimePicker", "25:00"))
  {
    assert Lookup(map["value" := Str("25:00")], "value") == Str("25:00");
    assert !MatchesTimePattern("25:00");
  }

  lemma RequiredExample()
    ensures TimeStringRequired(map[], "value", "TimePicker")
      == Failed(RequiredMessage("value", "TimePicker", "undefined"))
  {
  }
}
