/** The `timeList` cases of the time-value test file: the default list, a
    custom step, a 24-hour label and the marking of the current time. */
module TimeListExamples {
  import opened Wrappers
  import opened Text
  import opened TimeValue
  import opened TimeList
  import TimeValueLemmas

  /** With no bounds and no start given, the list starts at midnight and no
      entry is disabled or carries a duration. */
  lemma Unbounded(o: ListOptions)
    requires Unset(o)
    ensures Start(o) == 0 && LowerBound(o) == 0 && UpperBound(o) == MinutesPerDay - 1
    ensures FromString(o.startTime, ModeAny) == Invalid
  {
    TimeValueLemmas.BlankIsInvalid("");
  }

  /** The options of `timeList()`, except perhaps the step, the marked time and
      the label format. */
  predicate Unset(o: ListOptions) {
    o.startTime == "" && o.minTime == "" && o.maxTime == ""
  }

  /** An unbounded list in steps of `step` minutes holds `count` entries, given
      that `count` steps reach the end of the day and one step fewer does not. */
  lemma UnboundedLength(o: ListOptions, count: nat)
    requires Unset(o) && o.step > 0 && count > 0
    requires (count - 1) * o.step < MinutesPerDay <= count * o.step
    ensures Generate(o).Ok? && |Generate(o).value| == count
  {
    Unbounded(o);
    GenerateShape(o);
    var n := |Generate(o).value|;
    ValueAt(o, n - 1);
    SameCount(n, count, o.step, Generate(o).value[n - 1].value);
  }

  /** Only one count of steps ends within the day while the next step leaves it. */
  lemma SameCount(n: nat, count: nat, step: int, last: int)
    requires n > 0 && count > 0 && step > 0
    requires last == (n - 1) * step < MinutesPerDay <= last + step
    requires (count - 1) * step < MinutesPerDay <= count * step
    ensures n == count
  {
    if n < count {
      MultiplyMonotone(n, count - 1, step);
    } else if n > count {
      MultiplyMonotone(count, n - 1, step);
    }
  }

  lemma Midnight()
    ensures ToFormattedString(Valid(0), Format12) == "12:00 AM"
    ensures ToString(Valid(0)) == "00:00"
  {
  }

  lemma QuarterToMidnight()
    ensures ToFormattedString(Valid(1425), Format12) == "11:45 PM"
    ensures ToString(Valid(1425)) == "23:45"
  {
    QuarterToMidnightLabel();
    QuarterToMidnightTime();
  }

  lemma QuarterToMidnightLabel()
    ensures ToFormattedString(Valid(1425), Format12) == "11:45 PM"
  {
    assert ClockHour12(23) == 11;
    assert NatToString(11) == "11" && NatToString(45) == "45";
  }

  lemma QuarterToMidnightTime()
    ensures ToString(Valid(1425)) == "23:45"
  {
    assert NatToString(23) == "23" && NatToString(45) == "45";
  }

  lemma TwelveFortyFive()
    ensures ToString(Valid(765)) == "12:45"
  {
    assert NatToString(12) == "12" && NatToString(45) == "45";
  }

  lemma TwelveOhThree()
    ensures ToString(Valid(723)) == "12:03"
  {
    assert NatToString(12) == "12" && NatToString(3) == "3";
  }

  /** A time in the day whose `HH:MM` string is `s` is what `s` reads as. */
  lemma ClockText(t: Time, s: string)
    requires InDay(t) && ToString(t) == s
    ensures FromString(s, ModeAny) == t
  {
    TimeValueLemmas.ToStringRoundTrip(t);
  }

  /** `timeList()` has 96 entries, one every 15 minutes. */
  lemma DefaultLength(o: ListOptions)
    requires Unset(o) && o.step == DefaultStep
    ensures Generate(o).Ok? && |Generate(o).value| == 96
    ensures forall i :: 0 <= i < 95 ==> Generate(o).value[i + 1].value == Generate(o).value[i].value + 15
  {
    UnboundedLength(o, 96);
    GenerateShape(o);
  }

  /** The first entry of `timeList()` is midnight, labelled `12:00 AM`. */
  lemma DefaultFirst(o: ListOptions)
    requires o == Defaults
    ensures Generate(o).Ok? && |Generate(o).value| > 0
    ensures Generate(o).value[0] == Entry("12:00 AM", "00:00", 0, "", None, false, false)
  {
    Unbounded(o);
    DefaultLength(o);
    GenerateShape(o);
    EntryMeaning(o, 0);
    Midnight();
  }

  /** The last entry of `timeList()` is 23:45, labelled `11:45 PM`. */
  lemma DefaultLast(o: ListOptions)
    requires o == Defaults
    ensures Generate(o).Ok? && |Generate(o).value| == 96
    ensures Generate(o).value[95] == Entry("11:45 PM", "23:45", 1425, "", None, false, false)
  {
    Unbounded(o);
    DefaultLength(o);
    GenerateShape(o);
    ValueAt(o, 95);
    EntryMeaning(o, 1425);
    QuarterToMidnight();
  }

  /** `timeList({step: 30})` has 48 entries, one every 30 minutes. */
  lemma HalfHourSteps(o: ListOptions)
    requires Unset(o) && o.step == 30
    ensures Generate(o).Ok? && |Generate(o).value| == 48
    ensures forall i :: 0 <= i < 47 ==> Generate(o).value[i + 1].value == Generate(o).value[i].value + 30
  {
    UnboundedLength(o, 48);
    GenerateShape(o);
  }

  /** With a 24-hour label (the `de` locale), the first label is `00:00`. */
  lemma TwentyFourHourLabel(o: ListOptions)
    requires Unset(o) && o.step == DefaultStep && o.labelFormat == Format24
    ensures Generate(o).Ok? && |Generate(o).value| > 0 && Generate(o).value[0].labelText == "00:00"
  {
    Unbounded(o);
    UnboundedLength(o, 96);
    GenerateShape(o);
    EntryMeaning(o, 0);
    Midnight();
  }

  /** `markCurrent: '12:45'` marks the entry for 12:45, and only that one. */
  lemma MarkCurrent(o: ListOptions)
    requires Unset(o) && o.step == DefaultStep && o.markCurrent == "12:45"
    ensures Generate(o).Ok? && |Generate(o).value| == 96
    ensures Generate(o).value[51].current && Generate(o).value[51].time == "12:45"
    ensures forall i :: 0 <= i < 96 && i != 51 ==> !Generate(o).value[i].current
  {
    Unbounded(o);
    UnboundedLength(o, 96);
    TwelveFortyFive();
    ClockText(Valid(765), "12:45");
    OnGrid(o, 51);
    ValueAt(o, 51);
    EntryMeaning(o, 765);
  }

  /** `markCurrent: '12:03'` lies between two entries: nothing is marked. */
  lemma MarkCurrentOffGrid(o: ListOptions)
    requires Unset(o) && o.step == DefaultStep && o.markCurrent == "12:03"
    ensures Generate(o).Ok?
    ensures forall i :: 0 <= i < |Generate(o).value| ==> !Generate(o).value[i].current
  {
    Unbounded(o);
    TwelveOhThree();
    ClockText(Valid(723), "12:03");
    OffGrid(o, 723, 48);
  }
}
