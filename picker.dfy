/** The logic the time pickers share (`shared.js`): the duration suffix of an
    option, the options of the drop-down, the repair of the text on blur, and
    the text box's state, which follows both the user's typing and the
    `value` prop. */
module Picker {
  import opened Text
  import opened Wrappers
  import opened TimeValue
  import opened TimeList
  import TimeValueLemmas

  /** `formatDuration(duration)`: under an hour a count of minutes, a whole or
      half number of hours as hours (kept as a count of half hours, so that
      1.5 hours is exact), any other duration as its short `H:MM` string. */
  datatype DurationLabel = Minutes(count: int) | Hours(halfHours: int) | Short(text: string)

  function FormatDuration(d: Time): DurationLabel {
    match d
    case Invalid => Short(ToShortString(d))
    case Valid(m) =>
      if m < 60 then Minutes(m)
      else if m % 30 == 0 then Hours(m / 30)
      else Short(ToShortString(d))
  }

  /** The English text of a duration label, as the plural-aware translation
      renders it: singular only for exactly one minute or one hour. */
  function DurationText(l: DurationLabel): string {
    match l
    case Minutes(n) => IntToString(n) + (if n == 1 then " min" else " mins")
    case Hours(h) =>
      (if h % 2 == 0 then IntToString(h / 2) else IntToString(h / 2) + ".5")
      + (if h == 2 then " hr" else " hrs")
    case Short(s) => s
  }

  /** One `<li>` of the drop-down: its `key`, `data-time` and `data-value`
      attributes, `aria-disabled`, the visible label and the optional
      duration shown after it. */
  datatype OptionItem = OptionItem(
    key: string,
    dataTime: string,
    dataValue: string,
    ariaDisabled: bool,
    labelText: string,
    suffix: Option<DurationLabel>)

  function ToOption(e: Entry): OptionItem {
    OptionItem(e.time, e.time, e.labelText, e.disabled, e.labelText,
               if e.duration.Some? then Some(FormatDuration(e.duration.value)) else None)
  }

  function PickerOptions(currentValue: string, startTime: string, step: int,
                         minTime: string, maxTime: string, timeFormat: Format): ListOptions {
    ListOptions(currentValue, startTime, step, minTime, maxTime, timeFormat)
  }

  /** `getOptions(currentValue, startTime, step, minTime, maxTime, timeFormat)`. */
  function GetOptions(currentValue: string, startTime: string, step: int,
                      minTime: string, maxTime: string, timeFormat: Format): Result<seq<OptionItem>, string> {
    var o := PickerOptions(currentValue, startTime, step, minTime, maxTime, timeFormat);
    match Generate(o)
    case Err(e) => Err(e)
    case Ok(l) => Ok(seq(|l|, i requires 0 <= i < |l| => ToOption(l[i])))
  }

  /** What `useHandleBlur` leaves in the box: the input read in the default
      grammar and formatted in the picker's format, or nothing. */
  function BlurFix(text: string, fmt: Format): string {
    var t := FromString(text, ModeAny);
    if t.Invalid? then "" else ToFormattedString(t, fmt)
  }

  /** The initial text of `useInputValue`: empty for an empty `value`, and
      otherwise the prop read as a 24-hour time and formatted. */
  function InitialInput(value: string, fmt: Format): string {
    if value == "" then "" else ToFormattedString(FromString(value, Mode24), fmt)
  }

  /** The comparison of the syncing effect: the prop read in the 24-hour
      grammar and the box read in the default grammar denote the same value
      (`Object.is`, under which NaN equals NaN). */
  predicate InSync(value: string, input: string) {
    ValueOf(FromString(value, Mode24)) == ValueOf(FromString(input, ModeAny))
  }

  /** What `handleChange` reports through `onChange`: the `HH:MM` string of a
      valid reading, or the empty string. */
  function ChangeValue(text: string): string {
    var t := FromString(text, ModeAny);
    if t.Valid? then ToString(t) else ""
  }

  /** The screen-reader notice: none, "time cleared", or "formatted as ...". */
  datatype Notice = NoNotice | TimeCleared | TimeFormatted(text: string)

  /** The notice a blur that changed the box to `fixed` announces. */
  function BlurNotice(fixed: string): Notice {
    if fixed == "" then TimeCleared else TimeFormatted(fixed)
  }

  /** The state of one picker's text box: its text and the pending notice. */
  class TimeInput {
    var inputValue: string
    var notice: Notice

    /** `useInputValue(value, ...)` and `useNotice()` on the first render. */
    constructor (value: string, fmt: Format)
      ensures inputValue == InitialInput(value, fmt) && notice == NoNotice
      ensures InSync(value, inputValue)
    {
      inputValue := InitialInput(value, fmt);
      notice := NoNotice;
      new;
      InitialInSync(value, fmt);
    }

    /** `useHandleBlur`: a text already in its repaired form stays as it is
        and announces nothing; otherwise the box takes the repaired text and
        announces it, or announces that the time was cleared. */
    method HandleBlur(fmt: Format)
      modifies this
      ensures var fixed := BlurFix(old(inputValue), fmt);
        if fixed == old(inputValue) then inputValue == old(inputValue) && notice == old(notice)
        else inputValue == fixed && notice == BlurNotice(fixed)
      ensures FromString(inputValue, ModeAny) == FromString(old(inputValue), ModeAny)
      ensures ChangeValue(inputValue) == ChangeValue(old(inputValue))
    {
      var fixed := BlurFix(inputValue, fmt);
      BlurFixMeaning(inputValue, fmt);
      if fixed == inputValue {
        return;
      }
      inputValue := fixed;
      if fixed == "" {
        notice := TimeCleared;
      } else {
        notice := TimeFormatted(fixed);
      }
    }

    /** The effect of `useInputValue` on a new `value` or format: the box is
        reset to the formatted prop only when the two disagree, and they
        agree afterwards. */
    method SyncFromProp(value: string, fmt: Format)
      modifies this
      ensures inputValue == if InSync(value, old(inputValue)) then old(inputValue)
                            else ToFormattedString(FromString(value, Mode24), fmt)
      ensures notice == old(notice)
      ensures InSync(value, inputValue)
    {
      var propTime := FromString(value, Mode24);
      var internalTime := FromString(inputValue, ModeAny);
      if ValueOf(propTime) != ValueOf(internalTime) {
        inputValue := ToFormattedString(propTime, fmt);
        TimeValueLemmas.FormattedRoundTrip(propTime, fmt);
      }
    }

    /** `handleChange`: the box takes the typed text as it is, and the value
        reported to the parent is returned. */
    method HandleChange(text: string) returns (emitted: string)
      modifies this
      ensures inputValue == text && notice == old(notice)
      ensures emitted == ChangeValue(text)
    {
      inputValue := text;
      var newTime := FromString(text, ModeAny);
      emitted := if newTime.Valid? then ToString(newTime) else "";
    }

    /** The timer of `useNotice`: a notice is cleared after it was shown. */
    method ExpireNotice()
      modifies this
      ensures notice == NoNotice && inputValue == old(inputValue)
    {
      notice := NoNotice;
    }
  }

  // ---------------------------------------------------------------------
  // Properties

  /** The duration label never misstates the duration: minutes are the exact
      count below an hour, hours are exact whole or half hours from one hour
      on, and the short form reads back as the same time. An invalid duration
      shows the invalid text. */
  lemma FormatDurationMeaning(d: Time)
    requires InDay(d) || d.Invalid?
    ensures d.Invalid? ==> FormatDuration(d) == Short(InvalidText)
    ensures d.Valid? && FormatDuration(d).Minutes? ==> FormatDuration(d).count == d.minutes < 60
    ensures d.Valid? && FormatDuration(d).Hours? ==>
      FormatDuration(d).halfHours * 30 == d.minutes && d.minutes >= 60
    ensures d.Valid? && FormatDuration(d).Short? ==>
      d.minutes >= 60 && d.minutes % 30 != 0 && FromString(FormatDuration(d).text, Mode24) == d
  {
    if d.Valid? && d.minutes >= 60 && d.minutes % 30 != 0 {
      TimeValueLemmas.ShortStringRoundTrip(d);
    }
  }

  lemma DurationTextExamples()
    ensures DurationText(FormatDuration(Valid(1))) == "1 min"
    ensures DurationText(FormatDuration(Valid(45))) == "45 mins"
    ensures DurationText(FormatDuration(Valid(60))) == "1 hr"
    ensures DurationText(FormatDuration(Valid(90))) == "1.5 hrs"
    ensures DurationText(FormatDuration(Valid(75))) == "1:15"
  {
    MinuteLabels();
    HourLabels();
    ShortLabel();
  }

  lemma MinuteLabels()
    ensures DurationText(FormatDuration(Valid(1))) == "1 min"
    ensures DurationText(FormatDuration(Valid(45))) == "45 mins"
  {
    assert NatToString(45) == "45";
  }

  lemma HourLabels()
    ensures DurationText(FormatDuration(Valid(60))) == "1 hr"
    ensures DurationText(FormatDuration(Valid(90))) == "1.5 hrs"
  {
    assert FormatDuration(Valid(60)) == Hours(2) && FormatDuration(Valid(90)) == Hours(3);
  }

  lemma ShortLabel()
    ensures DurationText(FormatDuration(Valid(75))) == "1:15"
  {
    assert FormatDuration(Valid(75)) == Short(ToShortString(Valid(75)));
    assert NatToString(15) == "15";
  }

  /** The options are the entries of the list, one each: the key and
      `data-time` are the entry's `HH:MM` string, which reads back as its
      time; `data-value` and the label are its label; `aria-disabled` is set
      exactly outside the bounds; and a duration is shown exactly when a start
      time is given and the entry is not the start, as the label of the time
      since the start. */
  lemma GetOptionsMeaning(currentValue: string, startTime: string, step: int,
                          minTime: string, maxTime: string, timeFormat: Format, i: nat)
    requires GetOptions(currentValue, startTime, step, minTime, maxTime, timeFormat).Ok?
    requires i < |GetOptions(currentValue, startTime, step, minTime, maxTime, timeFormat).value|
    ensures var o := PickerOptions(currentValue, startTime, step, minTime, maxTime, timeFormat);
      var r := GetOptions(currentValue, startTime, step, minTime, maxTime, timeFormat).value;
      && Generate(o).Ok? && |r| == |Generate(o).value|
      && var v := Generate(o).value[i].value;
      && r[i].key == r[i].dataTime == ToString(Valid(v))
      && FromString(r[i].key, Mode24) == Valid(v)
      && r[i].dataValue == r[i].labelText == ToFormattedString(Valid(v), timeFormat)
      && (r[i].ariaDisabled <==> v < LowerBound(o) || v > UpperBound(o))
      && (r[i].suffix.Some? <==> FromString(startTime, ModeAny).Valid? && v != Start(o))
      && (r[i].suffix.Some? ==> r[i].suffix.value == FormatDuration(Valid(v - Start(o))))
  {
    var o := PickerOptions(currentValue, startTime, step, minTime, maxTime, timeFormat);
    GenerateShape(o);
    var v := Generate(o).value[i].value;
    EntryMeaning(o, v);
    TimeValueLemmas.ToStringRoundTrip(Valid(v));
  }

  /** React keys are unique: no two options share a key. */
  lemma KeysAreUnique(currentValue: string, startTime: string, step: int,
                      minTime: string, maxTime: string, timeFormat: Format, i: nat, j: nat)
    requires GetOptions(currentValue, startTime, step, minTime, maxTime, timeFormat).Ok?
    requires i < j < |GetOptions(currentValue, startTime, step, minTime, maxTime, timeFormat).value|
    ensures GetOptions(currentValue, startTime, step, minTime, maxTime, timeFormat).value[i].key
         != GetOptions(currentValue, startTime, step, minTime, maxTime, timeFormat).value[j].key
  {
    var o := PickerOptions(currentValue, startTime, step, minTime, maxTime, timeFormat);
    GetOptionsMeaning(currentValue, startTime, step, minTime, maxTime, timeFormat, i);
    GetOptionsMeaning(currentValue, startTime, step, minTime, maxTime, timeFormat, j);
    Ascending(o, i, j);
  }

  /** Repairing on blur keeps the time the text denotes, empties the box
      exactly when it denotes none, and is idempotent: a second blur changes
      nothing and announces nothing. */
  lemma BlurFixMeaning(text: string, fmt: Format)
    ensures FromString(BlurFix(text, fmt), ModeAny) == FromString(text, ModeAny)
    ensures BlurFix(text, fmt) == "" <==> FromString(text, ModeAny).Invalid?
    ensures BlurFix(BlurFix(text, fmt), fmt) == BlurFix(text, fmt)
    ensures ChangeValue(BlurFix(text, fmt)) == ChangeValue(text)
  {
    var t := FromString(text, ModeAny);
    TimeValueLemmas.BlankIsInvalid("");
    if t.Valid? {
      TimeValueLemmas.FormattedRoundTrip(t, fmt);
      FormattedIsNotEmpty(t, fmt);
    }
  }

  lemma FormattedIsNotEmpty(t: Time, fmt: Format)
    ensures ToFormattedString(t, fmt) != ""
  {
  }

  /** The initial text agrees with the prop, so the first run of the syncing
      effect leaves it alone. */
  lemma InitialInSync(value: string, fmt: Format)
    ensures InSync(value, InitialInput(value, fmt))
  {
    TimeValueLemmas.BlankIsInvalid("");
    TimeValueLemmas.FormattedRoundTrip(FromString(value, Mode24), fmt);
  }

  /** What `handleChange` reports is empty, or the `HH:MM` string of the
      typed time, which the 24-hour grammar reads back as that time. */
  lemma ChangeValueMeaning(text: string)
    ensures ChangeValue(text) == "" <==> FromString(text, ModeAny).Invalid?
    ensures FromString(ChangeValue(text), Mode24) == FromString(text, ModeAny)
  {
    TimeValueLemmas.BlankIsInvalid("");
    var t := FromString(text, ModeAny);
    if t.Valid? {
      TimeValueLemmas.ToStringRoundTrip(t);
      FormattedIsNotEmpty(t, Format24);
    }
  }

  /** A parent that passes the reported value back as the prop does not
      disturb what the user is typing: the box is in sync with it. */
  lemma EchoInSync(text: string)
    ensures InSync(ChangeValue(text), text)
  {
    ChangeValueMeaning(text);
  }

  /** Typing, then the parent echoing the reported value, leaves the typed
      text in the box. */
  method TypeAndEcho(box: TimeInput, text: string, fmt: Format) returns (emitted: string)
    modifies box
    ensures box.inputValue == text && emitted == ChangeValue(text)
  {
    emitted := box.HandleChange(text);
    EchoInSync(text);
    box.SyncFromProp(emitted, fmt);
  }
}
