/** The time-of-day value of the time pickers (`Time` in `time_value.js`):
    minutes since midnight, or an invalid state that plays the role of the
    source's NaN. Construction, the lenient `fromString` grammar, the
    formatters and `duration`. */
module TimeValue {
  import opened Text
  import opened Wrappers

  /** A JavaScript number as the constructors see it: an integer, or NaN.
      A non-numeric argument (`'bogus'`, `{}`) coerces to NaN. */
  datatype Num = Int(i: int) | NaN

  /** `Valid(m)`: `m` minutes since midnight; `Invalid`: value, hour and minute are NaN. */
  datatype Time = Valid(minutes: int) | Invalid

  /** The grammar `fromString` accepts. */
  datatype Mode = Mode24 | Mode12 | ModeAny

  /** The explicit formats of `toFormattedString` and of the pickers' labels. */
  datatype Format = Format24 | Format12

  datatype Meridiem = NoMeridiem | AM | PM

  const MinutesPerDay: nat := 1440

  /** What every formatter of an invalid value yields. */
  const InvalidText: string := "Invalid time"

  predicate InDay(t: Time) {
    t.Valid? && 0 <= t.minutes < MinutesPerDay
  }

  // ---------------------------------------------------------------------
  // Construction and the numeric views

  /** `new Time(x)`. */
  function FromValue(x: Num): Time {
    match x
    case Int(i) => Valid(i)
    case NaN => Invalid
  }

  /** `Time.fromHour(h, m)`: valid exactly when both are numbers and the minute is 0..59. */
  function FromHour(h: Num, m: Num): Time {
    if h.Int? && m.Int? && 0 <= m.i <= 59 then Valid(h.i * 60 + m.i) else Invalid
  }

  /** `t.value`, and also what `valueOf` (numeric coercion) gives. */
  function ValueOf(t: Time): Num {
    match t
    case Valid(v) => Int(v)
    case Invalid => NaN
  }

  /** `t.hour`: `Math.floor(value / 60)`; Dafny's division by a positive
      divisor floors as well. */
  function Hour(t: Time): Num {
    match t
    case Valid(v) => Int(v / 60)
    case Invalid => NaN
  }

  /** `t.minute`: `value % 60` with JavaScript's remainder, which takes the
      sign of the dividend (`-1 % 60` is -1). */
  function Minute(t: Time): Num {
    match t
    case Valid(v) => Int(if v >= 0 then v % 60 else -((-v) % 60))
    case Invalid => NaN
  }

  // ---------------------------------------------------------------------
  // Formatting

  /** `String(n)` of a JavaScript number. */
  function NumToString(x: Num): string {
    match x
    case Int(i) => IntToString(i)
    case NaN => "NaN"
  }

  /** `'' + t`: the `+` operator coerces through `valueOf` first. */
  function CoerceToString(t: Time): string {
    NumToString(ValueOf(t))
  }

  /** `t.toString()`: zero-padded `HH:MM`. */
  function ToString(t: Time): string {
    match t
    case Invalid => InvalidText
    case Valid(v) => PadStart2(IntToString(v / 60)) + ":" + PadStart2(NatToString(v % 60))
  }

  /** The hour as a 12-hour clock shows it (12 for midnight and noon). */
  function ClockHour12(h: int): (r: nat)
    ensures 1 <= r <= 12
  {
    if h % 12 == 0 then 12 else h % 12
  }

  /** `t.toFormattedString(format)`: `HH:MM`, or `H:MM AM` / `H:MM PM`. */
  function ToFormattedString(t: Time, format: Format): string {
    match format
    case Format24 => ToString(t)
    case Format12 =>
      match t
      case Invalid => InvalidText
      case Valid(v) =>
        NatToString(ClockHour12(v / 60)) + ":" + PadStart2(NatToString(v % 60))
        + (if (v / 60) % 24 < 12 then " AM" else " PM")
  }

  /** `t.toShortString()`: `H:MM` with an unpadded hour. */
  function ToShortString(t: Time): string {
    match t
    case Invalid => InvalidText
    case Valid(v) => IntToString(v / 60) + ":" + PadStart2(NatToString(v % 60))
  }

  /** `t.toDurationString()`: whole hours as `Nh`, half hours as `N.5h`,
      anything else as the short string. */
  function ToDurationString(t: Time): string {
    match t
    case Invalid => InvalidText
    case Valid(v) =>
      if v % 60 == 0 then IntToString(v / 60) + "h"
      else if v % 60 == 30 then IntToString(v / 60) + ".5h"
      else ToShortString(t)
  }

  /** `a.duration(b)`: the distance between two times, the same in both directions. */
  function Duration(a: Time, b: Time): Time {
    if a.Valid? && b.Valid? then
      Valid(if b.minutes >= a.minutes then b.minutes - a.minutes else a.minutes - b.minutes)
    else Invalid
  }

  // ---------------------------------------------------------------------
  // Parsing

  /** The input with every whitespace character dropped and A-Z lower-cased,
      from position `i` on. */
  function NormalizeFrom(s: string, i: nat): (r: string)
    requires i <= |s|
    decreases |s| - i
  {
    if i == |s| then []
    else (if IsSpace(s[i]) then [] else [Lower(s[i])]) + NormalizeFrom(s, i + 1)
  }

  function Normalize(s: string): string {
    NormalizeFrom(s, 0)
  }

  /** The last `k` characters of `s` and of `x` agree. */
  predicate SuffixAgrees(s: string, x: string, k: nat)
    requires k <= |s| && k <= |x|
  {
    k == 0 || (s[|s| - k] == x[|x| - k] && SuffixAgrees(s, x, k - 1))
  }

  predicate EndsWith(s: string, x: string) {
    |x| <= |s| && SuffixAgrees(s, x, |x|)
  }

  /** Finds one meridiem marker at the end of a normalised input; the clock
      part is what comes before it, `n[..end]`. */
  function SplitMeridiem(n: string): (r: (nat, Meridiem))
    ensures r.0 <= |n|
    ensures r.1 == NoMeridiem <==> r.0 == |n|
  {
    if EndsWith(n, "a.m.") then (|n| - 4, AM)
    else if EndsWith(n, "p.m.") then (|n| - 4, PM)
    else if EndsWith(n, "am") then (|n| - 2, AM)
    else if EndsWith(n, "pm") then (|n| - 2, PM)
    else if EndsWith(n, "a") then (|n| - 1, AM)
    else if EndsWith(n, "p") then (|n| - 1, PM)
    else (|n|, NoMeridiem)
  }

  predicate IsSeparator(c: char) {
    c == ':' || c == '.' || c == 'h'
  }

  /** Whether a bare number is read as an hour in the given grammar. */
  predicate HourFits(h: nat, twelve: bool) {
    if twelve then 1 <= h <= 12 else h <= 23
  }

  /** A run of 1-4 digits without separator, `n[..end]`: one or two digits
      are the hour, except that two digits that are no hour of the grammar are
      an hour and a one-digit minute ('56' is 5:06); three digits are H MM and
      four HH MM. */
  function Compact(n: string, end: nat, twelve: bool): Option<(nat, nat)>
    requires 1 <= end <= 4 && end <= |n| && DigitsIn(n, 0, end)
  {
    DigitsInMeans(n, 0, end);
    if end == 1 then Some((DigitValue(n[0]), 0))
    else if end == 2 then
      if HourFits(TwoDigitValue(n[0], n[1]), twelve) then Some((TwoDigitValue(n[0], n[1]), 0))
      else Some((DigitValue(n[0]), DigitValue(n[1])))
    else if end == 3 then Some((DigitValue(n[0]), TwoDigitValue(n[1], n[2])))
    else Some((TwoDigitValue(n[0], n[1]), TwoDigitValue(n[2], n[3])))
  }

  /** The clock part `n[..end]`: a compact run of 1-4 digits, or one or two
      digits, a separator and exactly two digits. */
  function ParseClock(n: string, end: nat, twelve: bool): Option<(nat, nat)>
    requires end <= |n|
  {
    if 1 <= end <= 4 && DigitsIn(n, 0, end) then Compact(n, end, twelve)
    else if end == 4 && IsDigit(n[0]) && IsSeparator(n[1]) && IsDigit(n[2]) && IsDigit(n[3]) then
      Some((DigitValue(n[0]), TwoDigitValue(n[2], n[3])))
    else if end == 5 && IsDigit(n[0]) && IsDigit(n[1]) && IsSeparator(n[2]) && IsDigit(n[3]) && IsDigit(n[4]) then
      Some((TwoDigitValue(n[0], n[1]), TwoDigitValue(n[3], n[4])))
    else None
  }

  /** The 24-hour reading of a clock part and its marker: no marker, hour
      0..23, minute 0..59. */
  function Read24(clock: Option<(nat, nat)>, mer: Meridiem): (t: Time)
    ensures t.Valid? ==> InDay(t)
  {
    match clock
    case None => Invalid
    case Some((h, m)) => if mer == NoMeridiem && h <= 23 && m <= 59 then Valid(h * 60 + m) else Invalid
  }

  /** The 12-hour reading: hour 1..12, minute 0..59; 12 AM is midnight, PM
      adds twelve hours except to 12, and no marker reads as AM. */
  function Read12(clock: Option<(nat, nat)>, mer: Meridiem): (t: Time)
    ensures t.Valid? ==> InDay(t)
  {
    match clock
    case None => Invalid
    case Some((h, m)) =>
      if 1 <= h <= 12 && m <= 59 then Valid((h % 12 + (if mer == PM then 12 else 0)) * 60 + m)
      else Invalid
  }

  /** The 24-hour grammar on a normalised input. */
  function Parse24(n: string): (t: Time)
    ensures t.Valid? ==> InDay(t)
  {
    var (end, mer) := SplitMeridiem(n);
    Read24(ParseClock(n, end, false), mer)
  }

  /** The 12-hour grammar on a normalised input. */
  function Parse12(n: string): (t: Time)
    ensures t.Valid? ==> InDay(t)
  {
    var (end, mer) := SplitMeridiem(n);
    Read12(ParseClock(n, end, true), mer)
  }

  /** `any` tries the 24-hour grammar first and falls back to the 12-hour one. */
  function ParseNormalized(n: string, mode: Mode): (t: Time)
    ensures t.Valid? ==> InDay(t)
  {
    match mode
    case Mode24 => Parse24(n)
    case Mode12 => Parse12(n)
    case ModeAny => if Parse24(n).Valid? then Parse24(n) else Parse12(n)
  }

  /** `Time.fromString(s, mode)`; the mode defaults to `any`. */
  function FromString(s: string, mode: Mode): (t: Time)
    ensures t.Valid? ==> InDay(t)
  {
    ParseNormalized(Normalize(s), mode)
  }
}
