/** `timeList(options)`: the times of day a picker offers, from a start time
    in steps to the end of the day, each with its labels and flags. */
module TimeList {
  import opened Wrappers
  import opened TimeValue

  /** One option of the list (`label` in the source). `duration` is absent
      (the source's `''`) when there is no reference time or the entry is the
      reference itself. */
  datatype Entry = Entry(
    labelText: string,
    time: string,
    value: int,
    durationLabel: string,
    duration: Option<Time>,
    current: bool,
    disabled: bool)

  /** The options of `timeList`; an empty string stands for an option that is
      not given. */
  datatype ListOptions = ListOptions(
    markCurrent: string,
    startTime: string,
    step: int,
    minTime: string,
    maxTime: string,
    labelFormat: Format)

  const DefaultStep: int := 15

  /** `timeList()`: no marking, no bounds, the whole day in 15-minute steps,
      labelled as an `en-US` host renders them. */
  const Defaults: ListOptions := ListOptions("", "", DefaultStep, "", "", Format12)

  /** A time option read in the default grammar, or `dflt` when it is not
      given or does not parse. */
  function MinutesOr(s: string, dflt: int): (r: int)
    ensures FromString(s, ModeAny).Valid? ==> r == FromString(s, ModeAny).minutes
    ensures FromString(s, ModeAny).Invalid? ==> r == dflt
  {
    var t := FromString(s, ModeAny);
    if t.Valid? then t.minutes else dflt
  }

  function Start(o: ListOptions): int {
    MinutesOr(o.startTime, 0)
  }

  function LowerBound(o: ListOptions): int {
    MinutesOr(o.minTime, 0)
  }

  function UpperBound(o: ListOptions): int {
    MinutesOr(o.maxTime, MinutesPerDay - 1)
  }

  /** The entry for `v` minutes since midnight. */
  function MakeEntry(o: ListOptions, v: int): Entry {
    var t := Valid(v);
    var reference := FromString(o.startTime, ModeAny);
    var duration := if reference.Valid? && reference.minutes != v then Some(Duration(reference, t)) else None;
    Entry(
      ToFormattedString(t, o.labelFormat),
      ToString(t),
      v,
      if duration.Some? then ToDurationString(duration.value) else "",
      duration,
      FromString(o.markCurrent, ModeAny) == t,
      v < LowerBound(o) || v > UpperBound(o))
  }

  /** The minutes of the list: from `v` in steps of `step` while still within the day. */
  function Grid(v: int, step: int): seq<int>
    requires step > 0
    decreases MinutesPerDay - v
  {
    if v >= MinutesPerDay then [] else [v] + Grid(v + step, step)
  }

  /** `timeList(options)`; a step that is not positive is refused rather than
      looping forever. */
  function Generate(o: ListOptions): Result<seq<Entry>, string> {
    if o.step <= 0 then Err("step must be a positive number of minutes")
    else
      var g := Grid(Start(o), o.step);
      Ok(seq(|g|, i requires 0 <= i < |g| => MakeEntry(o, g[i])))
  }

  // ---------------------------------------------------------------------

  /** The grid starts at `v` when `v` is within the day, climbs by `step`,
      stays within the day, and stops at the last step before its end. */
  lemma {:induction false} GridShape(v: int, step: int)
    requires step > 0
    ensures var g := Grid(v, step);
      && (|g| == 0 <==> v >= MinutesPerDay)
      && (|g| > 0 ==> g[0] == v && g[|g| - 1] + step >= MinutesPerDay)
      && (forall i :: 0 <= i < |g| ==> v <= g[i] < MinutesPerDay)
      && (forall i :: 0 <= i < |g| - 1 ==> g[i + 1] == g[i] + step)
    decreases MinutesPerDay - v
  {
    if v < MinutesPerDay {
      GridShape(v + step, step);
      var g := Grid(v, step);
      assert forall i :: 1 <= i < |g| ==> g[i] == Grid(v + step, step)[i - 1];
    }
  }

  /** Generating fails exactly for a step that is not positive. Otherwise the
      list starts at the start time (when it lies within the day), each entry
      is one step after the previous, every entry lies within the day, the
      last one is the last step before the day ends, and each entry is the
      one `MakeEntry` describes for its own time. */
  lemma GenerateShape(o: ListOptions)
    ensures Generate(o).Err? <==> o.step <= 0
    ensures Generate(o).Ok? ==>
      var l := Generate(o).value;
      && (|l| == 0 <==> Start(o) >= MinutesPerDay)
      && (|l| > 0 ==> l[0].value == Start(o) && l[|l| - 1].value + o.step >= MinutesPerDay)
      && (forall i :: 0 <= i < |l| ==> Start(o) <= l[i].value < MinutesPerDay && l[i] == MakeEntry(o, l[i].value))
      && (forall i :: 0 <= i < |l| - 1 ==> l[i + 1].value == l[i].value + o.step)
  {
    if o.step > 0 {
      GridShape(Start(o), o.step);
    }
  }

  /** The entry for a time `v`: its value, its `HH:MM` string and its label in
      the asked format; current exactly when `markCurrent` parses to it;
      disabled exactly when outside `[minTime, maxTime]`; and a duration, the
      minutes from the start time, exactly when a start time is given and `v`
      is not the start itself. */
  lemma EntryMeaning(o: ListOptions, v: int)
    requires v >= Start(o)
    ensures var e := MakeEntry(o, v);
      && e.value == v
      && e.time == ToString(Valid(v))
      && e.labelText == ToFormattedString(Valid(v), o.labelFormat)
      && (e.current <==> FromString(o.markCurrent, ModeAny) == Valid(v))
      && (e.disabled <==> v < LowerBound(o) || v > UpperBound(o))
      && (e.duration.Some? <==> FromString(o.startTime, ModeAny).Valid? && v != Start(o))
      && (e.duration.Some? ==>
            e.duration.value == Valid(v - Start(o))
            && e.durationLabel == ToDurationString(Valid(v - Start(o))))
      && (e.duration.None? ==> e.durationLabel == "")
  {
  }
  /** Entry `i` is the time `i` steps after the start. */
  lemma {:induction false} ValueAt(o: ListOptions, i: nat)
    requires Generate(o).Ok? && i < |Generate(o).value|
    ensures Generate(o).value[i].value == Start(o) + i * o.step
  {
    GenerateShape(o);
    if i > 0 {
      ValueAt(o, i - 1);
      assert Start(o) + (i - 1) * o.step + o.step == Start(o) + i * o.step;
    }
  }

  /** The values strictly ascend, so no two entries describe the same time. */
  lemma {:induction false} Ascending(o: ListOptions, i: nat, j: nat)
    requires Generate(o).Ok? && i < j < |Generate(o).value|
    ensures Generate(o).value[i].value < Generate(o).value[j].value
    decreases j - i
  {
    GenerateShape(o);
    if i + 1 < j {
      Ascending(o, i + 1, j);
    }
  }

  /** At most one entry is current. */
  lemma CurrentIsUnique(o: ListOptions, i: nat, j: nat)
    requires Generate(o).Ok? && i < |Generate(o).value| && j < |Generate(o).value|
    requires Generate(o).value[i].current && Generate(o).value[j].current
    ensures i == j
  {
    var l := Generate(o).value;
    GenerateShape(o);
    EntryMeaning(o, l[i].value);
    EntryMeaning(o, l[j].value);
    if i < j {
      Ascending(o, i, j);
    } else if j < i {
      Ascending(o, j, i);
    }
  }
  lemma MultiplyMonotone(a: nat, b: nat, c: nat)
    requires a <= b
    ensures a * c <= b * c
  {
  }

  /** A marked time strictly between the `k`-th and the next step after the start marks nothing. */
  lemma OffGrid(o: ListOptions, m: int, k: nat)
    requires Generate(o).Ok? && FromString(o.markCurrent, ModeAny) == Valid(m)
    requires Start(o) + k * o.step < m < Start(o) + (k + 1) * o.step
    ensures forall i :: 0 <= i < |Generate(o).value| ==> !Generate(o).value[i].current
  {
    GenerateShape(o);
    forall i | 0 <= i < |Generate(o).value|
      ensures !Generate(o).value[i].current
    {
      ValueAt(o, i);
      NotAStep(Start(o), o.step, i, k, m);
      EntryMeaning(o, Generate(o).value[i].value);
    }
  }

  lemma NotAStep(start: int, step: int, i: nat, k: nat, m: int)
    requires step > 0 && start + k * step < m < start + (k + 1) * step
    ensures start + i * step != m
  {
    if i <= k {
      MultiplyMonotone(i, k, step);
    } else {
      MultiplyMonotone(k + 1, i, step);
    }
  }

  /** A marked time `k` steps after the start marks entry `k`, and no other. */
  lemma OnGrid(o: ListOptions, k: nat)
    requires Generate(o).Ok? && k < |Generate(o).value|
    requires FromString(o.markCurrent, ModeAny) == Valid(Start(o) + k * o.step)
    ensures Generate(o).value[k].current
    ensures forall i :: 0 <= i < |Generate(o).value| && i != k ==> !Generate(o).value[i].current
  {
    GenerateShape(o);
    ValueAt(o, k);
    EntryMeaning(o, Generate(o).value[k].value);
    forall i | 0 <= i < |Generate(o).value| && i != k
      ensures !Generate(o).value[i].current
    {
      if Generate(o).value[i].current {
        CurrentIsUnique(o, i, k);
      }
    }
  }
}
