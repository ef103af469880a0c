/** What the `Time` model guarantees: the numeric views agree, invalid input
    collapses to one state, the grammar's separators, compact forms and
    meridiem markers mean what the picker promises, and every formatted value
    reads back as itself. */
module TimeValueLemmas {
  import opened Text
  import opened Wrappers
  import opened TimeValue

  // ---------------------------------------------------------------------
  // Construction

  /** `new Time(x)` keeps the number. For a non-negative number the hour and
      minute views split it; for a negative one the hour is below zero and
      the minute, JavaScript's remainder, is in -59..0 and congruent to it. */
  lemma ConstructFromMinutes(x: Num)
    ensures ValueOf(FromValue(x)) == x
    ensures x.NaN? ==> Hour(FromValue(x)) == NaN && Minute(FromValue(x)) == NaN
    ensures x.Int? && x.i >= 0 ==>
      && Hour(FromValue(x)).Int? && Minute(FromValue(x)).Int?
      && Hour(FromValue(x)).i * 60 + Minute(FromValue(x)).i == x.i
      && 0 <= Minute(FromValue(x)).i < 60
    ensures x.Int? && x.i < 0 ==>
      && Hour(FromValue(x)).Int? && Minute(FromValue(x)).Int?
      && Hour(FromValue(x)).i < 0
      && -60 < Minute(FromValue(x)).i <= 0
      && (x.i - Minute(FromValue(x)).i) % 60 == 0
  {
  }

  /** `fromHour(h, m)` with numeric parts and a minute 0..59 is `h*60+m`,
      whose hour view is `h`; its minute view is `m` for an hour from 0 on and
      `m - 60` (or 0) for a negative hour, which the constructor does not
      refuse. Anything else is the one invalid
      value `fromHour(NaN, NaN)`, whose every view is NaN. */
  lemma {:induction false} ConstructFromHour(h: Num, m: Num)
    ensures h.Int? && m.Int? && 0 <= m.i <= 59 ==>
      ValueOf(FromHour(h, m)) == Int(h.i * 60 + m.i) && Hour(FromHour(h, m)) == h
    ensures h.Int? && m.Int? && 0 <= m.i <= 59 && h.i >= 0 ==> Minute(FromHour(h, m)) == m
    ensures h.Int? && m.Int? && 0 <= m.i <= 59 && h.i < 0 ==>
      Minute(FromHour(h, m)) == Int(if m.i == 0 then 0 else m.i - 60)
    ensures !(h.Int? && m.Int? && 0 <= m.i <= 59) ==>
      FromHour(h, m) == FromHour(NaN, NaN)
      && ValueOf(FromHour(h, m)) == NaN && Hour(FromHour(h, m)) == NaN && Minute(FromHour(h, m)) == NaN
  {
    if h.Int? && m.Int? && 0 <= m.i <= 59 {
      var v := h.i * 60 + m.i;
      assert v / 60 == h.i && v % 60 == m.i by {
        assert v == 60 * h.i + m.i;
      }
      if h.i < 0 && m.i > 0 {
        assert -v == 60 * (-h.i - 1) + (60 - m.i);
        assert (-v) % 60 == 60 - m.i;
      } else if h.i < 0 {
        assert -v == 60 * (-h.i);
        assert (-v) % 60 == 0;
      }
    }
  }

  /** `duration` does not depend on the order of its operands, and is the
      non-negative distance between two valid times. */
  lemma DurationSymmetric(a: Time, b: Time)
    ensures Duration(a, b) == Duration(b, a)
    ensures Duration(a, b).Valid? <==> a.Valid? && b.Valid?
    ensures a.Valid? && b.Valid? && a.minutes <= b.minutes ==> Duration(a, b) == Valid(b.minutes - a.minutes)
  {
  }

  // ---------------------------------------------------------------------
  // Normalisation

  predicate IsBlank(s: string) {
    forall i :: 0 <= i < |s| ==> IsSpace(s[i])
  }

  /** No whitespace and no upper-case letter: normalisation keeps it as it is. */
  predicate IsClean(s: string) {
    forall i :: 0 <= i < |s| ==> !IsSpace(s[i]) && !IsUpper(s[i])
  }

  lemma {:induction false} NormalizeShift(a: string, b: string, j: nat)
    requires j <= |b|
    ensures NormalizeFrom(a + b, |a| + j) == NormalizeFrom(b, j)
    decreases |b| - j
  {
    if j < |b| {
      assert (a + b)[|a| + j] == b[j];
      NormalizeShift(a, b, j + 1);
    }
  }

  lemma {:induction false} NormalizeFromAppend(a: string, b: string, i: nat)
    requires i <= |a|
    ensures NormalizeFrom(a + b, i) == NormalizeFrom(a, i) + Normalize(b)
    decreases |a| - i
  {
    if i == |a| {
      NormalizeShift(a, b, 0);
    } else {
      assert (a + b)[i] == a[i];
      NormalizeFromAppend(a, b, i + 1);
      var piece := if IsSpace(a[i]) then [] else [Lower(a[i])];
      assert NormalizeFrom(a + b, i) == piece + NormalizeFrom(a + b, i + 1);
      assert NormalizeFrom(a, i) == piece + NormalizeFrom(a, i + 1);
      assert piece + (NormalizeFrom(a, i + 1) + Normalize(b)) == (piece + NormalizeFrom(a, i + 1)) + Normalize(b);
    }
  }

  /** Normalisation works character by character. */
  lemma NormalizeAppend(a: string, b: string)
    ensures Normalize(a + b) == Normalize(a) + Normalize(b)
  {
    NormalizeFromAppend(a, b, 0);
  }

  lemma {:induction false} NormalizeFromClean(s: string, i: nat)
    requires IsClean(s) && i <= |s|
    ensures NormalizeFrom(s, i) == s[i..]
    decreases |s| - i
  {
    if i < |s| {
      NormalizeFromClean(s, i + 1);
      assert s[i..] == [s[i]] + s[i + 1..];
    }
  }

  lemma NormalizeClean(s: string)
    requires IsClean(s)
    ensures Normalize(s) == s
  {
    NormalizeFromClean(s, 0);
  }

  lemma {:induction false} NormalizeFromBlank(s: string, i: nat)
    requires IsBlank(s) && i <= |s|
    ensures NormalizeFrom(s, i) == []
    decreases |s| - i
  {
    if i < |s| {
      NormalizeFromBlank(s, i + 1);
    }
  }

  lemma NormalizeBlank(s: string)
    requires IsBlank(s)
    ensures Normalize(s) == []
  {
    NormalizeFromBlank(s, 0);
  }

  lemma DigitsAreClean(s: string)
    requires AllDigits(s)
    ensures IsClean(s)
  {
    DigitsInMeans(s, 0, |s|);
  }

  // ---------------------------------------------------------------------
  // Meridiem markers

  /** The normalised spellings of the markers: 'AM', 'a. m.', 'A' and so on
      all normalise to one of these. */
  predicate IsMarker(mk: string) {
    mk == "a.m." || mk == "p.m." || mk == "am" || mk == "pm" || mk == "a" || mk == "p"
  }

  function MarkerMeridiem(mk: string): Meridiem
    requires IsMarker(mk)
  {
    if mk[0] == 'a' then AM else PM
  }

  /** A normalised marker, or nothing at all. */
  predicate IsMarkerOrEmpty(mk: string) {
    mk == [] || IsMarker(mk)
  }

  function MeridiemOf(mk: string): Meridiem
    requires IsMarkerOrEmpty(mk)
  {
    if mk == [] then NoMeridiem else MarkerMeridiem(mk)
  }

  lemma {:induction false} SuffixAgreesMeans(s: string, x: string, k: nat)
    requires k <= |s| && k <= |x|
    ensures SuffixAgrees(s, x, k) <==> s[|s| - k..] == x[|x| - k..]
  {
    if k > 0 {
      SuffixAgreesMeans(s, x, k - 1);
      assert s[|s| - k..] == [s[|s| - k]] + s[|s| - (k - 1)..];
      assert x[|x| - k..] == [x[|x| - k]] + x[|x| - (k - 1)..];
      if s[|s| - k..] == x[|x| - k..] {
        assert s[|s| - k..][0] == x[|x| - k..][0];
        assert s[|s| - k..][1..] == x[|x| - k..][1..];
      }
    }
  }

  /** `EndsWith` is the suffix relation. */
  lemma EndsWithMeans(s: string, x: string)
    ensures EndsWith(s, x) <==> |x| <= |s| && s[|s| - |x|..] == x
  {
    if |x| <= |s| {
      SuffixAgreesMeans(s, x, |x|);
      assert x[|x| - |x|..] == x;
    }
  }

  lemma EndsWithLast(s: string, x: string)
    requires EndsWith(s, x) && |x| > 0
    ensures s[|s| - 1] == x[|x| - 1]
  {
    EndsWithMeans(s, x);
    assert s[|s| - |x|..][|x| - 1] == s[|s| - 1];
  }

  /** A clock part that ends in a digit has no marker to split off. */
  lemma SplitAtDigit(c: string)
    requires |c| > 0 && IsDigit(c[|c| - 1])
    ensures SplitMeridiem(c) == (|c|, NoMeridiem)
  {
    if EndsWith(c, "a.m.") { EndsWithLast(c, "a.m."); }
    if EndsWith(c, "p.m.") { EndsWithLast(c, "p.m."); }
    if EndsWith(c, "am") { EndsWithLast(c, "am"); }
    if EndsWith(c, "pm") { EndsWithLast(c, "pm"); }
    if EndsWith(c, "a") { EndsWithLast(c, "a"); }
    if EndsWith(c, "p") { EndsWithLast(c, "p"); }
  }

  /** A marker after a clock part that ends in a digit is split off whole. */
  lemma SplitAtMarker(c: string, mk: string)
    requires |c| > 0 && IsDigit(c[|c| - 1]) && IsMarkerOrEmpty(mk)
    ensures SplitMeridiem(c + mk) == (|c|, MeridiemOf(mk))
  {
    var n := c + mk;
    if mk == [] {
      assert n == c;
      SplitAtDigit(c);
    } else {
      assert n[|c|..] == mk;
      EndsWithMeans(n, mk);
      if mk == "am" || mk == "pm" {
        if EndsWith(n, "a.m.") { EndsWithLast(n, "a.m."); }
        if EndsWith(n, "p.m.") { EndsWithLast(n, "p.m."); }
      } else if mk == "a" || mk == "p" {
        if EndsWith(n, "a.m.") { EndsWithLast(n, "a.m."); }
        if EndsWith(n, "p.m.") { EndsWithLast(n, "p.m."); }
        if EndsWith(n, "am") { EndsWithLast(n, "am"); }
        if EndsWith(n, "pm") { EndsWithLast(n, "pm"); }
        if mk == "p" && EndsWith(n, "a") { EndsWithLast(n, "a"); }
      }
    }
  }

  // ---------------------------------------------------------------------
  // The clock part

  /** One or two digits, a separator and two digits read as hour and minute. */
  lemma ClockWithSeparator(d: string, sep: char, m: string, rest: string, twelve: bool)
    requires 1 <= |d| <= 2 && AllDigits(d) && IsSeparator(sep) && |m| == 2 && AllDigits(m)
    ensures ParseClock(d + [sep] + m + rest, |d| + 3, twelve)
      == Some((ValueIn(d, 0, |d|), ValueIn(m, 0, 2)))
  {
    var n := d + [sep] + m + rest;
    ShortValues(d);
    ShortValues(m);
    assert forall j :: 0 <= j < |d| ==> n[j] == d[j];
    assert n[|d|] == sep && n[|d| + 1] == m[0] && n[|d| + 2] == m[1];
    DigitsInMeans(n, 0, |d| + 3);
  }

  /** A run of digits reads by the compact rule whatever follows it, and a run
      longer than four digits not at all. */
  lemma ClockCompact(c: string, rest: string, twelve: bool)
    requires 1 <= |c| && AllDigits(c)
    ensures ParseClock(c + rest, |c|, twelve) == if |c| <= 4 then Compact(c, |c|, twelve) else None
  {
    var n := c + rest;
    DigitsInMeans(c, 0, |c|);
    assert forall j :: 0 <= j < |c| ==> n[j] == c[j];
    DigitsInMeans(n, 0, |c|);
  }

  // ---------------------------------------------------------------------
  // The grammar

  /** `H:MM` and `HH:MM` in each grammar, with or without a meridiem marker:
      the 24-hour grammar takes hour 0..23 and minute 0..59 and refuses any
      marker; the 12-hour grammar takes hour 1..12, maps 12 AM to 0, adds 12
      for PM except to 12, and reads no marker as AM. */
  lemma ClockForm(d: string, sep: char, m: string, mk: string, mode: Mode)
    requires 1 <= |d| <= 2 && AllDigits(d) && IsSeparator(sep) && |m| == 2 && AllDigits(m)
    requires IsMarkerOrEmpty(mk)
    ensures var h, mm := ValueIn(d, 0, |d|), ValueIn(m, 0, 2);
      ParseNormalized(d + [sep] + m + mk, Mode24)
        == (if mk == [] && h <= 23 && mm <= 59 then Valid(h * 60 + mm) else Invalid)
      && ParseNormalized(d + [sep] + m + mk, Mode12)
        == (if 1 <= h <= 12 && mm <= 59
            then Valid((h % 12 + (if MeridiemOf(mk) == PM then 12 else 0)) * 60 + mm)
            else Invalid)
  {
    var n := d + [sep] + m + mk;
    var c := d + [sep] + m;
    assert n == c + mk;
    DigitsInMeans(m, 0, 2);
    assert c[|c| - 1] == m[1];
    SplitAtMarker(c, mk);
    ClockWithSeparator(d, sep, m, mk, false);
    ClockWithSeparator(d, sep, m, mk, true);
  }

  /** Compact digit runs in each grammar, with or without a marker. */
  lemma CompactForm(c: string, mk: string)
    requires 1 <= |c| <= 4 && AllDigits(c) && IsMarkerOrEmpty(mk)
    ensures ParseNormalized(c + mk, Mode24) == Read24(Compact(c, |c|, false), MeridiemOf(mk))
    ensures ParseNormalized(c + mk, Mode12) == Read12(Compact(c, |c|, true), MeridiemOf(mk))
  {
    DigitsInMeans(c, 0, |c|);
    SplitAtMarker(c, mk);
    ClockCompact(c, mk, false);
    ClockCompact(c, mk, true);
  }

  /** What the user types around the digits does not matter: leading,
      trailing and inner whitespace vanish, 'H' is 'h', and marker spellings
      normalise to one marker. */
  lemma {:induction false} SpacedClockText(w0: string, d: string, w1: string, sep: char, w2: string,
                                           m: string, w3: string, marker: string)
    requires IsBlank(w0) && IsBlank(w1) && IsBlank(w2) && IsBlank(w3)
    requires AllDigits(d) && AllDigits(m) && !IsSpace(sep)
    ensures Normalize(w0 + d + w1 + [sep] + w2 + m + w3 + marker)
      == d + [Lower(sep)] + m + Normalize(marker)
  {
    DigitsAreClean(d);
    DigitsAreClean(m);
    NormalizeAppend(w0 + d + w1 + [sep] + w2 + m + w3, marker);
    NormalizeAppend(w0 + d + w1 + [sep] + w2 + m, w3);
    NormalizeAppend(w0 + d + w1 + [sep] + w2, m);
    NormalizeAppend(w0 + d + w1 + [sep], w2);
    NormalizeAppend(w0 + d + w1, [sep]);
    NormalizeAppend(w0 + d, w1);
    NormalizeAppend(w0, d);
    NormalizeBlank(w0);
    NormalizeBlank(w1);
    NormalizeBlank(w2);
    NormalizeBlank(w3);
    NormalizeClean(d);
    NormalizeClean(m);
    assert NormalizeFrom([sep], 1) == [];
  }

  predicate IsSeparatorInput(c: char) {
    c == ':' || c == '.' || c == 'h' || c == 'H'
  }

  /** The separators ':', '.', 'h' and 'H', with optional whitespace around
      them and around the whole input, all mean the same in every grammar. */
  lemma SeparatorsEquivalent(w0: string, d: string, w1: string, sep: char, w2: string,
                             m: string, w3: string, mode: Mode)
    requires IsBlank(w0) && IsBlank(w1) && IsBlank(w2) && IsBlank(w3)
    requires 1 <= |d| <= 2 && AllDigits(d) && |m| == 2 && AllDigits(m) && IsSeparatorInput(sep)
    ensures FromString(w0 + d + w1 + [sep] + w2 + m + w3, mode) == FromString(d + ":" + m, mode)
  {
    var s := w0 + d + w1 + [sep] + w2 + m + w3;
    assert s == s + "";
    SpacedClockText(w0, d, w1, sep, w2, m, w3, "");
    assert d + ":" + m == "" + d + "" + [':'] + "" + m + "" + "";
    SpacedClockText("", d, "", ':', "", m, "", "");
    assert Normalize("") == [];
    assert d + [Lower(sep)] + m + [] == d + [Lower(sep)] + m + "";
    ClockForm(d, Lower(sep), m, "", mode);
    ClockForm(d, ':', m, "", mode);
  }

  /** In the 24-hour grammar `H:MM`/`HH:MM` is valid exactly for hour 0..23
      and minute 0..59, and then denotes `hour*60 + minute`. */
  lemma HourMinute24(d: string, m: string)
    requires 1 <= |d| <= 2 && AllDigits(d) && |m| == 2 && AllDigits(m)
    ensures var h, mm := ValueIn(d, 0, |d|), ValueIn(m, 0, 2);
      FromString(d + ":" + m, Mode24) == (if h <= 23 && mm <= 59 then Valid(h * 60 + mm) else Invalid)
  {
    SpacedClockText("", d, "", ':', "", m, "", "");
    assert d + ":" + m == "" + d + "" + [':'] + "" + m + "" + "";
    assert Normalize("") == [];
    assert d + [':'] + m + [] == d + [':'] + m + "";
    ClockForm(d, ':', m, "", Mode24);
  }

  /** `H:MM` or `HH:MM` followed by optional whitespace and a marker spelled
      in any of the accepted ways ('am', 'a.m.', 'a. m.', 'a', upper or lower
      case, and the same for pm). The 12-hour grammar maps 12 AM to 0:MM,
      12 PM to 12:MM and adds 12 to 1..11 PM; the 24-hour grammar refuses any
      marker. */
  lemma HourMinute12(d: string, m: string, w: string, marker: string)
    requires 1 <= |d| <= 2 && AllDigits(d) && |m| == 2 && AllDigits(m) && IsBlank(w)
    requires IsMarkerOrEmpty(Normalize(marker))
    ensures var h, mm, mer := ValueIn(d, 0, |d|), ValueIn(m, 0, 2), MeridiemOf(Normalize(marker));
      FromString(d + ":" + m + w + marker, Mode12)
      == (if 1 <= h <= 12 && mm <= 59 then Valid((h % 12 + (if mer == PM then 12 else 0)) * 60 + mm)
          else Invalid)
    ensures MeridiemOf(Normalize(marker)) != NoMeridiem ==> FromString(d + ":" + m + w + marker, Mode24) == Invalid
  {
    ClockText(d, m, w, marker);
    ReadsAs(d + ":" + m + w + marker, d + [':'] + m + Normalize(marker));
    ClockForm(d, ':', m, Normalize(marker), Mode12);
  }

  /** Normalisation of clock text followed by blanks and a marker. */
  lemma ClockText(d: string, m: string, w: string, marker: string)
    requires AllDigits(d) && AllDigits(m) && IsBlank(w)
    ensures Normalize(d + ":" + m + w + marker) == d + [':'] + m + Normalize(marker)
  {
    DigitsAreClean(d);
    DigitsAreClean(m);
    ClockIsClean(d, m);
    NormalizeAppend(d + ":" + m + w, marker);
    NormalizeAppend(d + ":" + m, w);
    NormalizeClean(d + ":" + m);
    NormalizeBlank(w);
  }

  lemma ClockIsClean(d: string, m: string)
    requires IsClean(d) && IsClean(m)
    ensures IsClean(d + ":" + m)
  {
    var c := d + ":" + m;
    forall i | 0 <= i < |c| ensures !IsSpace(c[i]) && !IsUpper(c[i]) {
      if i < |d| { assert c[i] == d[i]; }
      else if i > |d| { assert c[i] == m[i - |d| - 1]; }
    }
  }

  lemma ReadsAs(s: string, n: string)
    requires Normalize(s) == n
    ensures FromString(s, Mode24) == ParseNormalized(n, Mode24)
    ensures FromString(s, Mode12) == ParseNormalized(n, Mode12)
    ensures FromString(s, ModeAny) == ParseNormalized(n, ModeAny)
  {
  }

  /** With no marker, the 12-hour grammar reads a bare 12 as midnight and
      refuses hour 0 and hours above 12. */
  lemma NoMeridiem12(d: string, m: string)
    requires 1 <= |d| <= 2 && AllDigits(d) && |m| == 2 && AllDigits(m) && ValueIn(m, 0, 2) <= 59
    ensures ValueIn(d, 0, |d|) == 12 ==> FromString(d + ":" + m, Mode12) == Valid(ValueIn(m, 0, 2))
    ensures ValueIn(d, 0, |d|) == 0 || ValueIn(d, 0, |d|) > 12 ==> FromString(d + ":" + m, Mode12) == Invalid
  {
    var n := d + [':'] + m + [];
    ClockNormal(d, m);
    ReadsAs(d + ":" + m, n);
    ClockForm(d, ':', m, [], Mode12);
    var h, mm := ValueIn(d, 0, |d|), ValueIn(m, 0, 2);
    if h == 12 {
      assert MeridiemOf([]) != PM;
      assert ParseNormalized(n, Mode12) == Valid((12 % 12 + 0) * 60 + mm);
    }
  }

  lemma ClockNormal(d: string, m: string)
    requires AllDigits(d) && AllDigits(m)
    ensures Normalize(d + ":" + m) == d + [':'] + m + []
  {
    DigitsAreClean(d);
    DigitsAreClean(m);
    ClockIsClean(d, m);
    NormalizeClean(d + ":" + m);
    assert d + ":" + m == d + [':'] + m + [];
  }

  /** The compact forms: a run of 1-4 digits with optional whitespace around
      it reads, in the 24-hour grammar, as hour 'H'/'HH'; as 'H' and a single
      minute digit when two digits are no hour ('56' is 5:06); as 'H MM' with
      three digits and 'HH MM' with four. */
  lemma CompactDigits24(w0: string, c: string, w1: string)
    requires IsBlank(w0) && IsBlank(w1) && 1 <= |c| <= 4
    requires forall i :: 0 <= i < |c| ==> IsDigit(c[i])
    ensures var t := FromString(w0 + c + w1, Mode24);
      && (|c| == 1 ==> t == Valid(DigitValue(c[0]) * 60))
      && (|c| == 2 ==> var hh := TwoDigitValue(c[0], c[1]);
           t == if hh <= 23 then Valid(hh * 60) else Valid(DigitValue(c[0]) * 60 + DigitValue(c[1])))
      && (|c| == 3 ==> var mm := TwoDigitValue(c[1], c[2]);
           t == if mm <= 59 then Valid(DigitValue(c[0]) * 60 + mm) else Invalid)
      && (|c| == 4 ==> var hh, mm := TwoDigitValue(c[0], c[1]), TwoDigitValue(c[2], c[3]);
           t == if hh <= 23 && mm <= 59 then Valid(hh * 60 + mm) else Invalid)
  {
    DigitsInMeans(c, 0, |c|);
    DigitsAreClean(c);
    BlankAround(w0, c, w1);
    assert c + [] == c;
    CompactForm(c, []);
  }

  lemma BlankAround(w0: string, c: string, w1: string)
    requires IsBlank(w0) && IsBlank(w1) && IsClean(c)
    ensures Normalize(w0 + c + w1) == c
  {
    NormalizeAppend(w0 + c, w1);
    NormalizeAppend(w0, c);
    NormalizeBlank(w0);
    NormalizeBlank(w1);
    NormalizeClean(c);
  }

  /** A compact run followed by a marker, in the 12-hour grammar: the digits
      split as in the 24-hour grammar except that two digits are an hour only
      when they are 1..12 ('12p' is noon, '13 PM' is 1:03 PM), and the marker
      applies to the hour. */
  lemma CompactDigits12(c: string, w: string, marker: string)
    requires 1 <= |c| <= 4 && IsBlank(w) && IsMarkerOrEmpty(Normalize(marker))
    requires forall i :: 0 <= i < |c| ==> IsDigit(c[i])
    ensures var t := FromString(c + w + marker, Mode12);
      var pm := if MeridiemOf(Normalize(marker)) == PM then 12 else 0;
      && (|c| == 1 ==> var h := DigitValue(c[0]);
           t == if 1 <= h then Valid((h % 12 + pm) * 60) else Invalid)
      && (|c| == 2 ==> var hh, h, m := TwoDigitValue(c[0], c[1]), DigitValue(c[0]), DigitValue(c[1]);
           t == if 1 <= hh <= 12 then Valid((hh % 12 + pm) * 60)
                else if 1 <= h then Valid((h % 12 + pm) * 60 + m)
                else Invalid)
      && (|c| == 3 ==> var h, mm := DigitValue(c[0]), TwoDigitValue(c[1], c[2]);
           t == if 1 <= h && mm <= 59 then Valid((h % 12 + pm) * 60 + mm) else Invalid)
      && (|c| == 4 ==> var hh, mm := TwoDigitValue(c[0], c[1]), TwoDigitValue(c[2], c[3]);
           t == if 1 <= hh <= 12 && mm <= 59 then Valid((hh % 12 + pm) * 60 + mm) else Invalid)
    ensures MeridiemOf(Normalize(marker)) != NoMeridiem ==> FromString(c + w + marker, Mode24) == Invalid
  {
    DigitsInMeans(c, 0, |c|);
    CompactText(c, w, marker);
    CompactForm(c, Normalize(marker));
    CompactHour12(c, MeridiemOf(Normalize(marker)));
  }

  /** Normalising a compact run, blanks and a marker keeps the run and the
      marker's normal form. */
  lemma CompactText(c: string, w: string, marker: string)
    requires AllDigits(c) && IsBlank(w)
    ensures Normalize(c + w + marker) == c + Normalize(marker)
  {
    DigitsAreClean(c);
    NormalizeAppend(c + w, marker);
    NormalizeAppend(c, w);
    NormalizeBlank(w);
    NormalizeClean(c);
  }

  /** The 12-hour reading of a compact run, digit by digit. */
  lemma CompactHour12(c: string, mer: Meridiem)
    requires 1 <= |c| <= 4 && AllDigits(c)
    ensures DigitsIn(c, 0, |c|)
    ensures var t := Read12(Compact(c, |c|, true), mer);
      var pm := if mer == PM then 12 else 0;
      && (|c| == 1 ==> var h := DigitValue(c[0]);
           t == if 1 <= h then Valid((h % 12 + pm) * 60) else Invalid)
      && (|c| == 2 ==> var hh, h, m := TwoDigitValue(c[0], c[1]), DigitValue(c[0]), DigitValue(c[1]);
           t == if 1 <= hh <= 12 then Valid((hh % 12 + pm) * 60)
                else if 1 <= h then Valid((h % 12 + pm) * 60 + m)
                else Invalid)
      && (|c| == 3 ==> var h, mm := DigitValue(c[0]), TwoDigitValue(c[1], c[2]);
           t == if 1 <= h && mm <= 59 then Valid((h % 12 + pm) * 60 + mm) else Invalid)
      && (|c| == 4 ==> var hh, mm := TwoDigitValue(c[0], c[1]), TwoDigitValue(c[2], c[3]);
           t == if 1 <= hh <= 12 && mm <= 59 then Valid((hh % 12 + pm) * 60 + mm) else Invalid)
  {
    DigitsInMeans(c, 0, |c|);
  }

  /** Input whose first non-blank character is no digit (or that is blank)
      is invalid in every grammar: '', 'am', 'lunch time', '-1:00', '{}'. */
  lemma NoLeadingDigit(w: string, c: char, rest: string)
    requires IsBlank(w) && !IsSpace(c) && !IsDigit(c)
    ensures FromString(w + [c] + rest, Mode24) == Invalid
    ensures FromString(w + [c] + rest, Mode12) == Invalid
    ensures FromString(w + [c] + rest, ModeAny) == Invalid
  {
    NormalizeAppend(w + [c], rest);
    NormalizeAppend(w, [c]);
    NormalizeBlank(w);
    assert NormalizeFrom([c], 1) == [];
    var n := Normalize(w + [c] + rest);
    assert n[0] == Lower(c);
    var (end, mer) := SplitMeridiem(n);
    if end > 0 {
      DigitsInMeans(n, 0, end);
    }
  }

  lemma BlankIsInvalid(w: string)
    requires IsBlank(w)
    ensures FromString(w, Mode24) == Invalid && FromString(w, Mode12) == Invalid
      && FromString(w, ModeAny) == Invalid
  {
    NormalizeBlank(w);
  }

  // ---------------------------------------------------------------------
  // Round trips

  lemma TwoDigits(n: nat)
    requires n < 100
    ensures var r := PadStart2(NatToString(n)); |r| == 2 && AllDigits(r) && ValueIn(r, 0, 2) == n
  {
    PaddedDigits(n);
  }

  /** `toString()` of a time of day reads back as that time, in the 24-hour
      grammar and in `any`. */
  lemma ToStringRoundTrip(t: Time)
    requires InDay(t)
    ensures FromString(ToString(t), Mode24) == t
    ensures FromString(ToString(t), ModeAny) == t
  {
    var v := t.minutes;
    var h, m := v / 60, v % 60;
    var hs, ms := PadStart2(NatToString(h)), PadStart2(NatToString(m));
    TwoDigits(h);
    TwoDigits(m);
    assert ToString(t) == hs + ":" + ms;
    HourMinute24(hs, ms);
  }

  /** `toFormattedString('12h')` of a time of day reads back as that time, in
      the 12-hour grammar and in `any`. */
  lemma Formatted12RoundTrip(t: Time)
    requires InDay(t)
    ensures FromString(ToFormattedString(t, Format12), Mode12) == t
    ensures FromString(ToFormattedString(t, Format12), ModeAny) == t
  {
    var v := t.minutes;
    var h, m := v / 60, v % 60;
    assert 0 <= h < 24 && h % 24 == h;
    assert ToFormattedString(t, Format12) == Text12(ClockHour12(h), m, h >= 12);
    assert v == h * 60 + m;
    Text12Reads(ClockHour12(h), m, h >= 12);
    ClockHourBack(h);
  }

  /** The 12-hour clock hour and the half of the day give back the hour. */
  lemma ClockHourBack(h: int)
    requires 0 <= h < 24
    ensures ClockHour12(h) % 12 + (if h >= 12 then 12 else 0) == h
  {
  }

  /** The text `H:MM AM` / `H:MM PM` the 12-hour formatter builds. */
  function Text12(hour: nat, m: nat, pm: bool): string {
    NatToString(hour) + ":" + PadStart2(NatToString(m)) + " " + (if pm then "PM" else "AM")
  }

  lemma Text12Reads(hour: nat, m: nat, pm: bool)
    requires 1 <= hour <= 12 && m < 60
    ensures FromString(Text12(hour, m, pm), Mode12) == Valid((hour % 12 + (if pm then 12 else 0)) * 60 + m)
    ensures FromString(Text12(hour, m, pm), Mode24) == Invalid
  {
    var marker := if pm then "PM" else "AM";
    TwoDigits(m);
    assert IsBlank(" ");
    if pm {
      assert Normalize("PM") == "pm";
    } else {
      assert Normalize("AM") == "am";
    }
    HourMinute12(NatToString(hour), PadStart2(NatToString(m)), " ", marker);
  }

  /** The sentinel text of an invalid value reads as invalid again. */
  lemma InvalidTextIsInvalid()
    ensures FromString(InvalidText, Mode24) == Invalid
    ensures FromString(InvalidText, Mode12) == Invalid
    ensures FromString(InvalidText, ModeAny) == Invalid
  {
    assert InvalidText == "" + ['I'] + "nvalid time";
    NoLeadingDigit("", 'I', "nvalid time");
  }

  /** Every formatted value reads back, in `any`, as the value it came from;
      this holds for every parse result, valid or not. */
  lemma FormattedRoundTrip(t: Time, format: Format)
    requires InDay(t) || t.Invalid?
    ensures FromString(ToFormattedString(t, format), ModeAny) == t
  {
    if t.Invalid? {
      InvalidTextIsInvalid();
    } else if format == Format24 {
      ToStringRoundTrip(t);
    } else {
      Formatted12RoundTrip(t);
    }
  }

  /** The short string of a time of day, read in the 24-hour grammar, gives
      back the same number of minutes. */
  lemma ShortStringRoundTrip(t: Time)
    requires InDay(t)
    ensures FromString(ToShortString(t), Mode24) == t
  {
    var v := t.minutes;
    var h, m := v / 60, v % 60;
    TwoDigits(m);
    assert ToShortString(t) == NatToString(h) + ":" + PadStart2(NatToString(m));
    HourMinute24(NatToString(h), PadStart2(NatToString(m)));
  }

  /** `toDurationString()`: a whole number of hours `N` is `Nh`, `N` and a
      half is `N.5h`, and any other time of day is its short `H:MM` string,
      which reads back as the same minutes. */
  lemma DurationStringMeaning(t: Time)
    requires InDay(t)
    ensures t.minutes % 60 == 0 ==> ToDurationString(t) == NatToString(t.minutes / 60) + "h"
    ensures t.minutes % 60 == 30 ==> ToDurationString(t) == NatToString(t.minutes / 60) + ".5h"
    ensures t.minutes % 30 != 0 ==> FromString(ToDurationString(t), Mode24) == t
  {
    var v := t.minutes;
    assert IntToString(v / 60) == NatToString(v / 60);
    if v % 30 != 0 {
      assert ToDurationString(t) == ToShortString(t);
      ShortStringRoundTrip(t);
    }
  }
}
