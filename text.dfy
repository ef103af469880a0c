/** Character and decimal-number helpers shared by the time-value model, the
    prop validator and the HTTP API model. They stand for the host language's
    built-ins: `String(n)` on an integer, `padStart(2, '0')`, ASCII lower-casing
    and the regular-expression classes `\d`, `\s` and `\w`. */
module Text {

  predicate IsDigit(c: char) { '0' <= c <= '9' }

  /** `\s` restricted to ASCII whitespace. */
  predicate IsSpace(c: char) {
    c == ' ' || c == '\t' || c == '\n' || c == '\r' || c == '\U{000B}' || c == '\U{000C}'
  }

  /** `\w` of a byte string: ASCII letters, digits and the underscore. */
  predicate IsWordChar(c: char) {
    IsDigit(c) || ('a' <= c <= 'z') || ('A' <= c <= 'Z') || c == '_'
  }

  predicate IsUpper(c: char) { 'A' <= c <= 'Z' }

  /** ASCII lower-casing of one character; every other character is kept. */
  function Lower(c: char): (r: char)
    ensures !IsUpper(r)
    ensures !IsUpper(c) ==> r == c
    ensures IsDigit(r) <==> IsDigit(c)
  {
    if IsUpper(c) then (c as int + 32) as char else c
  }

  /** `s.lower()` of a byte string. */
  function LowerString(s: string): (r: string)
    ensures |r| == |s|
    ensures forall i :: 0 <= i < |s| ==> r[i] == Lower(s[i])
  {
    if s == [] then [] else [Lower(s[0])] + LowerString(s[1..])
  }

  function DigitValue(c: char): (d: nat)
    requires IsDigit(c)
    ensures d < 10
  {
    (c as int) - ('0' as int)
  }

  /** The number two decimal digits denote. */
  function TwoDigitValue(a: char, b: char): (v: nat)
    requires IsDigit(a) && IsDigit(b)
    ensures v < 100
  {
    10 * DigitValue(a) + DigitValue(b)
  }

  function DigitChar(d: nat): (c: char)
    requires d < 10
    ensures IsDigit(c) && DigitValue(c) == d
  {
    (('0' as int) + d) as char
  }

  /** `s[lo..hi]` consists of decimal digits. */
  predicate DigitsIn(s: string, lo: nat, hi: nat)
    requires lo <= hi <= |s|
    decreases hi - lo
  {
    lo == hi || (IsDigit(s[hi - 1]) && DigitsIn(s, lo, hi - 1))
  }

  /** The number the digits `s[lo..hi]` denote, most significant first. */
  function ValueIn(s: string, lo: nat, hi: nat): nat
    requires lo <= hi <= |s| && DigitsIn(s, lo, hi)
    decreases hi - lo
  {
    if lo == hi then 0 else 10 * ValueIn(s, lo, hi - 1) + DigitValue(s[hi - 1])
  }

  predicate AllDigits(s: string) {
    DigitsIn(s, 0, |s|)
  }

  lemma {:induction false} DigitsInMeans(s: string, lo: nat, hi: nat)
    requires lo <= hi <= |s|
    ensures DigitsIn(s, lo, hi) <==> forall i :: lo <= i < hi ==> IsDigit(s[i])
    decreases hi - lo
  {
    if lo < hi {
      DigitsInMeans(s, lo, hi - 1);
    }
  }

  /** One or two digits denote what their digit values say. */
  lemma ShortValues(s: string)
    requires 1 <= |s| <= 2 && AllDigits(s)
    ensures |s| == 1 ==> IsDigit(s[0]) && ValueIn(s, 0, 1) == DigitValue(s[0])
    ensures |s| == 2 ==> IsDigit(s[0]) && IsDigit(s[1]) && ValueIn(s, 0, 2) == TwoDigitValue(s[0], s[1])
  {
    DigitsInMeans(s, 0, |s|);
  }

  /** Digits, and their value, do not depend on what surrounds them. */
  lemma {:induction false} ValueInShift(a: string, b: string, lo: nat, hi: nat)
    requires lo <= hi <= |b| && DigitsIn(b, lo, hi)
    ensures DigitsIn(a + b, |a| + lo, |a| + hi)
    ensures ValueIn(a + b, |a| + lo, |a| + hi) == ValueIn(b, lo, hi)
    decreases hi - lo
  {
    if lo < hi {
      ValueInShift(a, b, lo, hi - 1);
      assert (a + b)[|a| + hi - 1] == b[hi - 1];
    }
  }

  lemma {:induction false} ValueInPrefix(a: string, b: string, lo: nat, hi: nat)
    requires lo <= hi <= |a| && DigitsIn(a, lo, hi)
    ensures DigitsIn(a + b, lo, hi)
    ensures ValueIn(a + b, lo, hi) == ValueIn(a, lo, hi)
    decreases hi - lo
  {
    if lo < hi {
      ValueInPrefix(a, b, lo, hi - 1);
      assert (a + b)[hi - 1] == a[hi - 1];
    }
  }

  /** `String(n)` for a non-negative integer: shortest decimal, no leading zero. */
  function NatToString(n: nat): (r: string)
    ensures 1 <= |r| && AllDigits(r) && ValueIn(r, 0, |r|) == n
    ensures n < 10 <==> |r| == 1
    ensures 10 <= n < 100 <==> |r| == 2
    ensures |r| == 1 || r[0] != '0'
  {
    if n < 10 then [DigitChar(n)]
    else
      var p := NatToString(n / 10);
      var r := p + [DigitChar(n % 10)];
      ValueInPrefix(p, [DigitChar(n % 10)], 0, |p|);
      r
  }

  /** `String(i)` for any integer. */
  function IntToString(i: int): string {
    if i < 0 then "-" + NatToString(-i) else NatToString(i)
  }

  /** `s.padStart(2, '0')`. */
  function PadStart2(s: string): (r: string)
    ensures |r| == if |s| < 2 then 2 else |s|
  {
    if |s| == 0 then "00" else if |s| == 1 then "0" + s else s
  }

  /** A number below one hundred, zero-padded, is two digits denoting it. */
  lemma PaddedDigits(n: nat)
    requires n < 100
    ensures var r := PadStart2(NatToString(n));
      |r| == 2 && AllDigits(r) && ValueIn(r, 0, 2) == n
  {
    var s := NatToString(n);
    if n < 10 {
      var r := PadStart2(s);
      assert r == ['0', s[0]];
      assert DigitsIn(r, 0, 1);
    }
  }
}
