/** The examples the time value's own test-suite states, checked against the
    model: construction, serialisation, `duration`, the accepted and refused
    inputs of both grammars, and duration strings. */
module TimeValueExamples {
  import Text
  import TimeValueLemmas
  import opened TimeValue

  /** A character-by-character check that `n` is what normalising `s[i..]`
      yields from `n[j..]` on; it evaluates cheaply on literals. */
  predicate NormalizesTo(s: string, i: nat, n: string, j: nat)
    requires i <= |s| && j <= |n|
    decreases |s| - i
  {
    if i == |s| then j == |n|
    else if Text.IsSpace(s[i]) then NormalizesTo(s, i + 1, n, j)
    else j < |n| && n[j] == Text.Lower(s[i]) && NormalizesTo(s, i + 1, n, j + 1)
  }

  lemma {:induction false} NormalizesToSound(s: string, i: nat, n: string, j: nat)
    requires i <= |s| && j <= |n| && NormalizesTo(s, i, n, j)
    ensures NormalizeFrom(s, i) == n[j..]
    decreases |s| - i
  {
    if i < |s| {
      if Text.IsSpace(s[i]) {
        NormalizesToSound(s, i + 1, n, j);
      } else {
        NormalizesToSound(s, i + 1, n, j + 1);
        assert n[j..] == [n[j]] + n[j + 1..];
      }
    }
  }

  /** Reading `s` in any grammar is reading its normal form `n`. */
  lemma Reads(s: string, n: string)
    requires NormalizesTo(s, 0, n, 0)
    ensures Normalize(s) == n
    ensures FromString(s, Mode24) == ParseNormalized(n, Mode24)
    ensures FromString(s, Mode12) == ParseNormalized(n, Mode12)
    ensures FromString(s, ModeAny) == ParseNormalized(n, ModeAny)
  {
    NormalizesToSound(s, 0, n, 0);
  }

  lemma ConstructExamples()
    ensures var t := FromValue(Int(202)); ValueOf(t) == Int(202) && Hour(t) == Int(3) && Minute(t) == Int(22)
    ensures var t := FromHour(Int(3), Int(22)); ValueOf(t) == Int(202) && Hour(t) == Int(3) && Minute(t) == Int(22)
    ensures Hour(FromValue(NaN)) == NaN && Minute(FromValue(NaN)) == NaN
    ensures FromHour(NaN, Int(2)) == FromHour(NaN, NaN) && FromHour(Int(5), NaN) == FromHour(NaN, NaN)
  {
    TimeValueLemmas.ConstructFromHour(Int(3), Int(22));
  }

  lemma SerializeExamples()
    ensures ToString(FromHour(Int(16), Int(5))) == "16:05"
    ensures CoerceToString(FromHour(Int(16), Int(5))) == "965"
    ensures ToString(FromHour(Int(5), Int(12))) == "05:12"
    ensures ToString(FromValue(NaN)) == "Invalid time"
  {
    Decimals();
    AfternoonString();
    MorningString();
  }

  lemma AfternoonString()
    ensures ToString(FromHour(Int(16), Int(5))) == "16:05"
  {
    Decimals();
  }

  lemma MorningString()
    ensures ToString(FromHour(Int(5), Int(12))) == "05:12"
  {
    Decimals();
  }

  lemma Decimals()
    ensures Text.NatToString(16) == "16" && Text.NatToString(5) == "5"
    ensures Text.NatToString(965) == "965"
    ensures Text.NatToString(12) == "12"
  {
    assert Text.NatToString(96) == "96";
  }

  lemma DurationExample()
    ensures var d1, d2 := Duration(FromHour(Int(12), Int(30)), FromHour(Int(14), Int(0))),
                          Duration(FromHour(Int(14), Int(0)), FromHour(Int(12), Int(30)));
      ValueOf(d1) == Int(90) && d1 == d2
  {
  }

  /** The 24-hour inputs the picker accepts, with the time each denotes. */
  lemma Valid24Examples()
    ensures FromString("00:00", Mode24) == FromHour(Int(0), Int(0))
    ensures FromString("00:01", Mode24) == FromHour(Int(0), Int(1))
    ensures FromString("03:10", Mode24) == FromHour(Int(3), Int(10))
    ensures FromString("12:00", Mode24) == FromHour(Int(12), Int(0))
    ensures FromString("12:01", Mode24) == FromHour(Int(12), Int(1))
    ensures FromString("19:10", Mode24) == FromHour(Int(19), Int(10))
    ensures FromString("23:59", Mode24) == FromHour(Int(23), Int(59))
    ensures FromString("19 : 10", Mode24) == FromHour(Int(19), Int(10))
    ensures FromString("19: 10", Mode24) == FromHour(Int(19), Int(10))
    ensures FromString("19 :10", Mode24) == FromHour(Int(19), Int(10))
    ensures FromString("19h10", Mode24) == FromHour(Int(19), Int(10))
    ensures FromString("19h 10", Mode24) == FromHour(Int(19), Int(10))
    ensures FromString("19 h10", Mode24) == FromHour(Int(19), Int(10))
    ensures FromString("19 h 10", Mode24) == FromHour(Int(19), Int(10))
    ensures FromString("19H10", Mode24) == FromHour(Int(19), Int(10))
    ensures FromString("19H 10", Mode24) == FromHour(Int(19), Int(10))
    ensures FromString("19 H10", Mode24) == FromHour(Int(19), Int(10))
    ensures FromString("19 H 10", Mode24) == FromHour(Int(19), Int(10))
    ensures FromString("19.10", Mode24) == FromHour(Int(19), Int(10))
    ensures FromString("19. 10", Mode24) == FromHour(Int(19), Int(10))
    ensures FromString("19 .10", Mode24) == FromHour(Int(19), Int(10))
    ensures FromString("19 . 10", Mode24) == FromHour(Int(19), Int(10))
    ensures FromString("7", Mode24) == FromHour(Int(7), Int(0))
    ensures FromString("07", Mode24) == FromHour(Int(7), Int(0))
    ensures FromString("07:00", Mode24) == FromHour(Int(7), Int(0))
    ensures FromString("7:00", Mode24) == FromHour(Int(7), Int(0))
    ensures FromString("700", Mode24) == FromHour(Int(7), Int(0))
    ensures FromString("0730", Mode24) == FromHour(Int(7), Int(30))
    ensures FromString("1234", Mode24) == FromHour(Int(12), Int(34))
    ensures FromString("56", Mode24) == FromHour(Int(5), Int(6))
    ensures FromString(" 7:00 ", Mode24) == FromHour(Int(7), Int(0))
    ensures FromString("07 : 00", Mode24) == FromHour(Int(7), Int(0))
  {
    Valid24Row1();
    Valid24Row2();
    Valid24Row3();
    Valid24Row4();
    Valid24Row5();
    Valid24Row6();
    Valid24Row7();
    Valid24Row8();
    Valid24Row9();
    Valid24Row10();
    Valid24Row11();
    Valid24Row12();
    Valid24Row13();
    Valid24Row14();
    Valid24Row15();
    Valid24Row16();
    Valid24Row17();
    Valid24Row18();
    Valid24Row19();
    Valid24Row20();
    Valid24Row21();
    Valid24Row22();
    Valid24Row23();
    Valid24Row24();
    Valid24Row25();
    Valid24Row26();
    Valid24Row27();
    Valid24Row28();
    Valid24Row29();
    Valid24Row30();
    Valid24Row31();
    Valid24Row32();
  }

  lemma Valid24Parse1()
    ensures Parse24("00:00") == FromHour(Int(0), Int(0))
  {
    assert SplitMeridiem("00:00") == (5, NoMeridiem);
  }

  lemma Valid24Row1()
    ensures FromString("00:00", Mode24) == FromHour(Int(0), Int(0))
  {
    Reads("00:00", "00:00");
    Valid24Parse1();
  }

  lemma Valid24Parse2()
    ensures Parse24("00:01") == FromHour(Int(0), Int(1))
  {
    assert SplitMeridiem("00:01") == (5, NoMeridiem);
  }

  lemma Valid24Row2()
    ensures FromString("00:01", Mode24) == FromHour(Int(0), Int(1))
  {
    Reads("00:01", "00:01");
    Valid24Parse2();
  }

  lemma Valid24Parse3()
    ensures Parse24("03:10") == FromHour(Int(3), Int(10))
  {
    assert SplitMeridiem("03:10") == (5, NoMeridiem);
  }

  lemma Valid24Row3()
    ensures FromString("03:10", Mode24) == FromHour(Int(3), Int(10))
  {
    Reads("03:10", "03:10");
    Valid24Parse3();
  }

  lemma Valid24Parse4()
    ensures Parse24("12:00") == FromHour(Int(12), Int(0))
  {
    assert SplitMeridiem("12:00") == (5, NoMeridiem);
  }

  lemma Valid24Row4()
    ensures FromString("12:00", Mode24) == FromHour(Int(12), Int(0))
  {
    Reads("12:00", "12:00");
    Valid24Parse4();
  }

  lemma Valid24Parse5()
    ensures Parse24("12:01") == FromHour(Int(12), Int(1))
  {
    assert SplitMeridiem("12:01") == (5, NoMeridiem);
  }

  lemma Valid24Row5()
    ensures FromString("12:01", Mode24) == FromHour(Int(12), Int(1))
  {
    Reads("12:01", "12:01");
    Valid24Parse5();
  }

  lemma Valid24Parse6()
    ensures Parse24("19:10") == FromHour(Int(19), Int(10))
  {
    assert SplitMeridiem("19:10") == (5, NoMeridiem);
  }

  lemma Valid24Row6()
    ensures FromString("19:10", Mode24) == FromHour(Int(19), Int(10))
  {
    Reads("19:10", "19:10");
    Valid24Parse6();
  }

  lemma Valid24Parse7()
    ensures Parse24("23:59") == FromHour(Int(23), Int(59))
  {
    assert SplitMeridiem("23:59") == (5, NoMeridiem);
  }

  lemma Valid24Row7()
    ensures FromString("23:59", Mode24) == FromHour(Int(23), Int(59))
  {
    Reads("23:59", "23:59");
    Valid24Parse7();
  }

  lemma Valid24Parse8()
    ensures Parse24("19:10") == FromHour(Int(19), Int(10))
  {
    assert SplitMeridiem("19:10") == (5, NoMeridiem);
  }

  lemma Valid24Row8()
    ensures FromString("19 : 10", Mode24) == FromHour(Int(19), Int(10))
  {
    Reads("19 : 10", "19:10");
    Valid24Parse8();
  }

  lemma Valid24Parse9()
    ensures Parse24("19:10") == FromHour(Int(19), Int(10))
  {
    assert SplitMeridiem("19:10") == (5, NoMeridiem);
  }

  lemma Valid24Row9()
    ensures FromString("19: 10", Mode24) == FromHour(Int(19), Int(10))
  {
    Reads("19: 10", "19:10");
    Valid24Parse9();
  }

  lemma Valid24Parse10()
    ensures Parse24("19:10") == FromHour(Int(19), Int(10))
  {
    assert SplitMeridiem("19:10") == (5, NoMeridiem);
  }

  lemma Valid24Row10()
    ensures FromString("19 :10", Mode24) == FromHour(Int(19), Int(10))
  {
    Reads("19 :10", "19:10");
    Valid24Parse10();
  }

  lemma Valid24Parse11()
    ensures Parse24("19h10") == FromHour(Int(19), Int(10))
  {
    assert SplitMeridiem("19h10") == (5, NoMeridiem);
  }

  lemma Valid24Row11()
    ensures FromString("19h10", Mode24) == FromHour(Int(19), Int(10))
  {
    Reads("19h10", "19h10");
    Valid24Parse11();
  }

  lemma Valid24Parse12()
    ensures Parse24("19h10") == FromHour(Int(19), Int(10))
  {
    assert SplitMeridiem("19h10") == (5, NoMeridiem);
  }

  lemma Valid24Row12()
    ensures FromString("19h 10", Mode24) == FromHour(Int(19), Int(10))
  {
    Reads("19h 10", "19h10");
    Valid24Parse12();
  }

  lemma Valid24Parse13()
    ensures Parse24("19h10") == FromHour(Int(19), Int(10))
  {
    assert SplitMeridiem("19h10") == (5, NoMeridiem);
  }

  lemma Valid24Row13()
    ensures FromString("19 h10", Mode24) == FromHour(Int(19), Int(10))
  {
    Reads("19 h10", "19h10");
    Valid24Parse13();
  }

  lemma Valid24Parse14()
    ensures Parse24("19h10") == FromHour(Int(19), Int(10))
  {
    assert SplitMeridiem("19h10") == (5, NoMeridiem);
  }

  lemma Valid24Row14()
    ensures FromString("19 h 10", Mode24) == FromHour(Int(19), Int(10))
  {
    Reads("19 h 10", "19h10");
    Valid24Parse14();
  }

  lemma Valid24Parse15()
    ensures Parse24("19h10") == FromHour(Int(19), Int(10))
  {
    assert SplitMeridiem("19h10") == (5, NoMeridiem);
  }

  lemma Valid24Row15()
    ensures FromString("19H10", Mode24) == FromHour(Int(19), Int(10))
  {
    Reads("19H10", "19h10");
    Valid24Parse15();
  }

  lemma Valid24Parse16()
    ensures Parse24("19h10") == FromHour(Int(19), Int(10))
  {
    assert SplitMeridiem("19h10") == (5, NoMeridiem);
  }

  lemma Valid24Row16()
    ensures FromString("19H 10", Mode24) == FromHour(Int(19), Int(10))
  {
    Reads("19H 10", "19h10");
    Valid24Parse16();
  }

  lemma Valid24Parse17()
    ensures Parse24("19h10") == FromHour(Int(19), Int(10))
  {
    assert SplitMeridiem("19h10") == (5, NoMeridiem);
  }

  lemma Valid24Row17()
    ensures FromString("19 H10", Mode24) == FromHour(Int(19), Int(10))
  {
    Reads("19 H10", "19h10");
    Valid24Parse17();
  }

  lemma Valid24Parse18()
    ensures Parse24("19h10") == FromHour(Int(19), Int(10))
  {
    assert SplitMeridiem("19h10") == (5, NoMeridiem);
  }

  lemma Valid24Row18()
    ensures FromString("19 H 10", Mode24) == FromHour(Int(19), Int(10))
  {
    Reads("19 H 10", "19h10");
    Valid24Parse18();
  }

  lemma Valid24Parse19()
    ensures Parse24("19.10") == FromHour(Int(19), Int(10))
  {
    assert SplitMeridiem("19.10") == (5, NoMeridiem);
  }

  lemma Valid24Row19()
    ensures FromString("19.10", Mode24) == FromHour(Int(19), Int(10))
  {
    Reads("19.10", "19.10");
    Valid24Parse19();
  }

  lemma Valid24Parse20()
    ensures Parse24("19.10") == FromHour(Int(19), Int(10))
  {
    assert SplitMeridiem("19.10") == (5, NoMeridiem);
  }

  lemma Valid24Row20()
    ensures FromString("19. 10", Mode24) == FromHour(Int(19), Int(10))
  {
    Reads("19. 10", "19.10");
    Valid24Parse20();
  }

  lemma Valid24Parse21()
    ensures Parse24("19.10") == FromHour(Int(19), Int(10))
  {
    assert SplitMeridiem("19.10") == (5, NoMeridiem);
  }

  lemma Valid24Row21()
    ensures FromString("19 .10", Mode24) == FromHour(Int(19), Int(10))
  {
    Reads("19 .10", "19.10");
    Valid24Parse21();
  }

  lemma Valid24Parse22()
    ensures Parse24("19.10") == FromHour(Int(19), Int(10))
  {
    assert SplitMeridiem("19.10") == (5, NoMeridiem);
  }

  lemma Valid24Row22()
    ensures FromString("19 . 10", Mode24) == FromHour(Int(19), Int(10))
  {
    Reads("19 . 10", "19.10");
    Valid24Parse22();
  }

  lemma Valid24Parse23()
    ensures Parse24("7") == FromHour(Int(7), Int(0))
  {
    assert SplitMeridiem("7") == (1, NoMeridiem);
  }

  lemma Valid24Row23()
    ensures FromString("7", Mode24) == FromHour(Int(7), Int(0))
  {
    Reads("7", "7");
    Valid24Parse23();
  }

  lemma Valid24Parse24()
    ensures Parse24("07") == FromHour(Int(7), Int(0))
  {
    assert SplitMeridiem("07") == (2, NoMeridiem);
  }

  lemma Valid24Row24()
    ensures FromString("07", Mode24) == FromHour(Int(7), Int(0))
  {
    Reads("07", "07");
    Valid24Parse24();
  }

  lemma Valid24Parse25()
    ensures Parse24("07:00") == FromHour(Int(7), Int(0))
  {
    assert SplitMeridiem("07:00") == (5, NoMeridiem);
  }

  lemma Valid24Row25()
    ensures FromString("07:00", Mode24) == FromHour(Int(7), Int(0))
  {
    Reads("07:00", "07:00");
    Valid24Parse25();
  }

  lemma Valid24Parse26()
    ensures Parse24("7:00") == FromHour(Int(7), Int(0))
  {
    assert SplitMeridiem("7:00") == (4, NoMeridiem);
  }

  lemma Valid24Row26()
    ensures FromString("7:00", Mode24) == FromHour(Int(7), Int(0))
  {
    Reads("7:00", "7:00");
    Valid24Parse26();
  }

  lemma Valid24Parse27()
    ensures Parse24("700") == FromHour(Int(7), Int(0))
  {
    assert SplitMeridiem("700") == (3, NoMeridiem);
  }

  lemma Valid24Row27()
    ensures FromString("700", Mode24) == FromHour(Int(7), Int(0))
  {
    Reads("700", "700");
    Valid24Parse27();
  }

  lemma Valid24Parse28()
    ensures Parse24("0730") == FromHour(Int(7), Int(30))
  {
    assert SplitMeridiem("0730") == (4, NoMeridiem);
  }

  lemma Valid24Row28()
    ensures FromString("0730", Mode24) == FromHour(Int(7), Int(30))
  {
    Reads("0730", "0730");
    Valid24Parse28();
  }

  lemma Valid24Parse29()
    ensures Parse24("1234") == FromHour(Int(12), Int(34))
  {
    assert SplitMeridiem("1234") == (4, NoMeridiem);
  }

  lemma Valid24Row29()
    ensures FromString("1234", Mode24) == FromHour(Int(12), Int(34))
  {
    Reads("1234", "1234");
    Valid24Parse29();
  }

  lemma Valid24Parse30()
    ensures Parse24("56") == FromHour(Int(5), Int(6))
  {
    assert SplitMeridiem("56") == (2, NoMeridiem);
  }

  lemma Valid24Row30()
    ensures FromString("56", Mode24) == FromHour(Int(5), Int(6))
  {
    Reads("56", "56");
    Valid24Parse30();
  }

  lemma Valid24Parse31()
    ensures Parse24("7:00") == FromHour(Int(7), Int(0))
  {
    assert SplitMeridiem("7:00") == (4, NoMeridiem);
  }

  lemma Valid24Row31()
    ensures FromString(" 7:00 ", Mode24) == FromHour(Int(7), Int(0))
  {
    Reads(" 7:00 ", "7:00");
    Valid24Parse31();
  }

  lemma Valid24Parse32()
    ensures Parse24("07:00") == FromHour(Int(7), Int(0))
  {
    assert SplitMeridiem("07:00") == (5, NoMeridiem);
  }

  lemma Valid24Row32()
    ensures FromString("07 : 00", Mode24) == FromHour(Int(7), Int(0))
  {
    Reads("07 : 00", "07:00");
    Valid24Parse32();
  }

  /** The 12-hour inputs the picker accepts, with the time each denotes. */
  lemma Valid12Examples()
    ensures FromString("12:00 AM", Mode12) == FromHour(Int(0), Int(0))
    ensures FromString("12:01 AM", Mode12) == FromHour(Int(0), Int(1))
    ensures FromString("12:00 PM", Mode12) == FromHour(Int(12), Int(0))
    ensures FromString("12:01 PM", Mode12) == FromHour(Int(12), Int(1))
    ensures FromString("01:00 PM", Mode12) == FromHour(Int(13), Int(0))
    ensures FromString("11:59 PM", Mode12) == FromHour(Int(23), Int(59))
    ensures FromString("07:00", Mode12) == FromHour(Int(7), Int(0))
    ensures FromString("9:30", Mode12) == FromHour(Int(9), Int(30))
    ensures FromString("12:01", Mode12) == FromHour(Int(0), Int(1))
    ensures FromString("7:00 am", Mode12) == FromHour(Int(7), Int(0))
    ensures FromString("7:00 a.m.", Mode12) == FromHour(Int(7), Int(0))
    ensures FromString("7:00 a. m.", Mode12) == FromHour(Int(7), Int(0))
    ensures FromString("7:00 a", Mode12) == FromHour(Int(7), Int(0))
    ensures FromString("7:00 AM", Mode12) == FromHour(Int(7), Int(0))
    ensures FromString("7:00 A.M.", Mode12) == FromHour(Int(7), Int(0))
    ensures FromString("7:00 A. M.", Mode12) == FromHour(Int(7), Int(0))
    ensures FromString("7:00 A", Mode12) == FromHour(Int(7), Int(0))
    ensures FromString("7:00 pm", Mode12) == FromHour(Int(19), Int(0))
    ensures FromString("7:00 p.m.", Mode12) == FromHour(Int(19), Int(0))
    ensures FromString("7:00 p. m.", Mode12) == FromHour(Int(19), Int(0))
    ensures FromString("7:00 p", Mode12) == FromHour(Int(19), Int(0))
    ensures FromString("7:00 PM", Mode12) == FromHour(Int(19), Int(0))
    ensures FromString("7:00 P.M.", Mode12) == FromHour(Int(19), Int(0))
    ensures FromString("7:00 P. M.", Mode12) == FromHour(Int(19), Int(0))
    ensures FromString("7:00 P", Mode12) == FromHour(Int(19), Int(0))
    ensures FromString("7a", Mode12) == FromHour(Int(7), Int(0))
    ensures FromString("2p", Mode12) == FromHour(Int(14), Int(0))
    ensures FromString("740a", Mode12) == FromHour(Int(7), Int(40))
    ensures FromString("240p", Mode12) == FromHour(Int(14), Int(40))
    ensures FromString("12p", Mode12) == FromHour(Int(12), Int(0))
    ensures FromString("13 PM", Mode12) == FromHour(Int(13), Int(3))
    ensures FromString("56p", Mode12) == FromHour(Int(17), Int(6))
    ensures FromString(" 7:00 a m", Mode12) == FromHour(Int(7), Int(0))
    ensures FromString("07 : 00AM", Mode12) == FromHour(Int(7), Int(0))
  {
    Valid12Row1();
    Valid12Row2();
    Valid12Row3();
    Valid12Row4();
    Valid12Row5();
    Valid12Row6();
    Valid12Row7();
    Valid12Row8();
    Valid12Row9();
    Valid12Row10();
    Valid12Row11();
    Valid12Row12();
    Valid12Row13();
    Valid12Row14();
    Valid12Row15();
    Valid12Row16();
    Valid12Row17();
    Valid12Row18();
    Valid12Row19();
    Valid12Row20();
    Valid12Row21();
    Valid12Row22();
    Valid12Row23();
    Valid12Row24();
    Valid12Row25();
    Valid12Row26();
    Valid12Row27();
    Valid12Row28();
    Valid12Row29();
    Valid12Row30();
    Valid12Row31();
    Valid12Row32();
    Valid12Row33();
    Valid12Row34();
  }

  lemma Valid12Parse1()
    ensures Parse12("12:00am") == FromHour(Int(0), Int(0))
  {
    assert SuffixAgrees("12:00am", "am", 2);
    assert SplitMeridiem("12:00am") == (5, AM);
  }

  lemma Valid12Row1()
    ensures FromString("12:00 AM", Mode12) == FromHour(Int(0), Int(0))
  {
    Reads("12:00 AM", "12:00am");
    Valid12Parse1();
  }

  lemma Valid12Parse2()
    ensures Parse12("12:01am") == FromHour(Int(0), Int(1))
  {
    assert SuffixAgrees("12:01am", "am", 2);
    assert SplitMeridiem("12:01am") == (5, AM);
  }

  lemma Valid12Row2()
    ensures FromString("12:01 AM", Mode12) == FromHour(Int(0), Int(1))
  {
    Reads("12:01 AM", "12:01am");
    Valid12Parse2();
  }

  lemma Valid12Parse3()
    ensures Parse12("12:00pm") == FromHour(Int(12), Int(0))
  {
    assert SuffixAgrees("12:00pm", "pm", 2);
    assert SplitMeridiem("12:00pm") == (5, PM);
  }

  lemma Valid12Row3()
    ensures FromString("12:00 PM", Mode12) == FromHour(Int(12), Int(0))
  {
    Reads("12:00 PM", "12:00pm");
    Valid12Parse3();
  }

  lemma Valid12Parse4()
    ensures Parse12("12:01pm") == FromHour(Int(12), Int(1))
  {
    assert SuffixAgrees("12:01pm", "pm", 2);
    assert SplitMeridiem("12:01pm") == (5, PM);
  }

  lemma Valid12Row4()
    ensures FromString("12:01 PM", Mode12) == FromHour(Int(12), Int(1))
  {
    Reads("12:01 PM", "12:01pm");
    Valid12Parse4();
  }

  lemma Valid12Parse5()
    ensures Parse12("01:00pm") == FromHour(Int(13), Int(0))
  {
    assert SuffixAgrees("01:00pm", "pm", 2);
    assert SplitMeridiem("01:00pm") == (5, PM);
  }

  lemma Valid12Row5()
    ensures FromString("01:00 PM", Mode12) == FromHour(Int(13), Int(0))
  {
    Reads("01:00 PM", "01:00pm");
    Valid12Parse5();
  }

  lemma Valid12Parse6()
    ensures Parse12("11:59pm") == FromHour(Int(23), Int(59))
  {
    assert SuffixAgrees("11:59pm", "pm", 2);
    assert SplitMeridiem("11:59pm") == (5, PM);
  }

  lemma Valid12Row6()
    ensures FromString("11:59 PM", Mode12) == FromHour(Int(23), Int(59))
  {
    Reads("11:59 PM", "11:59pm");
    Valid12Parse6();
  }

  lemma Valid12Parse7()
    ensures Parse12("07:00") == FromHour(Int(7), Int(0))
  {
    assert SplitMeridiem("07:00") == (5, NoMeridiem);
  }

  lemma Valid12Row7()
    ensures FromString("07:00", Mode12) == FromHour(Int(7), Int(0))
  {
    Reads("07:00", "07:00");
    Valid12Parse7();
  }

  lemma Valid12Parse8()
    ensures Parse12("9:30") == FromHour(Int(9), Int(30))
  {
    assert SplitMeridiem("9:30") == (4, NoMeridiem);
  }

  lemma Valid12Row8()
    ensures FromString("9:30", Mode12) == FromHour(Int(9), Int(30))
  {
    Reads("9:30", "9:30");
    Valid12Parse8();
  }

  lemma Valid12Parse9()
    ensures Parse12("12:01") == FromHour(Int(0), Int(1))
  {
    assert SplitMeridiem("12:01") == (5, NoMeridiem);
  }

  lemma Valid12Row9()
    ensures FromString("12:01", Mode12) == FromHour(Int(0), Int(1))
  {
    Reads("12:01", "12:01");
    Valid12Parse9();
  }

  lemma Valid12Parse10()
    ensures Parse12("7:00am") == FromHour(Int(7), Int(0))
  {
    assert SuffixAgrees("7:00am", "am", 2);
    assert SplitMeridiem("7:00am") == (4, AM);
  }

  lemma Valid12Row10()
    ensures FromString("7:00 am", Mode12) == FromHour(Int(7), Int(0))
  {
    Reads("7:00 am", "7:00am");
    Valid12Parse10();
  }

  lemma Valid12Parse11()
    ensures Parse12("7:00a.m.") == FromHour(Int(7), Int(0))
  {
    assert SuffixAgrees("7:00a.m.", "a.m.", 4);
    assert SplitMeridiem("7:00a.m.") == (4, AM);
  }

  lemma Valid12Row11()
    ensures FromString("7:00 a.m.", Mode12) == FromHour(Int(7), Int(0))
  {
    Reads("7:00 a.m.", "7:00a.m.");
    Valid12Parse11();
  }

  lemma Valid12Parse12()
    ensures Parse12("7:00a.m.") == FromHour(Int(7), Int(0))
  {
    assert SuffixAgrees("7:00a.m.", "a.m.", 4);
    assert SplitMeridiem("7:00a.m.") == (4, AM);
  }

  lemma Valid12Row12()
    ensures FromString("7:00 a. m.", Mode12) == FromHour(Int(7), Int(0))
  {
    Reads("7:00 a. m.", "7:00a.m.");
    Valid12Parse12();
  }

  lemma Valid12Parse13()
    ensures Parse12("7:00a") == FromHour(Int(7), Int(0))
  {
    assert SuffixAgrees("7:00a", "a", 1);
    assert SplitMeridiem("7:00a") == (4, AM);
  }

  lemma Valid12Row13()
    ensures FromString("7:00 a", Mode12) == FromHour(Int(7), Int(0))
  {
    Reads("7:00 a", "7:00a");
    Valid12Parse13();
  }

  lemma Valid12Parse14()
    ensures Parse12("7:00am") == FromHour(Int(7), Int(0))
  {
    assert SuffixAgrees("7:00am", "am", 2);
    assert SplitMeridiem("7:00am") == (4, AM);
  }

  lemma Valid12Row14()
    ensures FromString("7:00 AM", Mode12) == FromHour(Int(7), Int(0))
  {
    Reads("7:00 AM", "7:00am");
    Valid12Parse14();
  }

  lemma Valid12Parse15()
    ensures Parse12("7:00a.m.") == FromHour(Int(7), Int(0))
  {
    assert SuffixAgrees("7:00a.m.", "a.m.", 4);
    assert SplitMeridiem("7:00a.m.") == (4, AM);
  }

  lemma Valid12Row15()
    ensures FromString("7:00 A.M.", Mode12) == FromHour(Int(7), Int(0))
  {
    Reads("7:00 A.M.", "7:00a.m.");
    Valid12Parse15();
  }

  lemma Valid12Parse16()
    ensures Parse12("7:00a.m.") == FromHour(Int(7), Int(0))
  {
    assert SuffixAgrees("7:00a.m.", "a.m.", 4);
    assert SplitMeridiem("7:00a.m.") == (4, AM);
  }

  lemma Valid12Row16()
    ensures FromString("7:00 A. M.", Mode12) == FromHour(Int(7), Int(0))
  {
    Reads("7:00 A. M.", "7:00a.m.");
    Valid12Parse16();
  }

  lemma Valid12Parse17()
    ensures Parse12("7:00a") == FromHour(Int(7), Int(0))
  {
    assert SuffixAgrees("7:00a", "a", 1);
    assert SplitMeridiem("7:00a") == (4, AM);
  }

  lemma Valid12Row17()
    ensures FromString("7:00 A", Mode12) == FromHour(Int(7), Int(0))
  {
    Reads("7:00 A", "7:00a");
    Valid12Parse17();
  }

  lemma Valid12Parse18()
    ensures Parse12("7:00pm") == FromHour(Int(19), Int(0))
  {
    assert SuffixAgrees("7:00pm", "pm", 2);
    assert SplitMeridiem("7:00pm") == (4, PM);
  }

  lemma Valid12Row18()
    ensures FromString("7:00 pm", Mode12) == FromHour(Int(19), Int(0))
  {
    Reads("7:00 pm", "7:00pm");
    Valid12Parse18();
  }

  lemma Valid12Parse19()
    ensures Parse12("7:00p.m.") == FromHour(Int(19), Int(0))
  {
    assert SuffixAgrees("7:00p.m.", "p.m.", 4);
    assert SplitMeridiem("7:00p.m.") == (4, PM);
  }

  lemma Valid12Row19()
    ensures FromString("7:00 p.m.", Mode12) == FromHour(Int(19), Int(0))
  {
    Reads("7:00 p.m.", "7:00p.m.");
    Valid12Parse19();
  }

  lemma Valid12Parse20()
    ensures Parse12("7:00p.m.") == FromHour(Int(19), Int(0))
  {
    assert SuffixAgrees("7:00p.m.", "p.m.", 4);
    assert SplitMeridiem("7:00p.m.") == (4, PM);
  }

  lemma Valid12Row20()
    ensures FromString("7:00 p. m.", Mode12) == FromHour(Int(19), Int(0))
  {
    Reads("7:00 p. m.", "7:00p.m.");
    Valid12Parse20();
  }

  lemma Valid12Parse21()
    ensures Parse12("7:00p") == FromHour(Int(19), Int(0))
  {
    assert SuffixAgrees("7:00p", "p", 1);
    assert SplitMeridiem("7:00p") == (4, PM);
  }

  lemma Valid12Row21()
    ensures FromString("7:00 p", Mode12) == FromHour(Int(19), Int(0))
  {
    Reads("7:00 p", "7:00p");
    Valid12Parse21();
  }

  lemma Valid12Parse22()
    ensures Parse12("7:00pm") == FromHour(Int(19), Int(0))
  {
    assert SuffixAgrees("7:00pm", "pm", 2);
    assert SplitMeridiem("7:00pm") == (4, PM);
  }

  lemma Valid12Row22()
    ensures FromString("7:00 PM", Mode12) == FromHour(Int(19), Int(0))
  {
    Reads("7:00 PM", "7:00pm");
    Valid12Parse22();
  }

  lemma Valid12Parse23()
    ensures Parse12("7:00p.m.") == FromHour(Int(19), Int(0))
  {
    assert SuffixAgrees("7:00p.m.", "p.m.", 4);
    assert SplitMeridiem("7:00p.m.") == (4, PM);
  }

  lemma Valid12Row23()
    ensures FromString("7:00 P.M.", Mode12) == FromHour(Int(19), Int(0))
  {
    Reads("7:00 P.M.", "7:00p.m.");
    Valid12Parse23();
  }

  lemma Valid12Parse24()
    ensures Parse12("7:00p.m.") == FromHour(Int(19), Int(0))
  {
    assert SuffixAgrees("7:00p.m.", "p.m.", 4);
    assert SplitMeridiem("7:00p.m.") == (4, PM);
  }

  lemma Valid12Row24()
    ensures FromString("7:00 P. M.", Mode12) == FromHour(Int(19), Int(0))
  {
    Reads("7:00 P. M.", "7:00p.m.");
    Valid12Parse24();
  }

  lemma Valid12Parse25()
    ensures Parse12("7:00p") == FromHour(Int(19), Int(0))
  {
    assert SuffixAgrees("7:00p", "p", 1);
    assert SplitMeridiem("7:00p") == (4, PM);
  }

  lemma Valid12Row25()
    ensures FromString("7:00 P", Mode12) == FromHour(Int(19), Int(0))
  {
    Reads("7:00 P", "7:00p");
    Valid12Parse25();
  }

  lemma Valid12Parse26()
    ensures Parse12("7a") == FromHour(Int(7), Int(0))
  {
    assert SuffixAgrees("7a", "a", 1);
    assert SplitMeridiem("7a") == (1, AM);
  }

  lemma Valid12Row26()
    ensures FromString("7a", Mode12) == FromHour(Int(7), Int(0))
  {
    Reads("7a", "7a");
    Valid12Parse26();
  }

  lemma Valid12Parse27()
    ensures Parse12("2p") == FromHour(Int(14), Int(0))
  {
    assert SuffixAgrees("2p", "p", 1);
    assert SplitMeridiem("2p") == (1, PM);
  }

  lemma Valid12Row27()
    ensures FromString("2p", Mode12) == FromHour(Int(14), Int(0))
  {
    Reads("2p", "2p");
    Valid12Parse27();
  }

  lemma Valid12Parse28()
    ensures Parse12("740a") == FromHour(Int(7), Int(40))
  {
    assert SuffixAgrees("740a", "a", 1);
    assert SplitMeridiem("740a") == (3, AM);
  }

  lemma Valid12Row28()
    ensures FromString("740a", Mode12) == FromHour(Int(7), Int(40))
  {
    Reads("740a", "740a");
    Valid12Parse28();
  }

  lemma Valid12Parse29()
    ensures Parse12("240p") == FromHour(Int(14), Int(40))
  {
    assert SuffixAgrees("240p", "p", 1);
    assert SplitMeridiem("240p") == (3, PM);
  }

  lemma Valid12Row29()
    ensures FromString("240p", Mode12) == FromHour(Int(14), Int(40))
  {
    Reads("240p", "240p");
    Valid12Parse29();
  }

  lemma Valid12Parse30()
    ensures Parse12("12p") == FromHour(Int(12), Int(0))
  {
    assert SuffixAgrees("12p", "p", 1);
    assert SplitMeridiem("12p") == (2, PM);
  }

  lemma Valid12Row30()
    ensures FromString("12p", Mode12) == FromHour(Int(12), Int(0))
  {
    Reads("12p", "12p");
    Valid12Parse30();
  }

  lemma Valid12Parse31()
    ensures Parse12("13pm") == FromHour(Int(13), Int(3))
  {
    assert SuffixAgrees("13pm", "pm", 2);
    assert SplitMeridiem("13pm") == (2, PM);
  }

  lemma Valid12Row31()
    ensures FromString("13 PM", Mode12) == FromHour(Int(13), Int(3))
  {
    Reads("13 PM", "13pm");
    Valid12Parse31();
  }

  lemma Valid12Parse32()
    ensures Parse12("56p") == FromHour(Int(17), Int(6))
  {
    assert SuffixAgrees("56p", "p", 1);
    assert SplitMeridiem("56p") == (2, PM);
  }

  lemma Valid12Row32()
    ensures FromString("56p", Mode12) == FromHour(Int(17), Int(6))
  {
    Reads("56p", "56p");
    Valid12Parse32();
  }

  lemma Valid12Parse33()
    ensures Parse12("7:00am") == FromHour(Int(7), Int(0))
  {
    assert SuffixAgrees("7:00am", "am", 2);
    assert SplitMeridiem("7:00am") == (4, AM);
  }

  lemma Valid12Row33()
    ensures FromString(" 7:00 a m", Mode12) == FromHour(Int(7), Int(0))
  {
    Reads(" 7:00 a m", "7:00am");
    Valid12Parse33();
  }

  lemma Valid12Parse34()
    ensures Parse12("07:00am") == FromHour(Int(7), Int(0))
  {
    assert SuffixAgrees("07:00am", "am", 2);
    assert SplitMeridiem("07:00am") == (5, AM);
  }

  lemma Valid12Row34()
    ensures FromString("07 : 00AM", Mode12) == FromHour(Int(7), Int(0))
  {
    Reads("07 : 00AM", "07:00am");
    Valid12Parse34();
  }

  /** Inputs the 24-hour grammar refuses. */
  lemma Invalid24Examples()
    ensures FromString("2400", Mode24) == Invalid
    ensures FromString("24:00", Mode24) == Invalid
    ensures FromString("1260", Mode24) == Invalid
    ensures FromString("12:60", Mode24) == Invalid
    ensures FromString("-1:00", Mode24) == Invalid
    ensures FromString("25:00", Mode24) == Invalid
    ensures FromString("07-00", Mode24) == Invalid
    ensures FromString("07::00", Mode24) == Invalid
    ensures FromString("::", Mode24) == Invalid
    ensures FromString("NaN", Mode24) == Invalid
    ensures FromString("null", Mode24) == Invalid
    ensures FromString("undefined", Mode24) == Invalid
    ensures FromString("", Mode24) == Invalid
    ensures FromString("true", Mode24) == Invalid
    ensures FromString("false", Mode24) == Invalid
    ensures FromString("{}", Mode24) == Invalid
    ensures FromString("[]", Mode24) == Invalid
    ensures FromString("lunch time", Mode24) == Invalid
    ensures FromString("midnightish", Mode24) == Invalid
    ensures FromString("12:345", Mode24) == Invalid
    ensures FromString("9:9999", Mode24) == Invalid
    ensures FromString("7:00🕖", Mode24) == Invalid
    ensures FromString("11:12am", Mode24) == Invalid
    ensures FromString("08:00 PM", Mode24) == Invalid
    ensures FromString("9:30 a.m.", Mode24) == Invalid
  {
    Invalid24Row1();
    Invalid24Row2();
    Invalid24Row3();
    Invalid24Row4();
    Invalid24Row5();
    Invalid24Row6();
    Invalid24Row7();
    Invalid24Row8();
    Invalid24Row9();
    Invalid24Row10();
    Invalid24Row11();
    Invalid24Row12();
    Invalid24Row13();
    Invalid24Row14();
    Invalid24Row15();
    Invalid24Row16();
    Invalid24Row17();
    Invalid24Row18();
    Invalid24Row19();
    Invalid24Row20();
    Invalid24Row21();
    Invalid24Row22();
    Invalid24Row23();
    Invalid24Row24();
    Invalid24Row25();
  }

  lemma Invalid24Parse1()
    ensures Parse24("2400") == Invalid
  {
    assert SplitMeridiem("2400") == (4, NoMeridiem);
  }

  lemma Invalid24Row1()
    ensures FromString("2400", Mode24) == Invalid
  {
    Reads("2400", "2400");
    Invalid24Parse1();
  }

  lemma Invalid24Parse2()
    ensures Parse24("24:00") == Invalid
  {
    assert SplitMeridiem("24:00") == (5, NoMeridiem);
  }

  lemma Invalid24Row2()
    ensures FromString("24:00", Mode24) == Invalid
  {
    Reads("24:00", "24:00");
    Invalid24Parse2();
  }

  lemma Invalid24Parse3()
    ensures Parse24("1260") == Invalid
  {
    assert SplitMeridiem("1260") == (4, NoMeridiem);
  }

  lemma Invalid24Row3()
    ensures FromString("1260", Mode24) == Invalid
  {
    Reads("1260", "1260");
    Invalid24Parse3();
  }

  lemma Invalid24Parse4()
    ensures Parse24("12:60") == Invalid
  {
    assert SplitMeridiem("12:60") == (5, NoMeridiem);
  }

  lemma Invalid24Row4()
    ensures FromString("12:60", Mode24) == Invalid
  {
    Reads("12:60", "12:60");
    Invalid24Parse4();
  }

  lemma Invalid24Parse5()
    ensures Parse24("-1:00") == Invalid
  {
    assert SplitMeridiem("-1:00") == (5, NoMeridiem);
  }

  lemma Invalid24Row5()
    ensures FromString("-1:00", Mode24) == Invalid
  {
    Reads("-1:00", "-1:00");
    Invalid24Parse5();
  }

  lemma Invalid24Parse6()
    ensures Parse24("25:00") == Invalid
  {
    assert SplitMeridiem("25:00") == (5, NoMeridiem);
  }

  lemma Invalid24Row6()
    ensures FromString("25:00", Mode24) == Invalid
  {
    Reads("25:00", "25:00");
    Invalid24Parse6();
  }

  lemma Invalid24Parse7()
    ensures Parse24("07-00") == Invalid
  {
    assert SplitMeridiem("07-00") == (5, NoMeridiem);
  }

  lemma Invalid24Row7()
    ensures FromString("07-00", Mode24) == Invalid
  {
    Reads("07-00", "07-00");
    Invalid24Parse7();
  }

  lemma Invalid24Parse8()
    ensures Parse24("07::00") == Invalid
  {
    assert SplitMeridiem("07::00") == (6, NoMeridiem);
  }

  lemma Invalid24Row8()
    ensures FromString("07::00", Mode24) == Invalid
  {
    Reads("07::00", "07::00");
    Invalid24Parse8();
  }

  lemma Invalid24Parse9()
    ensures Parse24("::") == Invalid
  {
    assert SplitMeridiem("::") == (2, NoMeridiem);
  }

  lemma Invalid24Row9()
    ensures FromString("::", Mode24) == Invalid
  {
    Reads("::", "::");
    Invalid24Parse9();
  }

  lemma Invalid24Parse10()
    ensures Parse24("nan") == Invalid
  {
    assert !SuffixAgrees("nan", "am", 2);
    assert SplitMeridiem("nan") == (3, NoMeridiem);
  }

  lemma Invalid24Row10()
    ensures FromString("NaN", Mode24) == Invalid
  {
    Reads("NaN", "nan");
    Invalid24Parse10();
  }

  lemma Invalid24Parse11()
    ensures Parse24("null") == Invalid
  {
    assert SplitMeridiem("null") == (4, NoMeridiem);
  }

  lemma Invalid24Row11()
    ensures FromString("null", Mode24) == Invalid
  {
    Reads("null", "null");
    Invalid24Parse11();
  }

  lemma Invalid24Parse12()
    ensures Parse24("undefined") == Invalid
  {
    assert SplitMeridiem("undefined") == (9, NoMeridiem);
  }

  lemma Invalid24Row12()
    ensures FromString("undefined", Mode24) == Invalid
  {
    Reads("undefined", "undefined");
    Invalid24Parse12();
  }

  lemma Invalid24Parse13()
    ensures Parse24("") == Invalid
  {
    assert SplitMeridiem("") == (0, NoMeridiem);
  }

  lemma Invalid24Row13()
    ensures FromString("", Mode24) == Invalid
  {
    Reads("", "");
    Invalid24Parse13();
  }

  lemma Invalid24Parse14()
    ensures Parse24("true") == Invalid
  {
    assert SplitMeridiem("true") == (4, NoMeridiem);
  }

  lemma Invalid24Row14()
    ensures FromString("true", Mode24) == Invalid
  {
    Reads("true", "true");
    Invalid24Parse14();
  }

  lemma Invalid24Parse15()
    ensures Parse24("false") == Invalid
  {
    assert !SuffixAgrees("false", "a.m.", 4);
    assert SplitMeridiem("false") == (5, NoMeridiem);
  }

  lemma Invalid24Row15()
    ensures FromString("false", Mode24) == Invalid
  {
    Reads("false", "false");
    Invalid24Parse15();
  }

  lemma Invalid24Parse16()
    ensures Parse24("{}") == Invalid
  {
    assert SplitMeridiem("{}") == (2, NoMeridiem);
  }

  lemma Invalid24Row16()
    ensures FromString("{}", Mode24) == Invalid
  {
    Reads("{}", "{}");
    Invalid24Parse16();
  }

  lemma Invalid24Parse17()
    ensures Parse24("[]") == Invalid
  {
    assert SplitMeridiem("[]") == (2, NoMeridiem);
  }

  lemma Invalid24Row17()
    ensures FromString("[]", Mode24) == Invalid
  {
    Reads("[]", "[]");
    Invalid24Parse17();
  }

  lemma Invalid24Parse18()
    ensures Parse24("lunchtime") == Invalid
  {
    assert SplitMeridiem("lunchtime") == (9, NoMeridiem);
  }

  lemma Invalid24Row18()
    ensures FromString("lunch time", Mode24) == Invalid
  {
    Reads("lunch time", "lunchtime");
    Invalid24Parse18();
  }

  lemma Invalid24Parse19()
    ensures Parse24("midnightish") == Invalid
  {
    assert SplitMeridiem("midnightish") == (11, NoMeridiem);
  }

  lemma Invalid24Row19()
    ensures FromString("midnightish", Mode24) == Invalid
  {
    Reads("midnightish", "midnightish");
    Invalid24Parse19();
  }

  lemma Invalid24Parse20()
    ensures Parse24("12:345") == Invalid
  {
    assert SplitMeridiem("12:345") == (6, NoMeridiem);
  }

  lemma Invalid24Row20()
    ensures FromString("12:345", Mode24) == Invalid
  {
    Reads("12:345", "12:345");
    Invalid24Parse20();
  }

  lemma Invalid24Parse21()
    ensures Parse24("9:9999") == Invalid
  {
    assert SplitMeridiem("9:9999") == (6, NoMeridiem);
  }

  lemma Invalid24Row21()
    ensures FromString("9:9999", Mode24) == Invalid
  {
    Reads("9:9999", "9:9999");
    Invalid24Parse21();
  }

  lemma Invalid24Parse22()
    ensures Parse24("7:00🕖") == Invalid
  {
    assert SplitMeridiem("7:00🕖") == (5, NoMeridiem);
  }

  lemma Invalid24Row22()
    ensures FromString("7:00🕖", Mode24) == Invalid
  {
    Reads("7:00🕖", "7:00🕖");
    Invalid24Parse22();
  }

  lemma Invalid24Parse23()
    ensures Parse24("11:12am") == Invalid
  {
    assert SuffixAgrees("11:12am", "am", 2);
    assert SplitMeridiem("11:12am") == (5, AM);
  }

  lemma Invalid24Row23()
    ensures FromString("11:12am", Mode24) == Invalid
  {
    Reads("11:12am", "11:12am");
    Invalid24Parse23();
  }

  lemma Invalid24Parse24()
    ensures Parse24("08:00pm") == Invalid
  {
    assert SuffixAgrees("08:00pm", "pm", 2);
    assert SplitMeridiem("08:00pm") == (5, PM);
  }

  lemma Invalid24Row24()
    ensures FromString("08:00 PM", Mode24) == Invalid
  {
    Reads("08:00 PM", "08:00pm");
    Invalid24Parse24();
  }

  lemma Invalid24Parse25()
    ensures Parse24("9:30a.m.") == Invalid
  {
    assert SuffixAgrees("9:30a.m.", "a.m.", 4);
    assert SplitMeridiem("9:30a.m.") == (4, AM);
  }

  lemma Invalid24Row25()
    ensures FromString("9:30 a.m.", Mode24) == Invalid
  {
    Reads("9:30 a.m.", "9:30a.m.");
    Invalid24Parse25();
  }

  /** Inputs the 12-hour grammar refuses. */
  lemma Invalid12Examples()
    ensures FromString("0:00", Mode12) == Invalid
    ensures FromString("19:00", Mode12) == Invalid
    ensures FromString("0:30 PM", Mode12) == Invalid
    ensures FromString("0h30 PM", Mode12) == Invalid
    ensures FromString("am", Mode12) == Invalid
    ensures FromString("AM", Mode12) == Invalid
    ensures FromString("AM 07:00", Mode12) == Invalid
    ensures FromString("7 AM PM", Mode12) == Invalid
    ensures FromString("PM:07 00", Mode12) == Invalid
    ensures FromString("::", Mode12) == Invalid
    ensures FromString("NaN", Mode12) == Invalid
    ensures FromString("null", Mode12) == Invalid
    ensures FromString("undefined", Mode12) == Invalid
    ensures FromString("", Mode12) == Invalid
    ensures FromString("true", Mode12) == Invalid
    ensures FromString("false", Mode12) == Invalid
    ensures FromString("{}", Mode12) == Invalid
    ensures FromString("[]", Mode12) == Invalid
    ensures FromString("lunch time", Mode12) == Invalid
    ensures FromString("midnightish", Mode12) == Invalid
  {
    Invalid12Row1();
    Invalid12Row2();
    Invalid12Row3();
    Invalid12Row4();
    Invalid12Row5();
    Invalid12Row6();
    Invalid12Row7();
    Invalid12Row8();
    Invalid12Row9();
    Invalid12Row10();
    Invalid12Row11();
    Invalid12Row12();
    Invalid12Row13();
    Invalid12Row14();
    Invalid12Row15();
    Invalid12Row16();
    Invalid12Row17();
    Invalid12Row18();
    Invalid12Row19();
    Invalid12Row20();
  }

  lemma Invalid12Parse1()
    ensures Parse12("0:00") == Invalid
  {
    assert SplitMeridiem("0:00") == (4, NoMeridiem);
  }

  lemma Invalid12Row1()
    ensures FromString("0:00", Mode12) == Invalid
  {
    Reads("0:00", "0:00");
    Invalid12Parse1();
  }

  lemma Invalid12Parse2()
    ensures Parse12("19:00") == Invalid
  {
    assert SplitMeridiem("19:00") == (5, NoMeridiem);
  }

  lemma Invalid12Row2()
    ensures FromString("19:00", Mode12) == Invalid
  {
    Reads("19:00", "19:00");
    Invalid12Parse2();
  }

  lemma Invalid12Parse3()
    ensures Parse12("0:30pm") == Invalid
  {
    assert SuffixAgrees("0:30pm", "pm", 2);
    assert SplitMeridiem("0:30pm") == (4, PM);
  }

  lemma Invalid12Row3()
    ensures FromString("0:30 PM", Mode12) == Invalid
  {
    Reads("0:30 PM", "0:30pm");
    Invalid12Parse3();
  }

  lemma Invalid12Parse4()
    ensures Parse12("0h30pm") == Invalid
  {
    assert SuffixAgrees("0h30pm", "pm", 2);
    assert SplitMeridiem("0h30pm") == (4, PM);
  }

  lemma Invalid12Row4()
    ensures FromString("0h30 PM", Mode12) == Invalid
  {
    Reads("0h30 PM", "0h30pm");
    Invalid12Parse4();
  }

  lemma Invalid12Parse5()
    ensures Parse12("am") == Invalid
  {
    assert SuffixAgrees("am", "am", 2);
    assert SplitMeridiem("am") == (0, AM);
  }

  lemma Invalid12Row5()
    ensures FromString("am", Mode12) == Invalid
  {
    Reads("am", "am");
    Invalid12Parse5();
  }

  lemma Invalid12Parse6()
    ensures Parse12("am") == Invalid
  {
    assert SuffixAgrees("am", "am", 2);
    assert SplitMeridiem("am") == (0, AM);
  }

  lemma Invalid12Row6()
    ensures FromString("AM", Mode12) == Invalid
  {
    Reads("AM", "am");
    Invalid12Parse6();
  }

  lemma Invalid12Parse7()
    ensures Parse12("am07:00") == Invalid
  {
    assert SplitMeridiem("am07:00") == (7, NoMeridiem);
  }

  lemma Invalid12Row7()
    ensures FromString("AM 07:00", Mode12) == Invalid
  {
    Reads("AM 07:00", "am07:00");
    Invalid12Parse7();
  }

  lemma Invalid12Parse8()
    ensures Parse12("7ampm") == Invalid
  {
    assert !SuffixAgrees("7ampm", "a.m.", 4);
    assert SuffixAgrees("7ampm", "pm", 2);
    assert SplitMeridiem("7ampm") == (3, PM);
  }

  lemma Invalid12Row8()
    ensures FromString("7 AM PM", Mode12) == Invalid
  {
    Reads("7 AM PM", "7ampm");
    Invalid12Parse8();
  }

  lemma Invalid12Parse9()
    ensures Parse12("pm:0700") == Invalid
  {
    assert SplitMeridiem("pm:0700") == (7, NoMeridiem);
  }

  lemma Invalid12Row9()
    ensures FromString("PM:07 00", Mode12) == Invalid
  {
    Reads("PM:07 00", "pm:0700");
    Invalid12Parse9();
  }

  lemma Invalid12Parse10()
    ensures Parse12("::") == Invalid
  {
    assert SplitMeridiem("::") == (2, NoMeridiem);
  }

  lemma Invalid12Row10()
    ensures FromString("::", Mode12) == Invalid
  {
    Reads("::", "::");
    Invalid12Parse10();
  }

  lemma Invalid12Parse11()
    ensures Parse12("nan") == Invalid
  {
    assert !SuffixAgrees("nan", "am", 2);
    assert SplitMeridiem("nan") == (3, NoMeridiem);
  }

  lemma Invalid12Row11()
    ensures FromString("NaN", Mode12) == Invalid
  {
    Reads("NaN", "nan");
    Invalid12Parse11();
  }

  lemma Invalid12Parse12()
    ensures Parse12("null") == Invalid
  {
    assert SplitMeridiem("null") == (4, NoMeridiem);
  }

  lemma Invalid12Row12()
    ensures FromString("null", Mode12) == Invalid
  {
    Reads("null", "null");
    Invalid12Parse12();
  }

  lemma Invalid12Parse13()
    ensures Parse12("undefined") == Invalid
  {
    assert SplitMeridiem("undefined") == (9, NoMeridiem);
  }

  lemma Invalid12Row13()
    ensures FromString("undefined", Mode12) == Invalid
  {
    Reads("undefined", "undefined");
    Invalid12Parse13();
  }

  lemma Invalid12Parse14()
    ensures Parse12("") == Invalid
  {
    assert SplitMeridiem("") == (0, NoMeridiem);
  }

  lemma Invalid12Row14()
    ensures FromString("", Mode12) == Invalid
  {
    Reads("", "");
    Invalid12Parse14();
  }

  lemma Invalid12Parse15()
    ensures Parse12("true") == Invalid
  {
    assert SplitMeridiem("true") == (4, NoMeridiem);
  }

  lemma Invalid12Row15()
    ensures FromString("true", Mode12) == Invalid
  {
    Reads("true", "true");
    Invalid12Parse15();
  }

  lemma Invalid12Parse16()
    ensures Parse12("false") == Invalid
  {
    assert !SuffixAgrees("false", "a.m.", 4);
    assert SplitMeridiem("false") == (5, NoMeridiem);
  }

  lemma Invalid12Row16()
    ensures FromString("false", Mode12) == Invalid
  {
    Reads("false", "false");
    Invalid12Parse16();
  }

  lemma Invalid12Parse17()
    ensures Parse12("{}") == Invalid
  {
    assert SplitMeridiem("{}") == (2, NoMeridiem);
  }

  lemma Invalid12Row17()
    ensures FromString("{}", Mode12) == Invalid
  {
    Reads("{}", "{}");
    Invalid12Parse17();
  }

  lemma Invalid12Parse18()
    ensures Parse12("[]") == Invalid
  {
    assert SplitMeridiem("[]") == (2, NoMeridiem);
  }

  lemma Invalid12Row18()
    ensures FromString("[]", Mode12) == Invalid
  {
    Reads("[]", "[]");
    Invalid12Parse18();
  }

  lemma Invalid12Parse19()
    ensures Parse12("lunchtime") == Invalid
  {
    assert SplitMeridiem("lunchtime") == (9, NoMeridiem);
  }

  lemma Invalid12Row19()
    ensures FromString("lunch time", Mode12) == Invalid
  {
    Reads("lunch time", "lunchtime");
    Invalid12Parse19();
  }

  lemma Invalid12Parse20()
    ensures Parse12("midnightish") == Invalid
  {
    assert SplitMeridiem("midnightish") == (11, NoMeridiem);
  }

  lemma Invalid12Row20()
    ensures FromString("midnightish", Mode12) == Invalid
  {
    Reads("midnightish", "midnightish");
    Invalid12Parse20();
  }

  /** Duration strings of times read in the default grammar. */
  lemma DurationStringExamples()
    ensures ToDurationString(FromString("0:00", ModeAny)) == "0h"
    ensures ToDurationString(FromString("0:01", ModeAny)) == "0:01"
    ensures ToDurationString(FromString("0:30", ModeAny)) == "0.5h"
    ensures ToDurationString(FromString("0:59", ModeAny)) == "0:59"
    ensures ToDurationString(FromString("1:00", ModeAny)) == "1h"
    ensures ToDurationString(FromString("13:45", ModeAny)) == "13:45"
  {
    DefaultExamples();
    DurationStringsOf();
  }

  lemma DurationStringsOf()
    ensures ToDurationString(Valid(0)) == "0h"
    ensures ToDurationString(Valid(1)) == "0:01"
    ensures ToDurationString(Valid(30)) == "0.5h"
    ensures ToDurationString(Valid(59)) == "0:59"
    ensures ToDurationString(Valid(60)) == "1h"
    ensures ToDurationString(Valid(825)) == "13:45"
  {
    WholeDurationStrings();
    ClockDurationStrings();
  }

  lemma WholeDurationStrings()
    ensures ToDurationString(Valid(0)) == "0h"
    ensures ToDurationString(Valid(30)) == "0.5h"
    ensures ToDurationString(Valid(60)) == "1h"
  {
    assert Text.NatToString(0) == "0" && Text.NatToString(1) == "1";
  }

  lemma ClockDurationStrings()
    ensures ToDurationString(Valid(1)) == "0:01"
    ensures ToDurationString(Valid(59)) == "0:59"
    ensures ToDurationString(Valid(825)) == "13:45"
  {
    OneMinuteString();
    MinutesString();
    HoursMinutesString();
  }

  lemma OneMinuteString()
    ensures ToDurationString(Valid(1)) == "0:01"
  {
    assert Text.NatToString(0) == "0" && Text.NatToString(1) == "1";
  }

  lemma MinutesString()
    ensures ToDurationString(Valid(59)) == "0:59"
  {
    assert Text.NatToString(0) == "0" && Text.NatToString(59) == "59";
  }

  lemma HoursMinutesString()
    ensures ToDurationString(Valid(825)) == "13:45"
  {
    assert Text.NatToString(13) == "13" && Text.NatToString(45) == "45";
  }

  /** Times read in the default grammar, as the duration-string examples read them. */
  lemma DefaultExamples()
    ensures FromString("0:00", ModeAny) == FromHour(Int(0), Int(0))
    ensures FromString("0:01", ModeAny) == FromHour(Int(0), Int(1))
    ensures FromString("0:30", ModeAny) == FromHour(Int(0), Int(30))
    ensures FromString("0:59", ModeAny) == FromHour(Int(0), Int(59))
    ensures FromString("1:00", ModeAny) == FromHour(Int(1), Int(0))
    ensures FromString("13:45", ModeAny) == FromHour(Int(13), Int(45))
  {
    DefaultRow1();
    DefaultRow2();
    DefaultRow3();
    DefaultRow4();
    DefaultRow5();
    DefaultRow6();
  }

  lemma DefaultParse1()
    ensures ParseNormalized("0:00", ModeAny) == FromHour(Int(0), Int(0))
  {
    assert SplitMeridiem("0:00") == (4, NoMeridiem);
  }

  lemma DefaultRow1()
    ensures FromString("0:00", ModeAny) == FromHour(Int(0), Int(0))
  {
    Reads("0:00", "0:00");
    DefaultParse1();
  }

  lemma DefaultParse2()
    ensures ParseNormalized("0:01", ModeAny) == FromHour(Int(0), Int(1))
  {
    assert SplitMeridiem("0:01") == (4, NoMeridiem);
  }

  lemma DefaultRow2()
    ensures FromString("0:01", ModeAny) == FromHour(Int(0), Int(1))
  {
    Reads("0:01", "0:01");
    DefaultParse2();
  }

  lemma DefaultParse3()
    ensures ParseNormalized("0:30", ModeAny) == FromHour(Int(0), Int(30))
  {
    assert SplitMeridiem("0:30") == (4, NoMeridiem);
  }

  lemma DefaultRow3()
    ensures FromString("0:30", ModeAny) == FromHour(Int(0), Int(30))
  {
    Reads("0:30", "0:30");
    DefaultParse3();
  }

  lemma DefaultParse4()
    ensures ParseNormalized("0:59", ModeAny) == FromHour(Int(0), Int(59))
  {
    assert SplitMeridiem("0:59") == (4, NoMeridiem);
  }

  lemma DefaultRow4()
    ensures FromString("0:59", ModeAny) == FromHour(Int(0), Int(59))
  {
    Reads("0:59", "0:59");
    DefaultParse4();
  }

  lemma DefaultParse5()
    ensures ParseNormalized("1:00", ModeAny) == FromHour(Int(1), Int(0))
  {
    assert SplitMeridiem("1:00") == (4, NoMeridiem);
  }

  lemma DefaultRow5()
    ensures FromString("1:00", ModeAny) == FromHour(Int(1), Int(0))
  {
    Reads("1:00", "1:00");
    DefaultParse5();
  }

  lemma DefaultParse6()
    ensures ParseNormalized("13:45", ModeAny) == FromHour(Int(13), Int(45))
  {
    assert SplitMeridiem("13:45") == (5, NoMeridiem);
  }

  lemma DefaultRow6()
    ensures FromString("13:45", ModeAny) == FromHour(Int(13), Int(45))
  {
    Reads("13:45", "13:45");
    DefaultParse6();
  }

  // ---------------------------------------------------------------------
  // Readings the test-suite does not fix, as this model makes them

  /** JavaScript's remainder keeps the sign of a negative value: `new
      Time(-1)` has minute -1, and `fromHour(-1, 30)`, which is -30 minutes,
      has minute -30. */
  lemma NegativeMinutes()
    ensures Minute(FromValue(Int(-1))) == Int(-1) && Hour(FromValue(Int(-1))) == Int(-1)
    ensures Minute(FromHour(Int(-1), Int(30))) == Int(-30)
  {
  }

  /** Whitespace between digits is dropped like any other: '1 2:00' is 12:00. */
  lemma SpaceInsideHour()
    ensures FromString("1 2:00", Mode24) == FromHour(Int(12), Int(0))
  {
    Reads("1 2:00", "12:00");
    NoonParse();
  }

  lemma NoonParse()
    ensures ParseNormalized("12:00", Mode24) == FromHour(Int(12), Int(0))
  {
    assert SplitMeridiem("12:00") == (5, NoMeridiem);
  }

  /** Two bare digits above 23 are an hour and a one-digit minute: '24' is 2:04. */
  lemma TwoDigitsAboveHour()
    ensures FromString("24", Mode24) == FromHour(Int(2), Int(4))
  {
    Reads("24", "24");
    assert SplitMeridiem("24") == (2, NoMeridiem);
  }
}
