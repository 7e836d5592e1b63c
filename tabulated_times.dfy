/** The input/output pairs the repository's tests tabulate, and inputs that
    reach each of the error branches. Inputs that pass the format check are
    written as their colon-separated parts joined by ":" (`"6" + ":" + "32"`
    is the input "6:32"); the inputs that fail the format check are written
    as single literals. Both spell the same string. */
module TabulatedTimes {
  import opened JavaLang
  import opened SpokenEnglish
  import opened SpokenEnglishProperties

  /** `Integer.parseInt` on two decimal digits. */
  lemma ParseTwoDigits(s: string)
    requires |s| == 2 && IsDigit(s[0]) && IsDigit(s[1])
    ensures ParseInt(s) == Some(DigitValue(s[0]) * 10 + DigitValue(s[1]))
  {
    assert s[0] != '-' && s[0] != '+';
    assert AllDigits(s);
    var t := s[..1];
    assert t == [s[0]] && t[..0] == [];
    assert DigitsValue(t) == DigitValue(s[0]);
  }

  /** `Integer.parseInt` on three decimal digits. */
  lemma ParseThreeDigits(s: string)
    requires |s| == 3 && IsDigit(s[0]) && IsDigit(s[1]) && IsDigit(s[2])
    ensures ParseInt(s) == Some(DigitValue(s[0]) * 100 + DigitValue(s[1]) * 10 + DigitValue(s[2]))
  {
    assert s[0] != '-' && s[0] != '+';
    assert AllDigits(s);
    var t := s[..2];
    var u := t[..1];
    assert u == [s[0]] && u[..0] == [] && t[1] == s[1];
    assert AllDigits(u) && AllDigits(t);
    assert DigitsValue(u) == DigitValue(s[0]);
    assert DigitsValue(t) == DigitValue(s[0]) * 10 + DigitValue(s[1]);
  }

  /** A string `hh:mm` with one colon, once the format check passes and both
      parts parse, ends in the range errors or in the joined words. */
  lemma OneColonTime(hh: string, mm: string, hour: int, minute: int)
    requires ':' !in hh && ':' !in mm && |mm| > 0
    requires ContainsClockTime(hh + ":" + mm)
    requires ParseInt(hh) == Some(hour) && ParseInt(mm) == Some(minute)
    ensures SpokenTime(Some(hh + ":" + mm)) ==
      if !(0 <= hour <= 12) then Threw(HourRangeError)
      else if !(0 <= minute <= 59) then Threw(MinuteRangeError)
      else Returned(JoinWords(Words(hour, minute)))
  {
    SplitTwoParts(hh, ':', mm);
    ParsedOutcome(hh + ":" + mm, hour, minute);
  }

  /** Splitting four colon-free parts joined by colons, the last non-empty,
      gives back the four parts. */
  lemma SplitFourParts(a: string, b: string, c: string, d: string)
    requires ':' !in a && ':' !in b && ':' !in c && ':' !in d && |d| > 0
    ensures Split(a + ":" + b + ":" + c + ":" + d, ':') == [a, b, c, d]
  {
    var s := a + ":" + b + ":" + c + ":" + d;
    var cd := c + [':'] + d;
    var bcd := b + [':'] + cd;
    assert s == a + [':'] + bcd;
    assert s[|a|] == ':';
    PiecesAppend(a, ':', bcd);
    PiecesAppend(b, ':', cd);
    PiecesAppend(c, ':', d);
    PiecesWithoutSeparator(a, ':');
    PiecesWithoutSeparator(b, ':');
    PiecesWithoutSeparator(c, ':');
    PiecesWithoutSeparator(d, ':');
    assert Pieces(s, ':') == [a, b, c, d];
  }

  lemma SpokenRow(hh: string, mm: string, hour: int, minute: int, spoken: string)
    requires ':' !in hh && ':' !in mm && |mm| > 0 && ContainsClockTime(hh + ":" + mm)
    requires ParseInt(hh) == Some(hour) && ParseInt(mm) == Some(minute)
    requires 0 <= hour <= 12 && 0 <= minute <= 59 && JoinWords(Words(hour, minute)) == spoken
    ensures SpokenTime(Some(hh + ":" + mm)) == Returned(spoken)
  {
    OneColonTime(hh, mm, hour, minute);
  }

  // The words of each happy-path row, each computed on its own.
  lemma RowWordsNoon() ensures JoinWords(Words(12, 45)) == "quarter to thirteen" { }
  lemma RowWords1() ensures JoinWords(Words(1, 0)) == "one o'clock" { }
  lemma RowWords2() ensures JoinWords(Words(2, 5)) == "five past two" { }
  lemma RowWords3() ensures JoinWords(Words(3, 11)) == "eleven past three" { }
  lemma RowWords4() ensures JoinWords(Words(4, 17)) == "seventeen past four" { }
  lemma RowWords5() ensures JoinWords(Words(5, 20)) == "twenty past five" { }
  lemma RowWords6() ensures JoinWords(Words(6, 25)) == "twenty five past six" { }
  lemma RowWords7() ensures JoinWords(Words(6, 32)) == "twenty eight to seven" { }
  lemma RowWords8() ensures JoinWords(Words(7, 30)) == "half past seven" { }
  lemma RowWords9() ensures JoinWords(Words(7, 35)) == "twenty five to eight" { }
  lemma RowWords10() ensures JoinWords(Words(8, 40)) == "twenty to nine" { }
  lemma RowWords11() ensures JoinWords(Words(9, 48)) == "twelve to ten" { }
  lemma RowWords12() ensures JoinWords(Words(10, 51)) == "nine to eleven" { }
  lemma RowWords13() ensures JoinWords(Words(11, 57)) == "three to twelve" { }
  lemma RowWords14() ensures JoinWords(Words(0, 0)) == "midnight" { }
  lemma RowWords15() ensures JoinWords(Words(0, 30)) == "half past twelve" { }
  lemma RowWords16() ensures JoinWords(Words(0, 46)) == "fourteen to one" { }
  lemma RowWords17() ensures JoinWords(Words(12, 15)) == "quarter past twelve" { }
  lemma RowWords18() ensures JoinWords(Words(12, 0)) == "noon" { }

  /** "1:00" is spoken "one o'clock". */
  lemma HappyPathRow1()
    ensures SpokenTime(Some("1" + ":" + "00")) == Returned("one o'clock")
  {
    var hh, mm := "1", "00";
    assert ClockCoreAt(hh + ":" + mm, 0);
    ParseTwoDigits(mm);
    RowWords1();
    SpokenRow(hh, mm, 1, 0, "one o'clock");
  }

  /** "2:05" is spoken "five past two". */
  lemma HappyPathRow2()
    ensures SpokenTime(Some("2" + ":" + "05")) == Returned("five past two")
  {
    var hh, mm := "2", "05";
    assert ClockCoreAt(hh + ":" + mm, 0);
    ParseTwoDigits(mm);
    RowWords2();
    SpokenRow(hh, mm, 2, 5, "five past two");
  }

  /** "3:11" is spoken "eleven past three". */
  lemma HappyPathRow3()
    ensures SpokenTime(Some("3" + ":" + "11")) == Returned("eleven past three")
  {
    var hh, mm := "3", "11";
    assert ClockCoreAt(hh + ":" + mm, 0);
    ParseTwoDigits(mm);
    RowWords3();
    SpokenRow(hh, mm, 3, 11, "eleven past three");
  }

  /** "4:17" is spoken "seventeen past four". */
  lemma HappyPathRow4()
    ensures SpokenTime(Some("4" + ":" + "17")) == Returned("seventeen past four")
  {
    var hh, mm := "4", "17";
    assert ClockCoreAt(hh + ":" + mm, 0);
    ParseTwoDigits(mm);
    RowWords4();
    SpokenRow(hh, mm, 4, 17, "seventeen past four");
  }

  /** "5:20" is spoken "twenty past five". */
  lemma HappyPathRow5()
    ensures SpokenTime(Some("5" + ":" + "20")) == Returned("twenty past five")
  {
    var hh, mm := "5", "20";
    assert ClockCoreAt(hh + ":" + mm, 0);
    ParseTwoDigits(mm);
    RowWords5();
    SpokenRow(hh, mm, 5, 20, "twenty past five");
  }

  /** "06:25" is spoken "twenty five past six". */
  lemma HappyPathRow6()
    ensures SpokenTime(Some("06" + ":" + "25")) == Returned("twenty five past six")
  {
    var hh, mm := "06", "25";
    assert ClockCoreAt(hh + ":" + mm, 1);
    ParseTwoDigits(hh);
    ParseTwoDigits(mm);
    RowWords6();
    SpokenRow(hh, mm, 6, 25, "twenty five past six");
  }

  /** "6:32" is spoken "twenty eight to seven". */
  lemma HappyPathRow7()
    ensures SpokenTime(Some("6" + ":" + "32")) == Returned("twenty eight to seven")
  {
    var hh, mm := "6", "32";
    assert ClockCoreAt(hh + ":" + mm, 0);
    ParseTwoDigits(mm);
    RowWords7();
    SpokenRow(hh, mm, 6, 32, "twenty eight to seven");
  }

  /** "7:30" is spoken "half past seven". */
  lemma HappyPathRow8()
    ensures SpokenTime(Some("7" + ":" + "30")) == Returned("half past seven")
  {
    var hh, mm := "7", "30";
    assert ClockCoreAt(hh + ":" + mm, 0);
    ParseTwoDigits(mm);
    RowWords8();
    SpokenRow(hh, mm, 7, 30, "half past seven");
  }

  /** "7:35" is spoken "twenty five to eight". */
  lemma HappyPathRow9()
    ensures SpokenTime(Some("7" + ":" + "35")) == Returned("twenty five to eight")
  {
    var hh, mm := "7", "35";
    assert ClockCoreAt(hh + ":" + mm, 0);
    ParseTwoDigits(mm);
    RowWords9();
    SpokenRow(hh, mm, 7, 35, "twenty five to eight");
  }

  /** "08:40" is spoken "twenty to nine". */
  lemma HappyPathRow10()
    ensures SpokenTime(Some("08" + ":" + "40")) == Returned("twenty to nine")
  {
    var hh, mm := "08", "40";
    assert ClockCoreAt(hh + ":" + mm, 1);
    ParseTwoDigits(hh);
    ParseTwoDigits(mm);
    RowWords10();
    SpokenRow(hh, mm, 8, 40, "twenty to nine");
  }

  /** "9:48" is spoken "twelve to ten". */
  lemma HappyPathRow11()
    ensures SpokenTime(Some("9" + ":" + "48")) == Returned("twelve to ten")
  {
    var hh, mm := "9", "48";
    assert ClockCoreAt(hh + ":" + mm, 0);
    ParseTwoDigits(mm);
    RowWords11();
    SpokenRow(hh, mm, 9, 48, "twelve to ten");
  }

  /** "10:51" is spoken "nine to eleven". */
  lemma HappyPathRow12()
    ensures SpokenTime(Some("10" + ":" + "51")) == Returned("nine to eleven")
  {
    var hh, mm := "10", "51";
    assert ClockCoreAt(hh + ":" + mm, 1);
    ParseTwoDigits(hh);
    ParseTwoDigits(mm);
    RowWords12();
    SpokenRow(hh, mm, 10, 51, "nine to eleven");
  }

  /** "11:57" is spoken "three to twelve". */
  lemma HappyPathRow13()
    ensures SpokenTime(Some("11" + ":" + "57")) == Returned("three to twelve")
  {
    var hh, mm := "11", "57";
    assert ClockCoreAt(hh + ":" + mm, 1);
    ParseTwoDigits(hh);
    ParseTwoDigits(mm);
    RowWords13();
    SpokenRow(hh, mm, 11, 57, "three to twelve");
  }

  /** "00:00" is spoken "midnight". */
  lemma HappyPathRow14()
    ensures SpokenTime(Some("00" + ":" + "00")) == Returned("midnight")
  {
    var hh, mm := "00", "00";
    assert ClockCoreAt(hh + ":" + mm, 1);
    ParseTwoDigits(hh);
    ParseTwoDigits(mm);
    RowWords14();
    SpokenRow(hh, mm, 0, 0, "midnight");
  }

  /** "00:30" is spoken "half past twelve". */
  lemma HappyPathRow15()
    ensures SpokenTime(Some("00" + ":" + "30")) == Returned("half past twelve")
  {
    var hh, mm := "00", "30";
    assert ClockCoreAt(hh + ":" + mm, 1);
    ParseTwoDigits(hh);
    ParseTwoDigits(mm);
    RowWords15();
    SpokenRow(hh, mm, 0, 30, "half past twelve");
  }

  /** "00:46" is spoken "fourteen to one". */
  lemma HappyPathRow16()
    ensures SpokenTime(Some("00" + ":" + "46")) == Returned("fourteen to one")
  {
    var hh, mm := "00", "46";
    assert ClockCoreAt(hh + ":" + mm, 1);
    ParseTwoDigits(hh);
    ParseTwoDigits(mm);
    RowWords16();
    SpokenRow(hh, mm, 0, 46, "fourteen to one");
  }

  /** "12:15" is spoken "quarter past twelve". */
  lemma HappyPathRow17()
    ensures SpokenTime(Some("12" + ":" + "15")) == Returned("quarter past twelve")
  {
    var hh, mm := "12", "15";
    assert ClockCoreAt(hh + ":" + mm, 1);
    ParseTwoDigits(hh);
    ParseTwoDigits(mm);
    RowWords17();
    SpokenRow(hh, mm, 12, 15, "quarter past twelve");
  }

  /** "12:00" is spoken "noon". */
  lemma HappyPathRow18()
    ensures SpokenTime(Some("12" + ":" + "00")) == Returned("noon")
  {
    var hh, mm := "12", "00";
    assert ClockCoreAt(hh + ":" + mm, 1);
    ParseTwoDigits(hh);
    ParseTwoDigits(mm);
    RowWords18();
    SpokenRow(hh, mm, 12, 0, "noon");
  }

  /** "13:25" passes the format check but fails the hour range check. */
  lemma HourOutOfBoundsRow1()
    ensures SpokenTime(Some("13" + ":" + "25")) == Threw(HourRangeError)
  {
    var hh, mm := "13", "25";
    assert ClockCoreAt(hh + ":" + mm, 1);
    ParseTwoDigits(hh);
    ParseTwoDigits(mm);
    OneColonTime(hh, mm, 13, 25);
  }

  /** "21:13" passes the format check but fails the hour range check. */
  lemma HourOutOfBoundsRow2()
    ensures SpokenTime(Some("21" + ":" + "13")) == Threw(HourRangeError)
  {
    var hh, mm := "21", "13";
    assert ClockCoreAt(hh + ":" + mm, 1);
    ParseTwoDigits(hh);
    ParseTwoDigits(mm);
    OneColonTime(hh, mm, 21, 13);
  }

  /** "-3:03" passes the format check but fails the hour range check. */
  lemma HourOutOfBoundsRow3()
    ensures SpokenTime(Some("-3" + ":" + "03")) == Threw(HourRangeError)
  {
    var hh, mm := "-3", "03";
    assert ClockCoreAt(hh + ":" + mm, 1);
    ParseTwoDigits(mm);
    OneColonTime(hh, mm, -3, 3);
  }

  /** "212:12" passes the format check but fails the hour range check. */
  lemma HourOutOfBoundsRow4()
    ensures SpokenTime(Some("212" + ":" + "12")) == Threw(HourRangeError)
  {
    var hh, mm := "212", "12";
    assert ClockCoreAt(hh + ":" + mm, 2);
    ParseThreeDigits(hh);
    ParseTwoDigits(mm);
    OneColonTime(hh, mm, 212, 12);
  }

  /** "12:75" fails the format check. */
  lemma MinutesOutOfBoundsRow1()
    ensures SpokenTime(Some("12:75")) == Threw(FormatError)
  {
    var s := "12:75";
    forall i | 0 <= i < |s| ensures !ClockCoreAt(s, i) { }
    FormatErrorIff(Some(s));
  }

  /** "2:99" fails the format check. */
  lemma MinutesOutOfBoundsRow2()
    ensures SpokenTime(Some("2:99")) == Threw(FormatError)
  {
    var s := "2:99";
    forall i | 0 <= i < |s| ensures !ClockCoreAt(s, i) { }
    FormatErrorIff(Some(s));
  }

  /** "05:-4" fails the format check. */
  lemma MinutesOutOfBoundsRow3()
    ensures SpokenTime(Some("05:-4")) == Threw(FormatError)
  {
    var s := "05:-4";
    forall i | 0 <= i < |s| ensures !ClockCoreAt(s, i) { }
    FormatErrorIff(Some(s));
  }

  /** "Garbage" fails the format check. */
  lemma MinutesOutOfBoundsRow4()
    ensures SpokenTime(Some("Garbage")) == Threw(FormatError)
  {
    var s := "Garbage";
    forall i | 0 <= i < |s| ensures !ClockCoreAt(s, i) { }
    FormatErrorIff(Some(s));
  }

  /** "03/14" fails the format check. */
  lemma MinutesOutOfBoundsRow5()
    ensures SpokenTime(Some("03/14")) == Threw(FormatError)
  {
    var s := "03/14";
    forall i | 0 <= i < |s| ensures !ClockCoreAt(s, i) { }
    FormatErrorIff(Some(s));
  }

  /** A `null` argument fails the format check. */
  lemma NullInput()
    ensures SpokenTime(None) == Threw(FormatError)
  {
  }

  /** "a1:30" holds the clock time "1:30", so the format check passes, and
      its first segment "a1" is no `int` literal: the parse error is thrown,
      naming the whole input. */
  lemma ParseErrorRow()
    ensures SpokenTime(Some("a1" + ":" + "30")) == Threw(ParseError("a1" + ":" + "30"))
  {
    var hh, mm := "a1", "30";
    var time := hh + ":" + mm;
    assert ClockCoreAt(time, 1);
    SplitTwoParts(hh, ':', mm);
    assert ParseInt(hh).None?;
    ParseErrorIff(time);
  }

  /** "1:305" holds the clock time "1:30" and both segments parse, so the
      minute range check is what rejects it. */
  lemma MinuteRangeErrorRow1()
    ensures SpokenTime(Some("1" + ":" + "305")) == Threw(MinuteRangeError)
  {
    var hh, mm := "1", "305";
    assert ClockCoreAt(hh + ":" + mm, 0);
    ParseThreeDigits(mm);
    OneColonTime(hh, mm, 1, 305);
  }

  /** "1:-5:1:30" holds the clock time "1:30" near its end; its first two
      segments are the hour 1 and the minute -5, which the minute range check
      rejects. */
  lemma MinuteRangeErrorRow2()
    ensures SpokenTime(Some("1" + ":" + "-5" + ":" + "1" + ":" + "30")) == Threw(MinuteRangeError)
  {
    var time := "1" + ":" + "-5" + ":" + "1" + ":" + "30";
    assert ClockCoreAt(time, 5);
    SplitFourParts("1", "-5", "1", "30");
    ParsedOutcome(time, 1, -5);
  }

  /** Past half past twelve the next hour is spoken as "thirteen": no wrap to
      "one" is made. */
  lemma NoonHourNotWrapped()
    ensures SpokenTime(Some("12" + ":" + "45")) == Returned("quarter to thirteen")
  {
    var hh, mm := "12", "45";
    assert ClockCoreAt(hh + ":" + mm, 1);
    ParseTwoDigits(hh);
    ParseTwoDigits(mm);
    RowWordsNoon();
    SpokenRow(hh, mm, 12, 45, "quarter to thirteen");
  }
}
