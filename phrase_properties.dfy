/** What `convertToSpokenTime` returns, stated against an independent
    description of the phrase: a list of words joined by single spaces. */
module SpokenEnglishProperties {
  import opened JavaLang
  import opened SpokenEnglish

  // ---------------------------------------------------------------------------
  // The phrase as a list of words
  // ---------------------------------------------------------------------------

  /** A non-empty run of characters without a space. */
  predicate IsWord(w: string) {
    |w| > 0 && forall i :: 0 <= i < |w| ==> w[i] != ' '
  }

  predicate AllWords(ws: seq<string>) {
    forall k :: 0 <= k < |ws| ==> IsWord(ws[k])
  }

  /** The words separated by exactly one space. */
  function JoinWords(ws: seq<string>): string
    requires |ws| > 0
    decreases |ws|
  {
    if |ws| == 1 then ws[0] else ws[0] + " " + JoinWords(ws[1..])
  }

  /** The words for a number of minutes in 1..30: "quarter" for 15, "half"
      for 30, "twenty" and "twenty <n>" for 20..29, otherwise its name. */
  function MinuteWords(m: int): seq<string>
    requires 1 <= m <= 30
  {
    if m == 30 then ["half"]
    else if m == 15 then ["quarter"]
    else if m == 20 then ["twenty"]
    else if m > 20 then ["twenty", NumberNames[m - 20]]
    else [NumberNames[m]]
  }

  /** The word for an hour 0..13 spoken after "past" or "to"; 0 is "twelve". */
  function HourWord(h: int): string
    requires 0 <= h <= 13
  {
    if h == 0 then "twelve" else NumberNames[h]
  }

  /** The words of the phrase for a validated time. */
  function Words(hour: int, minute: int): seq<string>
    requires 0 <= hour <= 12 && 0 <= minute <= 59
  {
    if minute == 0 then
      if hour == 12 then ["noon"]
      else if hour == 0 then ["midnight"]
      else [NumberNames[hour], "o'clock"]
    else if minute <= 30 then MinuteWords(minute) + ["past", HourWord(hour)]
    else MinuteWords(60 - minute) + ["to", HourWord(hour + 1)]
  }

  // ---------------------------------------------------------------------------
  // Joining words
  // ---------------------------------------------------------------------------

  lemma NoDoubleSpaceAppend(a: string, b: string)
    requires NoDoubleSpace(a) && NoDoubleSpace(b)
    requires |a| == 0 || |b| == 0 || a[|a| - 1] != ' ' || b[0] != ' '
    ensures NoDoubleSpace(a + b)
  {
    var s := a + b;
    forall i | 0 <= i < |s| - 1
      ensures s[i] != ' ' || s[i + 1] != ' '
    {
      if i + 1 < |a| {
        assert s[i] == a[i] && s[i + 1] == a[i + 1];
      } else if i >= |a| {
        assert s[i] == b[i - |a|] && s[i + 1] == b[i + 1 - |a|];
      }
    }
  }

  lemma WordIsClean(w: string)
    requires IsWord(w)
    ensures NoDoubleSpace(w) && w[0] != ' ' && w[|w| - 1] != ' '
  {
  }

  /** Words joined by single spaces never hold a double space, and neither
      begin nor end with a space. */
  lemma {:induction false} JoinWordsClean(ws: seq<string>)
    requires |ws| > 0 && AllWords(ws)
    ensures var s := JoinWords(ws);
      |s| > 0 && NoDoubleSpace(s) && s[0] != ' ' && s[|s| - 1] != ' '
    decreases |ws|
  {
    WordIsClean(ws[0]);
    if |ws| > 1 {
      assert AllWords(ws[1..]) by {
        forall k | 0 <= k < |ws[1..]| ensures IsWord(ws[1..][k]) {
          assert ws[1..][k] == ws[k + 1];
        }
      }
      JoinWordsClean(ws[1..]);
      var rest := JoinWords(ws[1..]);
      NoDoubleSpaceAppend(ws[0], " ");
      NoDoubleSpaceAppend(ws[0] + " ", rest);
      assert JoinWords(ws) == ws[0] + " " + rest;
    }
  }

  /** Joining two lists is joining their joins with one space. */
  lemma {:induction false} JoinWordsAppend(a: seq<string>, b: seq<string>)
    requires |a| > 0 && |b| > 0
    ensures JoinWords(a + b) == JoinWords(a) + " " + JoinWords(b)
    decreases |a|
  {
    if |a| == 1 {
      assert (a + b)[1..] == b;
    } else {
      assert (a + b)[1..] == a[1..] + b;
      JoinWordsAppend(a[1..], b);
    }
  }

  // ---------------------------------------------------------------------------
  // The tables
  // ---------------------------------------------------------------------------

  /** Every number name but the placeholder at 0 is a word. */
  lemma NumberNamesAreWords(i: int)
    requires 1 <= i < 20
    ensures IsWord(NumberNames[i])
  {
  }

  /** What `minutesToSpokenEnglish` appends is the join of the minute words,
      followed by one stray space exactly when the ones digit is 0 (20 and
      30), where the empty `numberNames[0]` is appended after a space. */
  lemma MinutePhraseWords(m: int)
    requires 1 <= m <= 30
    ensures AllWords(MinuteWords(m))
    ensures m != 20 && m != 30 ==> MinutePhrase(m) == JoinWords(MinuteWords(m))
    ensures m == 20 || m == 30 ==> MinutePhrase(m) == JoinWords(MinuteWords(m)) + " "
  {
    if m < 20 {
      NumberNamesAreWords(m);
    } else if 20 < m < 30 {
      assert m / 10 == 2 && m % 10 == m - 20;
      NumberNamesAreWords(m - 20);
      assert MinuteWords(m)[1..] == [NumberNames[m - 20]];
    } else if m == 20 {
      assert MinutePhrase(m) == "twenty" + " " + "";
    } else {
      assert MinutePhrase(m) == "half" + " " + "";
    }
  }

  lemma AllWordsAppend(a: seq<string>, b: seq<string>)
    requires AllWords(a) && AllWords(b)
    ensures AllWords(a + b)
  {
    var ws := a + b;
    forall k | 0 <= k < |ws| ensures IsWord(ws[k]) {
      if k < |a| { assert ws[k] == a[k]; } else { assert ws[k] == b[k - |a|]; }
    }
  }

  /** A word, a stray double space and clean text: `replace("  ", " ")`
      leaves one space between them. */
  lemma ReplaceStraySpace(word: string, rest: string)
    requires IsWord(word) && NoDoubleSpace(rest)
    ensures ReplaceDoubleSpaces(word + " " + " " + rest) == word + " " + rest
  {
    WordIsClean(word);
    var spaced := " " + " " + rest;
    ConcatRegroup3(word, " ", " ", rest);
    ReplaceCleanPrefix(word, spaced);
    assert spaced[2..] == rest;
    ReplaceKeepsClean(rest);
  }

  /** The words of the phrase: the minute words, the connector and the hour
      word, joined as the minute words' join, a space and the tail's join. */
  lemma JoinMinuteAndTail(mw: seq<string>, connector: string, hourWord: string)
    requires |mw| > 0 && AllWords(mw) && IsWord(connector) && IsWord(hourWord)
    ensures AllWords(mw + [connector, hourWord])
    ensures JoinWords(mw + [connector, hourWord]) == JoinWords(mw) + " " + (connector + " " + hourWord)
    ensures NoDoubleSpace(connector + " " + hourWord)
  {
    var tail := [connector, hourWord];
    AllWordsAppend(mw, tail);
    JoinWordsAppend(mw, tail);
    assert JoinWords(tail) == connector + " " + hourWord;
    JoinWordsClean(tail);
  }

  /** Minute text that is the join of its words, or a single word followed by
      one stray space, then a connector and an hour word: after
      `replace("  ", " ")` this is exactly the join of all the words. */
  lemma ReplaceJoinsParts(minuteText: string, mw: seq<string>, connector: string, hourWord: string)
    requires |mw| > 0 && AllWords(mw) && IsWord(connector) && IsWord(hourWord)
    requires minuteText == JoinWords(mw) || (|mw| == 1 && minuteText == mw[0] + " ")
    ensures AllWords(mw + [connector, hourWord])
    ensures ReplaceDoubleSpaces(minuteText + " " + connector + " " + hourWord)
         == JoinWords(mw + [connector, hourWord])
  {
    JoinMinuteAndTail(mw, connector, hourWord);
    var joinedTail := connector + " " + hourWord;
    ConcatRegroup(minuteText, " ", connector, " ", hourWord);
    if minuteText == JoinWords(mw) {
      JoinWordsClean(mw + [connector, hourWord]);
      ReplaceKeepsClean(JoinWords(mw + [connector, hourWord]));
    } else {
      assert JoinWords(mw) == mw[0];
      ReplaceStraySpace(mw[0], joinedTail);
    }
  }

  /** The text appended by `appendWithSpokenTime` for a spoken minute `sm`, a
      connector and an hour word becomes, after `replace("  ", " ")`, exactly
      the join of their words. */
  lemma SpokenPartsWords(sm: int, connector: string, hourWord: string)
    requires 1 <= sm <= 30 && IsWord(connector) && IsWord(hourWord)
    ensures AllWords(MinuteWords(sm) + [connector, hourWord])
    ensures ReplaceDoubleSpaces(MinutePhrase(sm) + " " + connector + " " + hourWord)
         == JoinWords(MinuteWords(sm) + [connector, hourWord])
  {
    MinutePhraseWords(sm);
    ReplaceJoinsParts(MinutePhrase(sm), MinuteWords(sm), connector, hourWord);
  }

  /** Joining minute words, a connector and an hour word. */
  lemma JoinWithConnector(mw: seq<string>, connector: string, hourWord: string)
    requires |mw| > 0
    ensures JoinWords(mw + [connector, hourWord]) == JoinWords(mw) + (" " + connector + " ") + hourWord
  {
    JoinWordsAppend(mw, [connector, hourWord]);
    var joined := JoinWords(mw);
    assert JoinWords([connector, hourWord]) == connector + " " + hourWord;
    ConcatRegroup(joined, " ", connector, " ", hourWord);
    ConcatRegroupMiddle(joined, " ", connector, " ", hourWord);
  }

  lemma JoinTwoWords(a: string, b: string)
    ensures JoinWords([a, b]) == a + " " + b
  {
    assert [a, b][1..] == [b];
  }

  // ---------------------------------------------------------------------------
  // The phrase
  // ---------------------------------------------------------------------------

  /** For every validated hour and minute the phrase returned is the join of
      `Words`: the double space the empty table entry leaves behind for 20
      and 30 minutes is always removed. */
  lemma {:induction false} SpokenPhraseIsWords(hour: int, minute: int)
    requires 0 <= hour <= 12 && 0 <= minute <= 59
    ensures AllWords(Words(hour, minute))
    ensures SpokenPhrase(hour, minute) == JoinWords(Words(hour, minute))
  {
    if minute == 0 {
      if hour != 12 && hour != 0 {
        NumberNamesAreWords(hour);
        assert SpecialCasePhrase(hour) == NumberNames[hour] + " " + "o'clock";
      }
      JoinWordsClean(Words(hour, minute));
      ReplaceKeepsClean(JoinWords(Words(hour, minute)));
    } else {
      var sm := SpokenMinute(minute);
      var sh := SpokenHour(hour, minute);
      var connector := Connector(minute);
      NumberNamesAreWords(sh);
      assert NumberNames[sh] == HourWord(if minute <= 30 then hour else hour + 1);
      SpokenPartsWords(sm, connector, NumberNames[sh]);
    }
  }

  /** Every phrase returned is non-empty, holds no double space and neither
      begins nor ends with a space. */
  lemma SpokenPhraseClean(hour: int, minute: int)
    requires 0 <= hour <= 12 && 0 <= minute <= 59
    ensures var s := SpokenPhrase(hour, minute);
      |s| > 0 && NoDoubleSpace(s) && s[0] != ' ' && s[|s| - 1] != ' '
  {
    SpokenPhraseIsWords(hour, minute);
    JoinWordsClean(Words(hour, minute));
  }

  /** On the hour: "noon", "midnight" or "<hour> o'clock". */
  lemma OnTheHour(hour: int)
    requires 0 <= hour <= 12
    ensures SpokenPhrase(hour, 0) ==
      if hour == 12 then "noon" else if hour == 0 then "midnight" else NumberNames[hour] + " o'clock"
  {
    SpokenPhraseIsWords(hour, 0);
    OnTheHourWords(hour);
  }

  lemma OnTheHourWords(hour: int)
    requires 0 <= hour <= 12
    ensures JoinWords(Words(hour, 0)) ==
      if hour == 12 then "noon" else if hour == 0 then "midnight" else NumberNames[hour] + " o'clock"
  {
    if hour != 12 && hour != 0 {
      var name := NumberNames[hour];
      assert Words(hour, 0) == [name, "o'clock"];
      JoinTwoWords(name, "o'clock");
      ConcatRegroup3(name, " ", "o'clock", "");
      assert " " + "o'clock" + "" == " o'clock";
    }
  }

  /** A phrase on the hour is the join of words among which neither "past"
      nor "to" occurs. */
  lemma OnTheHourNoConnector(hour: int)
    requires 0 <= hour <= 12
    ensures SpokenPhrase(hour, 0) == JoinWords(Words(hour, 0))
    ensures "past" !in Words(hour, 0) && "to" !in Words(hour, 0)
  {
    SpokenPhraseIsWords(hour, 0);
    OnTheHourWordsNoConnector(hour);
  }

  lemma OnTheHourWordsNoConnector(hour: int)
    requires 0 <= hour <= 12
    ensures "past" !in Words(hour, 0) && "to" !in Words(hour, 0)
  {
    if hour != 12 && hour != 0 {
      var name := NumberNames[hour];
      assert Words(hour, 0) == [name, "o'clock"];
      assert name != "past" && name != "to";
    }
  }

  /** Minutes 1..30 are spoken "past" the hour, with hour 0 read as twelve. */
  lemma PastTheHour(hour: int, minute: int)
    requires 0 <= hour <= 12 && 1 <= minute <= 30
    ensures SpokenPhrase(hour, minute) ==
      JoinWords(MinuteWords(minute)) + " past " + (if hour == 0 then "twelve" else NumberNames[hour])
  {
    SpokenPhraseIsWords(hour, minute);
    PastTheHourWords(hour, minute);
  }

  lemma PastTheHourWords(hour: int, minute: int)
    requires 0 <= hour <= 12 && 1 <= minute <= 30
    ensures JoinWords(Words(hour, minute)) ==
      JoinWords(MinuteWords(minute)) + " past " + (if hour == 0 then "twelve" else NumberNames[hour])
  {
    var mw, hw := MinuteWords(minute), HourWord(hour);
    assert Words(hour, minute) == mw + ["past", hw];
    JoinWithConnector(mw, "past", hw);
    assert " " + "past" + " " == " past ";
  }

  /** Minutes 31..59 are spoken as the minutes still "to" go until hour + 1;
      the code never wraps, so 12:31..12:59 are spoken "to thirteen". */
  lemma ToTheNextHour(hour: int, minute: int)
    requires 0 <= hour <= 12 && 31 <= minute <= 59
    ensures SpokenPhrase(hour, minute) ==
      JoinWords(MinuteWords(60 - minute)) + " to " + NumberNames[hour + 1]
    ensures hour == 12 ==> NumberNames[hour + 1] == "thirteen"
  {
    SpokenPhraseIsWords(hour, minute);
    ToTheNextHourWords(hour, minute);
  }

  lemma ToTheNextHourWords(hour: int, minute: int)
    requires 0 <= hour <= 12 && 31 <= minute <= 59
    ensures JoinWords(Words(hour, minute)) ==
      JoinWords(MinuteWords(60 - minute)) + " to " + NumberNames[hour + 1]
  {
    var mw, hw := MinuteWords(60 - minute), HourWord(hour + 1);
    assert Words(hour, minute) == mw + ["to", hw];
    JoinWithConnector(mw, "to", hw);
    assert " " + "to" + " " == " to ";
    assert hw == NumberNames[hour + 1];
  }

  /** For every validated time off the hour, `minutesToSpokenEnglish` is
      given a minute count in 1..30, whose tens digit names at most "half",
      and the hour looked up is among 1..13. */
  lemma SpokenIndicesInRange(hour: int, minute: int)
    requires 0 <= hour <= 12 && 1 <= minute <= 59
    ensures 1 <= SpokenMinute(minute) <= 30
    ensures SpokenMinute(minute) >= 20 ==> 2 <= SpokenMinute(minute) / 10 <= 3
    ensures 1 <= SpokenHour(hour, minute) <= 13
    ensures SpokenTimeInBounds(hour, minute)
  {
  }

  /** Fifteen minutes past the hour is "quarter past". */
  lemma QuarterPast(hour: int)
    requires 0 <= hour <= 12
    ensures SpokenPhrase(hour, 15) == "quarter past " + HourWord(hour)
  {
    PastTheHour(hour, 15);
    assert JoinWords(MinuteWords(15)) + " past " == "quarter past ";
  }

  /** Thirty minutes past the hour is "half past". */
  lemma HalfPast(hour: int)
    requires 0 <= hour <= 12
    ensures SpokenPhrase(hour, 30) == "half past " + HourWord(hour)
  {
    PastTheHour(hour, 30);
    assert JoinWords(MinuteWords(30)) + " past " == "half past ";
  }

  /** Forty-five minutes past the hour is "quarter to" the next one. */
  lemma QuarterTo(hour: int)
    requires 0 <= hour <= 12
    ensures SpokenPhrase(hour, 45) == "quarter to " + NumberNames[hour + 1]
  {
    ToTheNextHour(hour, 45);
    assert JoinWords(MinuteWords(15)) + " to " == "quarter to ";
  }

  // ---------------------------------------------------------------------------
  // convertToSpokenTime
  // ---------------------------------------------------------------------------

  /** The format error is thrown exactly for `null` and for strings in which no
      clock time `d:dd` occurs, before anything is parsed. */
  lemma FormatErrorIff(time: Option<string>)
    ensures SpokenTime(time) == Threw(FormatError) <==>
      time.None? || !ContainsClockTime(time.value)
  {
  }

  /** Once the format check passes, the parse error is thrown exactly when the
      first or the second `:`-separated segment is no `int` literal. */
  lemma ParseErrorIff(time: string)
    requires ContainsClockTime(time)
    ensures SpokenTime(Some(time)) == Threw(ParseError(time)) <==>
      ParseInt(SplitTime(time)[0]).None? || ParseInt(SplitTime(time)[1]).None?
  {
  }

  /** Once both segments parse, the hour is range-checked first, then the
      minute, and a time within range is spoken as the join of its words. */
  lemma ParsedOutcome(time: string, hour: int, minute: int)
    requires ContainsClockTime(time)
    requires ParseInt(SplitTime(time)[0]) == Some(hour)
    requires ParseInt(SplitTime(time)[1]) == Some(minute)
    ensures !(0 <= hour <= 12) ==> SpokenTime(Some(time)) == Threw(HourRangeError)
    ensures 0 <= hour <= 12 && !(0 <= minute <= 59) ==> SpokenTime(Some(time)) == Threw(MinuteRangeError)
    ensures 0 <= hour <= 12 && 0 <= minute <= 59 ==>
      AllWords(Words(hour, minute)) && SpokenTime(Some(time)) == Returned(JoinWords(Words(hour, minute)))
  {
    if 0 <= hour <= 12 && 0 <= minute <= 59 {
      SpokenPhraseIsWords(hour, minute);
    }
  }

  /** Whatever string `convertToSpokenTime` returns is non-empty, holds no
      double space and neither begins nor ends with a space. */
  lemma ReturnedPhraseClean(time: Option<string>)
    requires SpokenTime(time).Returned?
    ensures var s := SpokenTime(time).value;
      |s| > 0 && NoDoubleSpace(s) && s[0] != ' ' && s[|s| - 1] != ' '
  {
    var segments := SplitTime(time.value);
    var hour, minute := ParseInt(segments[0]).value, ParseInt(segments[1]).value;
    SpokenPhraseClean(hour, minute);
  }
}
