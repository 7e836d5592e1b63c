/** `ToSpokenEnglishConverter`: turns a 12-hour clock time such as "6:32" into
    the spoken English phrase "twenty eight to seven".

    The checks and the split are functions. The helpers that append to the
    shared `StringBuilder` are methods that append piece by piece as the Java
    code does; each method's contract ties the builder's new text to a
    function saying what the helper appends. `ConvertToSpokenTime` runs the
    steps in order, and its contract ties its outcome to `SpokenTime`. */
module SpokenEnglish {
  import opened JavaLang

  // ---------------------------------------------------------------------------
  // The two lookup tables
  // ---------------------------------------------------------------------------

  /** Index 0 is the empty placeholder; index 15 is "quarter", not "fifteen". */
  const NumberNames: seq<string> := [
    "", "one", "two", "three", "four", "five", "six", "seven", "eight", "nine",
    "ten", "eleven", "twelve", "thirteen", "fourteen", "quarter", "sixteen",
    "seventeen", "eighteen", "nineteen"
  ]

  /** Names of the tens digit; 3 is "half" rather than "thirty". */
  const TensDigitsNames: seq<string> := ["", "ten", "twenty", "half"]

  // ---------------------------------------------------------------------------
  // Exceptions and results
  // ---------------------------------------------------------------------------

  /** The two Java exception classes thrown (NumberFormatException is a
      subclass of IllegalArgumentException). */
  datatype ExceptionKind = IllegalArgument | NumberFormat

  datatype Exception = Exception(kind: ExceptionKind, message: string)

  /** What a call of `convertToSpokenTime` ends in. */
  datatype Outcome = Returned(value: string) | Threw(exc: Exception)

  /** What a `validate...` helper ends in: it returns normally or throws. */
  datatype Check = Pass | Fail(exc: Exception)

  const FormatError: Exception :=
    Exception(IllegalArgument, "Only 12 hour clock time in format of HH:MM is accepted as input.")

  const HourRangeError: Exception :=
    Exception(IllegalArgument, "Incorrect hour, it needs to be between 0-12")

  const MinuteRangeError: Exception :=
    Exception(IllegalArgument, "Incorrect minutes, it needs to be between 0-59")

  function ParseError(time: string): Exception {
    Exception(NumberFormat, "Incorrect input format: " + time + ", only accepted formats are HH:MM or H:MM")
  }

  // ---------------------------------------------------------------------------
  // validateInput: the pattern [0,1]?[0-9]:[0-5][0-9], searched with find()
  // ---------------------------------------------------------------------------

  /** `[0-9]:[0-5][0-9]` matches the four characters starting at `i`. */
  predicate ClockCoreAt(s: string, i: int) {
    0 <= i && i + 4 <= |s| &&
    IsDigit(s[i]) && s[i + 1] == ':' && '0' <= s[i + 2] <= '5' && IsDigit(s[i + 3])
  }

  /** The whole pattern `[0,1]?[0-9]:[0-5][0-9]` matches starting at `i`; the
      optional class holds the three characters '0', ',' and '1'. */
  predicate PatternMatchAt(s: string, i: int) {
    ClockCoreAt(s, i) ||
    (0 <= i < |s| && (s[i] == '0' || s[i] == ',' || s[i] == '1') && ClockCoreAt(s, i + 1))
  }

  /** `Matcher.find()`: some substring of `s` matches the pattern. */
  predicate PatternFound(s: string) {
    exists i :: 0 <= i < |s| && PatternMatchAt(s, i)
  }

  /** Some four characters of `s` read as a clock time `d:dd`. */
  predicate ContainsClockTime(s: string) {
    exists i :: 0 <= i < |s| && ClockCoreAt(s, i)
  }

  /** Because `find` searches instead of matching the whole string, the
      optional leading class never changes whether the pattern is found. */
  lemma FindIgnoresOptionalClass(s: string)
    ensures PatternFound(s) <==> ContainsClockTime(s)
  {
    if PatternFound(s) {
      var i :| 0 <= i < |s| && PatternMatchAt(s, i);
      if !ClockCoreAt(s, i) {
        assert 0 <= i + 1 < |s| && ClockCoreAt(s, i + 1);
      }
    }
    if ContainsClockTime(s) {
      var i :| 0 <= i < |s| && ClockCoreAt(s, i);
      assert PatternMatchAt(s, i);
    }
  }

  /** `validateInput(time)`: throws the format error for `null` and for every
      string in which no clock time `d:dd` occurs. */
  function ValidateInput(time: Option<string>): (r: Check)
    ensures r == Pass <==> time.Some? && ContainsClockTime(time.value)
    ensures r != Pass ==> r == Fail(FormatError)
  {
    if time.None? then Fail(FormatError)
    else
      FindIgnoresOptionalClass(time.value);
      if !PatternFound(time.value) then Fail(FormatError) else Pass
  }

  // ---------------------------------------------------------------------------
  // split(":") and parseInt
  // ---------------------------------------------------------------------------

  /** The colon of the clock time is followed by a digit, so splitting on ':'
      a string that passed `validateInput` yields at least two segments. */
  lemma ClockTimeSplitsInTwo(time: string)
    requires ContainsClockTime(time)
    ensures |Split(time, ':')| >= 2
  {
    var i :| 0 <= i < |time| && ClockCoreAt(time, i);
    SplitAtLeastTwo(time, ':', i + 1);
  }

  /** `time.split(":")` on a string that passed `validateInput`: there are
      always at least two segments, so `hourAndMinutes[1]` exists. */
  function SplitTime(time: string): (segments: seq<string>)
    requires ContainsClockTime(time)
    ensures |segments| >= 2
    ensures forall k :: 0 <= k < |segments| ==> ':' !in segments[k]
  {
    ClockTimeSplitsInTwo(time);
    Split(time, ':')
  }

  // ---------------------------------------------------------------------------
  // validateRangeOfInput
  // ---------------------------------------------------------------------------

  /** `validateRangeOfInput(hour, minute)`: the hour is checked first. */
  function ValidateRangeOfInput(hour: int, minute: int): (r: Check)
    ensures r == Pass <==> 0 <= hour <= 12 && 0 <= minute <= 59
    ensures !(0 <= hour <= 12) ==> r == Fail(HourRangeError)
    ensures 0 <= hour <= 12 && !(0 <= minute <= 59) ==> r == Fail(MinuteRangeError)
  {
    if hour < 0 || hour > 12 then Fail(HourRangeError)
    else if minute < 0 || minute > 59 then Fail(MinuteRangeError)
    else Pass
  }

  // ---------------------------------------------------------------------------
  // The phrase, as functions
  // ---------------------------------------------------------------------------

  /** What `minutesToSpokenEnglish` appends. `Math.floor(minute / 10.)` is
      integer division for the non-negative minutes allowed here; below 40 no
      table index is out of bounds. */
  function MinutePhrase(minute: int): string
    requires 0 <= minute < 40
  {
    if minute >= 20 then TensDigitsNames[minute / 10] + " " + NumberNames[minute % 10]
    else NumberNames[minute]
  }

  /** What `handleSpecialCases` appends for a time on the hour. */
  function SpecialCasePhrase(hour: int): string
    requires 0 <= hour < 20
  {
    if hour == 12 then "noon"
    else if hour == 0 then "midnight"
    else NumberNames[hour] + " o'clock"
  }

  /** The inputs on which `appendWithSpokenTime` indexes both tables within
      bounds: the spoken minute `minute` or `60 - minute` is in 0..39, and the
      spoken hour `hour` or `hour + 1` (0 being read as 12) is in 0..19. */
  predicate SpokenTimeInBounds(hour: int, minute: int) {
    if minute <= 30 then 0 <= minute && 0 <= hour < 20
    else minute <= 60 && -1 <= hour < 19
  }

  /** The minute count spoken: the minutes past the hour up to the half hour,
      otherwise the minutes still to go until the next hour. */
  function SpokenMinute(minute: int): int {
    if minute <= 30 then minute else 60 - minute
  }

  function Connector(minute: int): string {
    if minute <= 30 then "past" else "to"
  }

  /** The table index of the hour spoken: this hour up to the half hour,
      otherwise the next one; only an index of 0 is read as 12. */
  function SpokenHour(hour: int, minute: int): int {
    var h := if minute <= 30 then hour else hour + 1;
    if h == 0 then 12 else h
  }

  /** What `appendWithSpokenTime` appends: the minutes "past" this hour up to
      the half hour, then the remaining minutes "to" the next hour. */
  function SpokenTimePhrase(hour: int, minute: int): string
    requires SpokenTimeInBounds(hour, minute)
  {
    MinutePhrase(SpokenMinute(minute)) + " " + Connector(minute) + " " + NumberNames[SpokenHour(hour, minute)]
  }

  /** What the builder holds once the phrase for a validated time is built. */
  function SpokenPhraseText(hour: int, minute: int): string
    requires 0 <= hour <= 12 && 0 <= minute <= 59
  {
    if minute == 0 then SpecialCasePhrase(hour) else SpokenTimePhrase(hour, minute)
  }

  /** The phrase returned for a validated time: the builder's text with every
      double space replaced by one. */
  function SpokenPhrase(hour: int, minute: int): string
    requires 0 <= hour <= 12 && 0 <= minute <= 59
  {
    ReplaceDoubleSpaces(SpokenPhraseText(hour, minute))
  }

  /** `convertToSpokenTime(time)`, with `None` for a `null` argument. */
  function SpokenTime(time: Option<string>): Outcome {
    match ValidateInput(time)
    case Fail(e) => Threw(e)
    case Pass =>
      var segments := SplitTime(time.value);
      match (ParseInt(segments[0]), ParseInt(segments[1]))
      case (Some(hour), Some(minute)) =>
        (match ValidateRangeOfInput(hour, minute)
         case Fail(e) => Threw(e)
         case Pass => Returned(SpokenPhrase(hour, minute)))
      case _ => Threw(ParseError(time.value))
  }

  // ---------------------------------------------------------------------------
  // The phrase, as the Java code builds it
  // ---------------------------------------------------------------------------

  method MinutesToSpokenEnglish(timeInEnglish: StringBuilder, minute: int)
    requires 0 <= minute < 40
    modifies timeInEnglish
    ensures timeInEnglish.text == old(timeInEnglish.text) + MinutePhrase(minute)
  {
    var firstMinuteDigit := minute / 10;
    var secondMinuteDigit := minute % 10;
    if minute >= 20 {
      timeInEnglish.Append(TensDigitsNames[firstMinuteDigit]);
      timeInEnglish.Append(" ");
      timeInEnglish.Append(NumberNames[secondMinuteDigit]);
    } else {
      timeInEnglish.Append(NumberNames[minute]);
    }
  }

  method HandleSpecialCases(timeInEnglish: StringBuilder, hour: int)
    requires 0 <= hour < 20
    modifies timeInEnglish
    ensures timeInEnglish.text == old(timeInEnglish.text) + SpecialCasePhrase(hour)
  {
    if hour == 12 {
      timeInEnglish.Append("noon");
    } else if hour == 0 {
      timeInEnglish.Append("midnight");
    } else {
      timeInEnglish.Append(NumberNames[hour]);
      timeInEnglish.Append(" o'clock");
    }
  }

  method AppendWithSpokenTime(timeInEnglish: StringBuilder, hour: int, minute: int)
    requires SpokenTimeInBounds(hour, minute)
    modifies timeInEnglish
    ensures timeInEnglish.text == old(timeInEnglish.text) + SpokenTimePhrase(hour, minute)
  {
    var h, m := hour, minute;
    if m <= 30 {
      MinutesToSpokenEnglish(timeInEnglish, m);
      timeInEnglish.Append(" ");
      timeInEnglish.Append("past");
    } else {
      m := 60 - m;
      h := h + 1;
      MinutesToSpokenEnglish(timeInEnglish, m);
      timeInEnglish.Append(" ");
      timeInEnglish.Append("to");
    }
    if h == 0 {
      h := 12;
    }
    timeInEnglish.Append(" ");
    timeInEnglish.Append(NumberNames[h]);
    AppendFiveAssoc(old(timeInEnglish.text), MinutePhrase(m), " ", Connector(minute), " ", NumberNames[h]);
  }

  /** `convertToSpokenTime(time)`: validates, splits, parses, range-checks,
      builds the phrase in a fresh `StringBuilder` and collapses double
      spaces. */
  method ConvertToSpokenTime(time: Option<string>) returns (r: Outcome)
    ensures r == SpokenTime(time)
  {
    var timeInEnglish := new StringBuilder();
    var valid := ValidateInput(time);
    if valid.Fail? {
      return Threw(valid.exc);
    }
    var hourAndMinutes := SplitTime(time.value);
    var hour := ParseInt(hourAndMinutes[0]);
    if hour.None? {
      return Threw(ParseError(time.value));
    }
    var minute := ParseInt(hourAndMinutes[1]);
    if minute.None? {
      return Threw(ParseError(time.value));
    }
    var range := ValidateRangeOfInput(hour.value, minute.value);
    if range.Fail? {
      return Threw(range.exc);
    }
    if minute.value == 0 {
      HandleSpecialCases(timeInEnglish, hour.value);
    } else {
      AppendWithSpokenTime(timeInEnglish, hour.value, minute.value);
    }
    assert timeInEnglish.text == SpokenPhraseText(hour.value, minute.value);
    return Returned(ReplaceDoubleSpaces(timeInEnglish.text));
  }
}
