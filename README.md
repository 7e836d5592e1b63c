# Time to spoken English

A Dafny model of `ToSpokenEnglishConverter.convertToSpokenTime` from the Java
repository TimeToSpokenEnglish. The method turns a 12-hour clock time such as
`"6:32"` into its spoken English phrase, here `"twenty eight to seven"`.

It works in these steps:

1. `validateInput` rejects `null` and text that holds no clock time.
2. The input is split on `:`.
3. Both segments are parsed with `Integer.parseInt`.
4. The hour and the minute are range-checked.
5. The phrase is built in a `StringBuilder` from two lookup tables.
6. The double space left by the empty table entry is collapsed.

The project has four modules.

- `JavaLang` (`java_lang.dfy`) models the Java library calls the converter
  uses:
  - `String.split` with a one-character separator, with Java's rule that
    trailing empty segments are dropped;
  - `Integer.parseInt`, with the 32-bit range check;
  - `String.replace("  ", " ")`, replacing left to right without overlap;
  - a `StringBuilder` class whose `text` field each `Append` extends.
- `SpokenEnglish` (`converter.dfy`) models the converter. The two tables and
  the four exception messages (lines 45, 76, 79 and 97) are copied exactly.
  - The checks and the split are functions, since their Java code only
    computes a verdict or a value: `ValidateInput`, `SplitTime` and
    `ValidateRangeOfInput`.
  - The three helpers that append to the `StringBuilder` are methods that
    append piece by piece as the Java code does. These are
    `MinutesToSpokenEnglish`, `HandleSpecialCases` and
    `AppendWithSpokenTime`. Each method's contract ties the builder's new
    text to a function that says what it appends: `MinutePhrase`,
    `SpecialCasePhrase` and `SpokenTimePhrase`.
  - `ConvertToSpokenTime` is a method that runs the steps in the Java order
    on a fresh builder. Its contract ties its outcome to the function
    `SpokenTime`.

  `null` is `None`. A thrown exception is the `Threw` case of an `Outcome`;
  it carries the exception class (`IllegalArgument` or `NumberFormat`) and
  the message.
- `SpokenEnglishProperties` (`phrase_properties.dfy`) gives an independent
  description of the phrase: a list of words (`Words`) joined by single
  spaces. It proves that the builder-and-replace pipeline produces exactly
  that join for every hour 0..12 and minute 0..59. It then states each
  outcome of `convertToSpokenTime` as an if-and-only-if or a case split.
- `TabulatedTimes` (`tabulated_times.dfy`) proves the input/output pairs of
  the repository's JUnit tests. It also gives an input that reaches each
  error branch.

The behaviour modelled is that of the Java code. Four of its consequences
are easy to miss:

- **Pattern search.** `find()` searches, so any string that holds `d:dd`
  somewhere passes the format check (lines 95-96). This is why `"212:12"`
  and `"-3:03"` are rejected by the hour check rather than the format
  check.
- **Parse error is reachable.** `"a1:30"` passes the format check, and its
  hour segment `"a1"` does not parse, so line 45 throws.
- **Minute check is reachable.** `"1:305"` and `"1:-5:1:30"` pass the
  format check, and the minute check at line 79 rejects them.
- **No wrap after 12.** 12:31 to 12:59 are spoken "to thirteen": line 64
  adds one to the hour and line 68 turns only 0 into 12. `ToTheNextHour`
  and `NoonHourNotWrapped` state this.

## Model

| member | source | states |
|---|---|---|
| JavaLang.ParseInt | src/main/java/ToSpokenEnglishConverter.java:42-43 | `Integer.parseInt`: a value is produced only for an optional sign followed by at least one decimal digit, it is that literal's value, and it lies in the 32-bit `int` range |
| JavaLang.ParseIntOfDigits | src/main/java/ToSpokenEnglishConverter.java:42-43 | every digit string, leading zeros included, parses to its value bare or after `+`, and to its negation after `-`, exactly when the result is an `int`; otherwise parsing throws |
| JavaLang.ParseIntOfIntToString | src/main/java/ToSpokenEnglishConverter.java:42-43 | `parseInt` inverts decimal notation: every `int` written out is parsed back to itself |
| JavaLang.DigitsOfNatToString | src/main/java/ToSpokenEnglishConverter.java:42-43 | the digits of a natural number written in decimal have that number as their value |
| JavaLang.Split | src/main/java/ToSpokenEnglishConverter.java:40 | `split(":")`: no segment holds the separator, and a string without it splits into itself alone |
| JavaLang.Pieces | src/main/java/ToSpokenEnglishConverter.java:40 | the pieces between separators: there is at least one, and none holds the separator |
| JavaLang.JoinWithPieces | src/main/java/ToSpokenEnglishConverter.java:40 | joining the pieces with the separator gives back the original string |
| JavaLang.DropTrailingEmpty | src/main/java/ToSpokenEnglishConverter.java:40 | `split` drops only trailing empty pieces: the result is a prefix, everything dropped is empty, and the last kept piece is not |
| JavaLang.PiecesWithoutSeparator | src/main/java/ToSpokenEnglishConverter.java:40 | a string without the separator is a single piece |
| JavaLang.PiecesAppend | src/main/java/ToSpokenEnglishConverter.java:40 | a separator cuts the pieces into those of the text before it and those of the text after it |
| JavaLang.PiecesFirstNonEmpty | src/main/java/ToSpokenEnglishConverter.java:40 | text that does not start with the separator has a non-empty first piece |
| JavaLang.SplitAtLeastTwo | src/main/java/ToSpokenEnglishConverter.java:40 | a separator followed by another character gives at least two segments, so `hourAndMinutes[1]` exists |
| JavaLang.SplitTwoParts | src/main/java/ToSpokenEnglishConverter.java:40 | `a:b` with a colon-free `a` and a colon-free, non-empty `b` splits into exactly `[a, b]` |
| JavaLang.ReplaceDoubleSpaces | src/main/java/ToSpokenEnglishConverter.java:55 | `replace("  ", " ")` never lengthens the text |
| JavaLang.ReplaceKeepsClean | src/main/java/ToSpokenEnglishConverter.java:55 | text without a double space is left unchanged by `replace("  ", " ")` |
| JavaLang.ReplaceCleanPrefix | src/main/java/ToSpokenEnglishConverter.java:55 | a clean prefix not ending in a space passes through `replace` unchanged, and only the rest is rewritten |
| JavaLang.ReplaceClearsDoubles | src/main/java/ToSpokenEnglishConverter.java:55 | without three spaces in a row, one `replace` pass leaves no double space, and the result starts with a space exactly when the input does |
| JavaLang.StringBuilder.constructor | src/main/java/ToSpokenEnglishConverter.java:37 | a new builder is empty |
| JavaLang.StringBuilder.Append | src/main/java/ToSpokenEnglishConverter.java:61 | `append(s)` adds `s` at the end of the text and changes nothing else |
| SpokenEnglish.PatternFound | src/main/java/ToSpokenEnglishConverter.java:95-96 | `pattern.matcher(time).find()`: some position starts an optional `0`, `,` or `1`, then a digit, `:`, a digit 0-5 and a digit |
| SpokenEnglish.MinutePhrase | src/main/java/ToSpokenEnglishConverter.java:101-109 | the text `minutesToSpokenEnglish` appends: from 20 up the tens name, a space and the ones name (empty for a ones digit of 0), below 20 the number name |
| SpokenEnglish.SpecialCasePhrase | src/main/java/ToSpokenEnglishConverter.java:83-92 | the text `handleSpecialCases` appends: "noon" for 12, "midnight" for 0, otherwise the hour's name and " o'clock" |
| SpokenEnglish.SpokenTimePhrase | src/main/java/ToSpokenEnglishConverter.java:58-72 | the text `appendWithSpokenTime` appends: minute text, a space, "past" or "to", a space and the number name of this or the next hour, index 0 read as 12 |
| SpokenEnglish.NumberNames | src/main/java/ToSpokenEnglishConverter.java:6-27 | the twenty number names, the empty placeholder at 0 and "quarter" at 15 |
| SpokenEnglish.TensDigitsNames | src/main/java/ToSpokenEnglishConverter.java:29-34 | the tens names: empty, "ten", "twenty" and "half" for 3 |
| SpokenEnglish.SpokenMinute | src/main/java/ToSpokenEnglishConverter.java:63 | the minute count spoken: the minute itself up to 30, otherwise `60 - minute` |
| SpokenEnglish.Connector | src/main/java/ToSpokenEnglishConverter.java:59-67 | "past" up to 30 minutes (line 61), otherwise "to" (line 66) |
| SpokenEnglish.SpokenHour | src/main/java/ToSpokenEnglishConverter.java:64-69 | the table index of the hour spoken: the hour up to 30 minutes, otherwise hour + 1, with only 0 turned into 12, so 12 becomes 13 after the half hour |
| SpokenEnglish.SpokenPhraseText | src/main/java/ToSpokenEnglishConverter.java:49-53 | the builder's text once the phrase is built: the on-the-hour text at minute 0, otherwise the past/to text |
| SpokenEnglishProperties.SpokenIndicesInRange | src/main/java/ToSpokenEnglishConverter.java:58-72 | for every validated time off the hour, `minutesToSpokenEnglish` gets 1..30, the tens index is 2 or 3 from 20 up, and the spoken hour index is in 1..13, so every table lookup is within bounds |
| SpokenEnglish.SpokenPhrase | src/main/java/ToSpokenEnglishConverter.java:49-55 | the string returned for a validated time: the on-the-hour or the past/to text with every double space replaced by one |
| SpokenEnglish.SpokenTime | src/main/java/ToSpokenEnglishConverter.java:36-56 | the outcome of `convertToSpokenTime`: the format error, then the parse error naming the input, then the hour or the minute error, else the phrase |
| SpokenEnglishProperties.Words | src/main/java/ToSpokenEnglishConverter.java:49-72 | the reference list of words of a phrase: "noon", "midnight" or "<hour> o'clock" on the hour; the minute words, "past" and the hour up to 30; the words for 60 - minute, "to" and the next hour after 30 |
| SpokenEnglishProperties.OnTheHourWords | src/main/java/ToSpokenEnglishConverter.java:83-92 | the joined on-the-hour words are "noon", "midnight" or "<hour> o'clock" |
| SpokenEnglishProperties.OnTheHourWordsNoConnector | src/main/java/ToSpokenEnglishConverter.java:83-92 | the on-the-hour words include neither "past" nor "to" |
| SpokenEnglishProperties.PastTheHourWords | src/main/java/ToSpokenEnglishConverter.java:59-71 | the joined words for minutes 1..30 are the minute words, " past " and the hour, 0 read as "twelve" |
| SpokenEnglishProperties.ToTheNextHourWords | src/main/java/ToSpokenEnglishConverter.java:62-71 | the joined words for minutes 31..59 are the words for 60 - minute, " to " and the number name of hour + 1 |
| SpokenEnglish.FindIgnoresOptionalClass | src/main/java/ToSpokenEnglishConverter.java:95-96 | because `find()` searches, the pattern `[0,1]?[0-9]:[0-5][0-9]` occurs in a string exactly when `d:dd` (minute tens digit 0-5) occurs in it; the optional leading class never changes the verdict |
| SpokenEnglish.ValidateInput | src/main/java/ToSpokenEnglishConverter.java:94-99 | `validateInput` passes exactly for a non-null string holding a clock time `d:dd`; otherwise it throws the format error with its message |
| SpokenEnglish.ClockTimeSplitsInTwo | src/main/java/ToSpokenEnglishConverter.java:40-43 | any string that passes `validateInput` splits on `:` into at least two segments, so both `parseInt` calls have an argument |
| SpokenEnglish.SplitTime | src/main/java/ToSpokenEnglishConverter.java:40 | the segments of a validated time: at least two, none holding a colon |
| SpokenEnglish.ValidateRangeOfInput | src/main/java/ToSpokenEnglishConverter.java:74-81 | passes exactly when the hour is in 0..12 and the minute in 0..59; the hour error wins when both are out of range |
| SpokenEnglish.MinutesToSpokenEnglish | src/main/java/ToSpokenEnglishConverter.java:101-109 | appends the name of the minute count: tens name, a space and ones name from 20 up, the number name below 20 |
| SpokenEnglish.HandleSpecialCases | src/main/java/ToSpokenEnglishConverter.java:83-92 | appends "noon" for 12, "midnight" for 0 and "<hour> o'clock" otherwise |
| SpokenEnglish.AppendWithSpokenTime | src/main/java/ToSpokenEnglishConverter.java:58-72 | appends the minutes, "past" and this hour up to the half hour, else the minutes left, "to" and the next hour, with only an hour index of 0 read as 12 |
| SpokenEnglish.ConvertToSpokenTime | src/main/java/ToSpokenEnglishConverter.java:36-56 | the Java steps in order (validate, split, parse both segments, range-check, build, collapse double spaces) end in exactly the outcome `SpokenTime` gives |
| SpokenEnglishProperties.NumberNamesAreWords | src/main/java/ToSpokenEnglishConverter.java:6-27 | every number name but the placeholder at index 0 is one non-empty word |
| SpokenEnglishProperties.MinutePhraseWords | src/main/java/ToSpokenEnglishConverter.java:101-109 | the minute text is the join of the minute words ("quarter" for 15, "half" for 30), except that 20 and 30 leave one stray trailing space from the empty `numberNames[0]` |
| SpokenEnglishProperties.ReplaceJoinsParts | src/main/java/ToSpokenEnglishConverter.java:55 | minute text, connector and hour word, with or without the stray space, become after `replace` exactly the words joined by single spaces |
| SpokenEnglishProperties.SpokenPartsWords | src/main/java/ToSpokenEnglishConverter.java:58-72 | what `appendWithSpokenTime` appends becomes, after `replace`, the join of the minute words, the connector and the hour word |
| SpokenEnglishProperties.SpokenPhraseIsWords | src/main/java/ToSpokenEnglishConverter.java:49-55 | for every hour 0..12 and minute 0..59 the returned phrase equals the independent word list `Words(hour, minute)` joined by single spaces |
| SpokenEnglishProperties.SpokenPhraseClean | src/main/java/ToSpokenEnglishConverter.java:55 | every phrase returned is non-empty, holds no double space and neither starts nor ends with a space |
| SpokenEnglishProperties.OnTheHour | src/main/java/ToSpokenEnglishConverter.java:83-92 | minute 0 is spoken "noon" at 12, "midnight" at 0 and "<hour> o'clock" otherwise |
| SpokenEnglishProperties.OnTheHourNoConnector | src/main/java/ToSpokenEnglishConverter.java:49-50 | the phrase returned on the hour is the join of its words, and neither "past" nor "to" is among them |
| SpokenEnglishProperties.PastTheHour | src/main/java/ToSpokenEnglishConverter.java:59-71 | minutes 1..30 are spoken as their words, " past " and this hour, 0 read as "twelve" |
| SpokenEnglishProperties.ToTheNextHour | src/main/java/ToSpokenEnglishConverter.java:62-71 | minutes 31..59 are spoken as the words for 60 - minute, " to " and the number name of hour + 1, which is "thirteen" at hour 12 |
| SpokenEnglishProperties.QuarterPast | src/main/java/ToSpokenEnglishConverter.java:22 | fifteen minutes is "quarter past <hour>" |
| SpokenEnglishProperties.HalfPast | src/main/java/ToSpokenEnglishConverter.java:33 | thirty minutes is "half past <hour>" |
| SpokenEnglishProperties.QuarterTo | src/main/java/ToSpokenEnglishConverter.java:62-66 | forty-five minutes is "quarter to <hour + 1>" |
| SpokenEnglishProperties.FormatErrorIff | src/main/java/ToSpokenEnglishConverter.java:39 | the format error is thrown if and only if the input is null or holds no clock time `d:dd` |
| SpokenEnglishProperties.ParseErrorIff | src/main/java/ToSpokenEnglishConverter.java:41-46 | after the format check, the parse error naming the input is thrown if and only if the first or the second segment is no `int` literal |
| SpokenEnglishProperties.ParsedOutcome | src/main/java/ToSpokenEnglishConverter.java:47-55 | once both segments parse: an hour outside 0..12 throws the hour error, else a minute outside 0..59 the minute error, else the joined words are returned |
| SpokenEnglishProperties.ReturnedPhraseClean | src/main/java/ToSpokenEnglishConverter.java:36-56 | whatever `convertToSpokenTime` returns is non-empty, without double spaces and without leading or trailing space |
| TabulatedTimes.ParseTwoDigits | src/main/java/ToSpokenEnglishConverter.java:42-43 | `parseInt` of two decimal digits is their value, leading zero allowed |
| TabulatedTimes.ParseThreeDigits | src/main/java/ToSpokenEnglishConverter.java:42-43 | `parseInt` of three decimal digits is their value |
| TabulatedTimes.SplitFourParts | src/main/java/ToSpokenEnglishConverter.java:40 | four colon-free parts joined by colons, the last non-empty, split back into those four parts |
| TabulatedTimes.OneColonTime | src/main/java/ToSpokenEnglishConverter.java:40-55 | a string with one colon that passes the format check and parses ends in the hour error, the minute error or the joined words |
| TabulatedTimes.HappyPathRow1 | src/test/java/TimeToSpokenEnglishTest.java:11 | the input on line 11 is spoken as the phrase that line expects |
| TabulatedTimes.HappyPathRow2 | src/test/java/TimeToSpokenEnglishTest.java:12 | the input on line 12 is spoken as the phrase that line expects |
| TabulatedTimes.HappyPathRow3 | src/test/java/TimeToSpokenEnglishTest.java:13 | the input on line 13 is spoken as the phrase that line expects |
| TabulatedTimes.HappyPathRow4 | src/test/java/TimeToSpokenEnglishTest.java:14 | the input on line 14 is spoken as the phrase that line expects |
| TabulatedTimes.HappyPathRow5 | src/test/java/TimeToSpokenEnglishTest.java:15 | the input on line 15 is spoken as the phrase that line expects |
| TabulatedTimes.HappyPathRow6 | src/test/java/TimeToSpokenEnglishTest.java:16 | the input on line 16 is spoken as the phrase that line expects |
| TabulatedTimes.HappyPathRow7 | src/test/java/TimeToSpokenEnglishTest.java:17 | the input on line 17 is spoken as the phrase that line expects |
| TabulatedTimes.HappyPathRow8 | src/test/java/TimeToSpokenEnglishTest.java:18 | the input on line 18 is spoken as the phrase that line expects |
| TabulatedTimes.HappyPathRow9 | src/test/java/TimeToSpokenEnglishTest.java:19 | the input on line 19 is spoken as the phrase that line expects |
| TabulatedTimes.HappyPathRow10 | src/test/java/TimeToSpokenEnglishTest.java:20 | the input on line 20 is spoken as the phrase that line expects |
| TabulatedTimes.HappyPathRow11 | src/test/java/TimeToSpokenEnglishTest.java:21 | the input on line 21 is spoken as the phrase that line expects |
| TabulatedTimes.HappyPathRow12 | src/test/java/TimeToSpokenEnglishTest.java:22 | the input on line 22 is spoken as the phrase that line expects |
| TabulatedTimes.HappyPathRow13 | src/test/java/TimeToSpokenEnglishTest.java:23 | the input on line 23 is spoken as the phrase that line expects |
| TabulatedTimes.HappyPathRow14 | src/test/java/TimeToSpokenEnglishTest.java:24 | the input on line 24 is spoken as the phrase that line expects |
| TabulatedTimes.HappyPathRow15 | src/test/java/TimeToSpokenEnglishTest.java:25 | the input on line 25 is spoken as the phrase that line expects |
| TabulatedTimes.HappyPathRow16 | src/test/java/TimeToSpokenEnglishTest.java:26 | the input on line 26 is spoken as the phrase that line expects |
| TabulatedTimes.HappyPathRow17 | src/test/java/TimeToSpokenEnglishTest.java:27 | the input on line 27 is spoken as the phrase that line expects |
| TabulatedTimes.HappyPathRow18 | src/test/java/TimeToSpokenEnglishTest.java:28 | the input on line 28 is spoken as the phrase that line expects |
| TabulatedTimes.HourOutOfBoundsRow1 | src/test/java/TimeToSpokenEnglishTest.java:35-39 | input 1 of the hour test passes the format check and throws the hour error |
| TabulatedTimes.HourOutOfBoundsRow2 | src/test/java/TimeToSpokenEnglishTest.java:35-39 | input 2 of the hour test passes the format check and throws the hour error |
| TabulatedTimes.HourOutOfBoundsRow3 | src/test/java/TimeToSpokenEnglishTest.java:35-39 | input 3 of the hour test passes the format check and throws the hour error |
| TabulatedTimes.HourOutOfBoundsRow4 | src/test/java/TimeToSpokenEnglishTest.java:35-39 | input 4 of the hour test passes the format check and throws the hour error |
| TabulatedTimes.MinutesOutOfBoundsRow1 | src/test/java/TimeToSpokenEnglishTest.java:43-47 | input 1 of this test throws the format error |
| TabulatedTimes.MinutesOutOfBoundsRow2 | src/test/java/TimeToSpokenEnglishTest.java:43-47 | input 2 of this test throws the format error |
| TabulatedTimes.MinutesOutOfBoundsRow3 | src/test/java/TimeToSpokenEnglishTest.java:43-47 | input 3 of this test throws the format error |
| TabulatedTimes.MinutesOutOfBoundsRow4 | src/test/java/TimeToSpokenEnglishTest.java:43-47 | input 4 of this test throws the format error |
| TabulatedTimes.MinutesOutOfBoundsRow5 | src/test/java/TimeToSpokenEnglishTest.java:43-47 | input 5 of this test throws the format error |
| TabulatedTimes.NullInput | src/test/java/TimeToSpokenEnglishTest.java:50-55 | `null` throws the format error |
| TabulatedTimes.ParseErrorRow | src/main/java/ToSpokenEnglishConverter.java:44-46 | "a1:30" passes the format check and throws the parse error naming the whole input, so that branch is reachable |
| TabulatedTimes.MinuteRangeErrorRow1 | src/main/java/ToSpokenEnglishConverter.java:78-80 | "1:305" passes the format check and throws the minute error, so the minute check is reachable |
| TabulatedTimes.MinuteRangeErrorRow2 | src/main/java/ToSpokenEnglishConverter.java:78-80 | "1:-5:1:30" throws the minute error for the parsed minute -5 |
| TabulatedTimes.NoonHourNotWrapped | src/main/java/ToSpokenEnglishConverter.java:62-71 | "12:45" is spoken "quarter to thirteen": the next hour after 12 is not wrapped to one |

## Left out

- The regular expression engine: only the one pattern
  `[0,1]?[0-9]:[0-5][0-9]`, searched with `find()`, is modelled, as a
  predicate on the input string.
- `JavaLang.ParseInt` accepts only ASCII digits. Java's `parseInt` also
  accepts digits of other Unicode scripts.
- `Math.floor(minute / 10.)` is modelled as integer division. For the
  non-negative minutes that can reach it, the double arithmetic gives the
  same value.
- `java.lang.Integer` boxing and `equals`: the hour and minute are never
  `null` once parsed, so they are plain integers.
- The exception class hierarchy, stack traces and the `throws` clause:
  only the class name and the message are kept.
- The JUnit harness: the test tables are proved as lemmas. Inputs that
  pass the format check are written as their colon-separated parts joined
  by `":"` (for example `"6" + ":" + "32"` for "6:32", and
  `"1" + ":" + "-5" + ":" + "1" + ":" + "30"` for "1:-5:1:30"). The
  format-error inputs are written as single literals, and `null` as `None`.
  Both forms spell the same string.
