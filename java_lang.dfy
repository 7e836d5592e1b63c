/** Models of the few pieces of the Java standard library that the converter
    relies on: `String.split` with a one-character separator,
    `Integer.parseInt`, `String.replace("  ", " ")` and `StringBuilder`. */
module JavaLang {

  /** A possibly absent value; `None` also stands for a Java `null` reference. */
  datatype Option<+T> = None | Some(value: T)

  // ---------------------------------------------------------------------------
  // Characters and whitespace
  // ---------------------------------------------------------------------------

  predicate IsDigit(c: char) {
    '0' <= c <= '9'
  }

  predicate AllDigits(s: string) {
    forall i :: 0 <= i < |s| ==> IsDigit(s[i])
  }

  /** No two adjacent spaces anywhere in `s`. */
  predicate NoDoubleSpace(s: string) {
    forall i :: 0 <= i < |s| - 1 ==> s[i] != ' ' || s[i + 1] != ' '
  }

  /** No three adjacent spaces anywhere in `s`. */
  predicate NoTripleSpace(s: string) {
    forall i :: 0 <= i < |s| - 2 ==> s[i] != ' ' || s[i + 1] != ' ' || s[i + 2] != ' '
  }

  // ---------------------------------------------------------------------------
  // Integer.parseInt
  // ---------------------------------------------------------------------------

  const MinInt: int := -0x8000_0000
  const MaxInt: int := 0x7fff_ffff

  function DigitValue(c: char): (d: nat)
    requires IsDigit(c)
    ensures d < 10
  {
    c as int - '0' as int
  }

  /** The value of a run of decimal digits, most significant first. */
  function DigitsValue(ds: string): nat
    requires AllDigits(ds)
    decreases |ds|
  {
    if |ds| == 0 then 0 else DigitsValue(ds[..|ds| - 1]) * 10 + DigitValue(ds[|ds| - 1])
  }

  /** The grammar `Integer.parseInt` accepts: an optional `+` or `-`, then at
      least one decimal digit. */
  predicate IsIntLiteral(s: string) {
    |s| > 0 &&
    if s[0] == '-' || s[0] == '+' then |s| > 1 && AllDigits(s[1..]) else AllDigits(s)
  }

  function LiteralValue(s: string): int
    requires IsIntLiteral(s)
  {
    if s[0] == '-' then -(DigitsValue(s[1..]) as int)
    else if s[0] == '+' then DigitsValue(s[1..])
    else DigitsValue(s)
  }

  /** `Integer.parseInt(s)`: `None` stands for a thrown NumberFormatException,
      which Java raises for a malformed literal and for a value outside the
      32-bit `int` range. */
  function ParseInt(s: string): (r: Option<int>)
    ensures r.Some? ==> IsIntLiteral(s) && r.value == LiteralValue(s)
    ensures r.Some? ==> MinInt <= r.value <= MaxInt
    ensures r.Some? ==> |s| > 0 && AllDigits(s[1..])
    ensures r.Some? && r.value < 0 ==> s[0] == '-'
  {
    if IsIntLiteral(s) && MinInt <= LiteralValue(s) <= MaxInt then Some(LiteralValue(s)) else None
  }

  /** Decimal notation of a natural number, without leading zeros; the
      reference against which `ParseInt` is checked. */
  function NatToString(n: nat): (s: string)
    ensures |s| > 0 && AllDigits(s)
    decreases n
  {
    if n < 10 then ['0' + n as char] else NatToString(n / 10) + ['0' + (n % 10) as char]
  }

  /** Decimal notation of an integer, as `Integer.toString` writes it. */
  function IntToString(v: int): (s: string)
    ensures |s| > 0
  {
    if v < 0 then "-" + NatToString(-v) else NatToString(v)
  }

  lemma {:induction false} DigitsOfNatToString(n: nat)
    ensures DigitsValue(NatToString(n)) == n
    decreases n
  {
    if n >= 10 {
      var prefix, last := NatToString(n / 10), '0' + (n % 10) as char;
      var s := prefix + [last];
      assert s[..|s| - 1] == prefix;
      DigitsOfNatToString(n / 10);
    }
  }

  /** `Integer.parseInt` inverts `Integer.toString` on the whole `int` range. */
  lemma ParseIntOfIntToString(v: int)
    requires MinInt <= v <= MaxInt
    ensures ParseInt(IntToString(v)) == Some(v)
  {
    var s := IntToString(v);
    if v < 0 {
      var digits := NatToString(-v);
      assert s[1..] == digits;
      DigitsOfNatToString(-v);
      assert IsIntLiteral(s) && LiteralValue(s) == -(DigitsValue(digits) as int);
    } else {
      assert IsDigit(s[0]);
      DigitsOfNatToString(v);
      assert IsIntLiteral(s) && LiteralValue(s) == DigitsValue(s);
    }
  }

  /** On every run of decimal digits, leading zeros included: the digits
      alone and with a leading `+` parse to their value, with a leading `-`
      to its negation, each exactly when that value is an `int`, and
      otherwise `parseInt` throws. */
  lemma ParseIntOfDigits(ds: string)
    requires |ds| > 0 && AllDigits(ds)
    ensures DigitsValue(ds) <= MaxInt ==>
      ParseInt(ds) == Some(DigitsValue(ds)) && ParseInt("+" + ds) == Some(DigitsValue(ds))
    ensures DigitsValue(ds) > MaxInt ==> ParseInt(ds).None? && ParseInt("+" + ds).None?
    ensures MinInt <= -(DigitsValue(ds) as int) ==> ParseInt("-" + ds) == Some(-(DigitsValue(ds) as int))
    ensures -(DigitsValue(ds) as int) < MinInt ==> ParseInt("-" + ds).None?
  {
    assert IsDigit(ds[0]);
    assert IsIntLiteral(ds) && LiteralValue(ds) == DigitsValue(ds);
    var plus, minus := "+" + ds, "-" + ds;
    assert plus[1..] == ds && minus[1..] == ds;
    assert IsIntLiteral(plus) && LiteralValue(plus) == DigitsValue(ds);
    assert IsIntLiteral(minus) && LiteralValue(minus) == -(DigitsValue(ds) as int);
  }

  // ---------------------------------------------------------------------------
  // String.split with a one-character separator
  // ---------------------------------------------------------------------------

  /** The pieces of `s` between occurrences of `sep`, empty pieces included. */
  function Pieces(s: string, sep: char): (ps: seq<string>)
    ensures |ps| >= 1
    ensures forall k :: 0 <= k < |ps| ==> sep !in ps[k]
    decreases |s|
  {
    if |s| == 0 then [""]
    else
      var rest := Pieces(s[1..], sep);
      if s[0] == sep then [""] + rest
      else [[s[0]] + rest[0]] + rest[1..]
  }

  /** Concatenation of `ps` with `sep` between neighbours. */
  function JoinWith(ps: seq<string>, sep: char): string
    requires |ps| >= 1
    decreases |ps|
  {
    if |ps| == 1 then ps[0] else ps[0] + [sep] + JoinWith(ps[1..], sep)
  }

  /** Splitting and joining again gives back the original string. */
  lemma {:induction false} JoinWithPieces(s: string, sep: char)
    ensures JoinWith(Pieces(s, sep), sep) == s
    decreases |s|
  {
    if |s| > 0 {
      var rest := Pieces(s[1..], sep);
      JoinWithPieces(s[1..], sep);
      if s[0] != sep && |rest| > 1 {
        assert rest == [rest[0]] + rest[1..];
        assert JoinWith(rest, sep) == rest[0] + [sep] + JoinWith(rest[1..], sep);
      }
    }
  }

  /** Removes the empty strings at the end of `ps`. */
  function DropTrailingEmpty(ps: seq<string>): (r: seq<string>)
    ensures |r| <= |ps| && r == ps[..|r|]
    ensures forall k :: |r| <= k < |ps| ==> ps[k] == ""
    ensures |r| > 0 ==> r[|r| - 1] != ""
    decreases |ps|
  {
    if |ps| > 0 && ps[|ps| - 1] == "" then DropTrailingEmpty(ps[..|ps| - 1]) else ps
  }

  /** `s.split(String.valueOf(sep))`: when `sep` does not occur the result is
      `[s]`; otherwise the pieces between separators, the leading empty piece
      kept and the trailing empty pieces removed. */
  function Split(s: string, sep: char): (r: seq<string>)
    ensures sep !in s ==> r == [s]
    ensures forall k :: 0 <= k < |r| ==> sep !in r[k]
  {
    if sep !in s then [s] else DropTrailingEmpty(Pieces(s, sep))
  }

  lemma {:induction false} PiecesWithoutSeparator(s: string, sep: char)
    requires sep !in s
    ensures Pieces(s, sep) == [s]
    decreases |s|
  {
    if |s| > 0 {
      PiecesWithoutSeparator(s[1..], sep);
      assert [s[0]] + s[1..] == s;
    }
  }

  /** A separator cuts the pieces into those before it and those after it. */
  lemma {:induction false} PiecesAppend(a: string, sep: char, b: string)
    ensures Pieces(a + [sep] + b, sep) == Pieces(a, sep) + Pieces(b, sep)
    decreases |a|
  {
    var s := a + [sep] + b;
    if |a| == 0 {
      assert s[1..] == b;
    } else {
      assert s[1..] == a[1..] + [sep] + b;
      PiecesAppend(a[1..], sep, b);
    }
  }

  /** A piece of text that begins with anything but the separator yields a
      non-empty first piece. */
  lemma PiecesFirstNonEmpty(b: string, sep: char)
    requires |b| > 0 && b[0] != sep
    ensures Pieces(b, sep)[0] != ""
  {
  }

  /** When some separator is directly followed by another character, the split
      has at least two segments: that character's segment is never trailing
      empty and is not the first. */
  lemma SplitAtLeastTwo(s: string, sep: char, j: int)
    requires 0 <= j && j + 1 < |s| && s[j] == sep && s[j + 1] != sep
    ensures |Split(s, sep)| >= 2
  {
    var a, b := s[..j], s[j + 1..];
    assert s == a + [sep] + b;
    PiecesAppend(a, sep, b);
    PiecesFirstNonEmpty(b, sep);
    var ps := Pieces(s, sep);
    var k := |Pieces(a, sep)|;
    assert ps[k] == Pieces(b, sep)[0];
  }

  /** Splitting `a + sep + b` where neither part holds the separator and `b` is
      non-empty gives exactly the two parts. */
  lemma SplitTwoParts(a: string, sep: char, b: string)
    requires sep !in a && sep !in b && |b| > 0
    ensures Split(a + [sep] + b, sep) == [a, b]
  {
    var s := a + [sep] + b;
    assert s[|a|] == sep;
    PiecesAppend(a, sep, b);
    PiecesWithoutSeparator(a, sep);
    PiecesWithoutSeparator(b, sep);
  }

  // ---------------------------------------------------------------------------
  // String.replace("  ", " ")
  // ---------------------------------------------------------------------------

  /** `s.replace("  ", " ")`: every double space, taken left to right without
      overlap, becomes a single space. */
  function ReplaceDoubleSpaces(s: string): (r: string)
    ensures |r| <= |s|
    decreases |s|
  {
    if |s| < 2 then s
    else if s[0] == ' ' && s[1] == ' ' then " " + ReplaceDoubleSpaces(s[2..])
    else [s[0]] + ReplaceDoubleSpaces(s[1..])
  }

  /** Text with no double space is left as it is. */
  lemma {:induction false} ReplaceKeepsClean(s: string)
    requires NoDoubleSpace(s)
    ensures ReplaceDoubleSpaces(s) == s
    decreases |s|
  {
    if |s| >= 2 {
      assert s[1..][0] == s[1];
      ReplaceKeepsClean(s[1..]);
    }
  }

  /** A clean prefix that does not end in a space passes through unchanged. */
  lemma {:induction false} ReplaceCleanPrefix(a: string, b: string)
    requires |a| > 0 && NoDoubleSpace(a) && a[|a| - 1] != ' '
    ensures ReplaceDoubleSpaces(a + b) == a + ReplaceDoubleSpaces(b)
    decreases |a|
  {
    var s := a + b;
    if |a| == 1 {
      if |s| >= 2 {
        assert s[1..] == b;
      }
    } else {
      assert s[1..] == a[1..] + b;
      ReplaceCleanPrefix(a[1..], b);
    }
  }

  /** Without three spaces in a row, one pass of `replace` leaves no double
      space, and the result begins with a space exactly when the input does.
      A standalone fact about `replace`: the converter's own phrases are shown
      clean through their word lists instead. */
  lemma {:induction false} ReplaceClearsDoubles(s: string)
    requires NoTripleSpace(s)
    ensures NoDoubleSpace(ReplaceDoubleSpaces(s))
    ensures |s| > 0 ==> |ReplaceDoubleSpaces(s)| > 0 &&
                        (ReplaceDoubleSpaces(s)[0] == ' ' <==> s[0] == ' ')
    decreases |s|
  {
    if |s| >= 2 {
      var rest := if s[0] == ' ' && s[1] == ' ' then s[2..] else s[1..];
      assert NoTripleSpace(rest) by {
        forall i | 0 <= i < |rest| - 2
          ensures rest[i] != ' ' || rest[i + 1] != ' ' || rest[i + 2] != ' '
        {
          var off := |s| - |rest|;
          assert rest[i] == s[i + off] && rest[i + 1] == s[i + off + 1] && rest[i + 2] == s[i + off + 2];
        }
      }
      ReplaceClearsDoubles(rest);
      if s[0] == ' ' && s[1] == ' ' && |s| > 2 {
        assert s[2] != ' ';
      }
    }
  }

  // ---------------------------------------------------------------------------
  // Regrouping concatenations
  // ---------------------------------------------------------------------------

  // These lemmas state nothing about the program: each is a plain
  // associativity fact about sequence concatenation, called at the point
  // where it is needed so that the solver does not have to find the
  // regrouping among many candidate ones.

  lemma AppendFiveAssoc(s: string, a: string, b: string, c: string, d: string, e: string)
    ensures s + (a + b + c + d + e) == s + a + b + c + d + e
  {
  }

  lemma ConcatRegroup(a: string, b: string, c: string, d: string, e: string)
    ensures a + b + c + d + e == a + b + (c + d + e)
  {
  }

  lemma ConcatRegroupMiddle(a: string, b: string, c: string, d: string, e: string)
    ensures a + (b + c + d) + e == a + b + c + d + e
  {
  }

  lemma ConcatRegroup3(a: string, b: string, c: string, d: string)
    ensures a + b + c + d == a + (b + c + d)
  {
  }

  // ---------------------------------------------------------------------------
  // StringBuilder
  // ---------------------------------------------------------------------------

  /** A `java.lang.StringBuilder`, reduced to what the converter uses. */
  class StringBuilder {
    var text: string

    constructor ()
      ensures text == ""
    {
      text := "";
    }

    /** `append(s)`; Java returns the builder itself for chaining. */
    method Append(s: string)
      modifies this
      ensures text == old(text) + s
    {
      text := text + s;
    }
  }
}
