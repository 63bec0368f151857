/**
 * The pieces of the Java platform that the offset file's text format relies on:
 * `Long.toString`/`Integer.toString`, `Long.parseLong`/`Integer.parseInt`,
 * `String.split` with a one-character pattern and `BufferedReader.readLine`.
 */
module JavaNumbers {
  import opened Wrappers

  const LONG_MIN: int := -0x8000_0000_0000_0000
  const LONG_MAX: int := 0x7FFF_FFFF_FFFF_FFFF
  const INT_MIN: int := -0x8000_0000
  const INT_MAX: int := 0x7FFF_FFFF

  /** Java's `long`. */
  type Long = x: int | LONG_MIN <= x <= LONG_MAX
  /** Java's `int`. */
  type Int = x: int | INT_MIN <= x <= INT_MAX

  predicate IsDigit(c: char) {
    '0' <= c <= '9'
  }

  predicate AllDigits(s: string) {
    forall i :: 0 <= i < |s| ==> IsDigit(s[i])
  }

  function DigitChar(d: nat): (c: char)
    requires d < 10
    ensures IsDigit(c) && c as int - '0' as int == d
  {
    ('0' as int + d) as char
  }

  /** The decimal digits of `n`, most significant first, without leading zeros. */
  function NatToDecimal(n: nat): (r: string)
    ensures |r| > 0 && AllDigits(r)
    ensures |r| > 1 ==> r[0] != '0'
    decreases n
  {
    if n < 10 then [DigitChar(n)] else NatToDecimal(n / 10) + [DigitChar(n % 10)]
  }

  /** The number a string of decimal digits denotes (the empty string denotes 0). */
  function DecimalValue(s: string): nat
    requires AllDigits(s)
    decreases |s|
  {
    if s == [] then 0
    else DecimalValue(s[..|s| - 1]) * 10 + (s[|s| - 1] as int - '0' as int)
  }

  /** Reading back the digits of `n` gives `n`. */
  lemma {:induction false} DecimalValueOfNatToDecimal(n: nat)
    ensures DecimalValue(NatToDecimal(n)) == n
  {
    if n >= 10 {
      var s := NatToDecimal(n);
      assert s[..|s| - 1] == NatToDecimal(n / 10);
      DecimalValueOfNatToDecimal(n / 10);
    }
  }

  /** `Long.toString` / `Integer.toString`: an optional minus sign, then the decimal digits. */
  function ToDecimal(x: int): (r: string)
    ensures |r| > 0
    ensures r[0] == '-' <==> x < 0
    ensures forall i :: 0 < i < |r| ==> IsDigit(r[i])
    ensures x >= 0 ==> IsDigit(r[0])
    ensures x >= 0 ==> r == NatToDecimal(x)
    ensures x < 0 ==> r == "-" + NatToDecimal(-x)
  {
    if x < 0 then "-" + NatToDecimal(-x) else NatToDecimal(x)
  }

  /** The text after an optional leading `-` or `+`. */
  function Unsigned(s: string): (r: string)
    ensures |s| > 0 && (s[0] == '-' || s[0] == '+') ==> r == s[1..]
    ensures |s| == 0 || (s[0] != '-' && s[0] != '+') ==> r == s
  {
    if |s| > 0 && (s[0] == '-' || s[0] == '+') then s[1..] else s
  }

  /** The number a sign-optional string of digits denotes. */
  function SignedValue(s: string): int
    requires AllDigits(Unsigned(s))
  {
    if |s| > 0 && s[0] == '-' then 0 - DecimalValue(Unsigned(s)) else DecimalValue(Unsigned(s))
  }

  /**
   * `Long.parseLong` (with `min`, `max` the `long` bounds) and `Integer.parseInt`
   * (the `int` bounds): an optional `-` or `+`, at least one decimal digit and
   * nothing else, and a value within the bounds; otherwise a
   * `NumberFormatException`, here `None`.
   */
  function ParseInteger(s: string, min: int, max: int): (r: Option<int>)
    ensures r.Some? <==>
      |Unsigned(s)| > 0 && AllDigits(Unsigned(s)) && min <= SignedValue(s) <= max
    ensures r.Some? ==> r.value == SignedValue(s) && min <= r.value <= max
    ensures r.Some? ==> |s| > 0 && (IsDigit(s[0]) || s[0] == '-' || s[0] == '+')
    ensures r.Some? ==> forall i :: 0 < i < |s| ==> IsDigit(s[i])
  {
    if |s| == 0 then None
    else
      var body := if s[0] == '-' || s[0] == '+' then s[1..] else s;
      if |body| == 0 || !AllDigits(body) then None
      else
        var v: int := if s[0] == '-' then 0 - DecimalValue(body) else DecimalValue(body);
        if min <= v <= max then Some(v) else None
  }

  function ParseLong(s: string): (r: Option<Long>)
    ensures ParseInteger(s, LONG_MIN, LONG_MAX).Some? <==> r.Some?
    ensures r.Some? ==> r.value == ParseInteger(s, LONG_MIN, LONG_MAX).value
  {
    match ParseInteger(s, LONG_MIN, LONG_MAX)
    case Some(v) => Some(v)
    case None => None
  }

  function ParseInt(s: string): (r: Option<Int>)
    ensures ParseInteger(s, INT_MIN, INT_MAX).Some? <==> r.Some?
    ensures r.Some? ==> r.value == ParseInteger(s, INT_MIN, INT_MAX).value
  {
    match ParseInteger(s, INT_MIN, INT_MAX)
    case Some(v) => Some(v)
    case None => None
  }

  /** Parsing the decimal rendering of any in-range integer gives it back. */
  lemma ParseIntegerOfToDecimal(x: int, min: int, max: int)
    requires min <= x <= max
    ensures ParseInteger(ToDecimal(x), min, max) == Some(x)
  {
    var s := ToDecimal(x);
    if x < 0 {
      assert s[1..] == NatToDecimal(-x);
      DecimalValueOfNatToDecimal(-x);
    } else {
      DecimalValueOfNatToDecimal(x);
    }
  }

  /** The pieces joined back together with `sep` between consecutive ones. */
  function Join(parts: seq<string>, sep: char): string
    requires |parts| > 0
    decreases |parts|
  {
    if |parts| == 1 then parts[0] else parts[0] + [sep] + Join(parts[1..], sep)
  }

  /**
   * Every piece of `s` between occurrences of `sep`, trailing empty ones
   * included: separator-free pieces that join back into `s`.
   */
  function SplitAll(s: string, sep: char): (r: seq<string>)
    ensures |r| > 0
    ensures forall i :: 0 <= i < |r| ==> sep !in r[i]
    ensures Join(r, sep) == s
    decreases |s|
  {
    if s == [] then [[]]
    else
      var rest := SplitAll(s[1..], sep);
      if s[0] == sep then
        assert ([[]] + rest)[1..] == rest;
        [[]] + rest
      else
        var r := [[s[0]] + rest[0]] + rest[1..];
        assert r[1..] == rest[1..];
        assert Join(r, sep) == [s[0]] + Join(rest, sep);
        r
  }

  function DropTrailingEmpty(parts: seq<string>): (r: seq<string>)
    ensures |r| <= |parts| && r == parts[..|r|]
    ensures r != [] ==> r[|r| - 1] != []
    ensures forall i :: |r| <= i < |parts| ==> parts[i] == []
    decreases |parts|
  {
    if parts == [] then []
    else if parts[|parts| - 1] == [] then DropTrailingEmpty(parts[..|parts| - 1])
    else parts
  }

  /**
   * `s.split(sep)` for a pattern matching the single character `sep`: the whole
   * string when `sep` does not occur, otherwise the pieces between separators with
   * trailing empty pieces removed (so the result can be empty).
   */
  function Split(s: string, sep: char): (r: seq<string>)
    ensures sep !in s ==> r == [s]
    ensures forall i :: 0 <= i < |r| ==> sep !in r[i]
    ensures sep in s ==>
      var all := SplitAll(s, sep);
      |r| <= |all| && r == all[..|r|] && (r != [] ==> r[|r| - 1] != []) &&
      forall i :: |r| <= i < |all| ==> all[i] == []
  {
    if sep !in s then [s] else DropTrailingEmpty(SplitAll(s, sep))
  }

  lemma {:induction false} SplitAllWithoutSeparator(s: string, sep: char)
    requires sep !in s
    ensures SplitAll(s, sep) == [s]
    decreases |s|
  {
    if s != [] {
      SplitAllWithoutSeparator(s[1..], sep);
      assert [s[0]] + s[1..] == s;
    }
  }

  lemma {:induction false} SplitAllAroundSeparator(a: string, sep: char, b: string)
    requires sep !in a && sep !in b
    ensures SplitAll(a + [sep] + b, sep) == [a, b]
    decreases |a|
  {
    if a == [] {
      assert (a + [sep] + b)[1..] == b;
      SplitAllWithoutSeparator(b, sep);
    } else {
      assert (a + [sep] + b)[1..] == a[1..] + [sep] + b;
      SplitAllAroundSeparator(a[1..], sep, b);
      assert [a[0]] + a[1..] == a;
    }
  }

  /** Splitting two separator-free fields joined by one separator gives the two fields back. */
  lemma SplitAroundSeparator(a: string, sep: char, b: string)
    requires sep !in a && sep !in b && b != []
    ensures Split(a + [sep] + b, sep) == [a, b]
  {
    assert (a + [sep] + b)[|a|] == sep;
    SplitAllAroundSeparator(a, sep, b);
  }

  predicate IsLineTerminator(c: char) {
    c == '\n' || c == '\r'
  }

  /** The characters before the first line terminator (all of `s` when there is none). */
  function UpToLineEnd(s: string): (r: string)
    ensures |r| <= |s| && r == s[..|r|]
    ensures forall i :: 0 <= i < |r| ==> !IsLineTerminator(r[i])
    ensures |r| < |s| ==> IsLineTerminator(s[|r|])
    decreases |s|
  {
    if s == [] || IsLineTerminator(s[0]) then [] else [s[0]] + UpToLineEnd(s[1..])
  }

  /** `BufferedReader.readLine` on a fresh reader: null (`None`) when the content is empty. */
  function FirstLine(content: string): (r: Option<string>)
    ensures r.None? <==> content == []
    ensures r.Some? ==> |r.value| <= |content| && r.value == content[..|r.value|]
    ensures r.Some? ==> forall i :: 0 <= i < |r.value| ==> !IsLineTerminator(r.value[i])
    ensures r.Some? && |r.value| < |content| ==> IsLineTerminator(content[|r.value|])
  {
    if content == [] then None else Some(UpToLineEnd(content))
  }

  /** A content without line terminators is read back whole as its first line. */
  lemma {:induction false} FirstLineOfSingleLine(content: string)
    requires content != []
    requires forall i :: 0 <= i < |content| ==> !IsLineTerminator(content[i])
    ensures FirstLine(content) == Some(content)
  {
    var line := UpToLineEnd(content);
    assert line == content[..|content|] == content;
  }
}
