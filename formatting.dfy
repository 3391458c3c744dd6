/** The pieces of Python's string formatting that the style module relies on:
    the `02x` format specification of an integer in 0..255 and `str` of a
    non-negative integer. Each rendering comes with a parser, so that the
    round trip can be stated; `Split` is a helper of those parsers, not
    something the style module calls. */
module Formatting {

  datatype Option<T> = None | Some(value: T)

  // ---------------------------------------------------------------------------
  // Digits
  // ---------------------------------------------------------------------------

  predicate IsDigit(ch: char) {
    '0' <= ch <= '9'
  }

  predicate IsLowerHexDigit(ch: char) {
    IsDigit(ch) || 'a' <= ch <= 'f'
  }

  predicate AllDigits(s: string) {
    forall i :: 0 <= i < |s| ==> IsDigit(s[i])
  }

  /** The value of a lower-case hexadecimal digit; since the decimal digits
      are hexadecimal digits too, it also reads decimal digits. */
  function HexValue(ch: char): (d: nat)
    requires IsLowerHexDigit(ch)
    ensures d < 16
    ensures IsDigit(ch) <==> d < 10
  {
    if IsDigit(ch) then (ch - '0') as nat else (ch - 'a') as nat + 10
  }

  /** The lower-case hexadecimal digit of a nibble, as `format(d, "x")` writes it. */
  function HexDigit(d: nat): (ch: char)
    requires d < 16
    ensures IsLowerHexDigit(ch) && HexValue(ch) == d
  {
    if d < 10 then ('0' as int + d) as char else ('a' as int + d - 10) as char
  }

  /** The decimal digit of a value below ten. */
  function DigitChar(d: nat): (ch: char)
    requires d < 10
    ensures IsDigit(ch) && HexValue(ch) == d
  {
    ('0' as int + d) as char
  }

  lemma HexDigitOfValue(ch: char)
    requires IsLowerHexDigit(ch)
    ensures HexDigit(HexValue(ch)) == ch
  {
  }

  // ---------------------------------------------------------------------------
  // The `02x` format specification
  // ---------------------------------------------------------------------------

  /** `format(n, "02x")` for 0 <= n <= 255: two lower-case hexadecimal digits,
      the high nibble first, zero-padded. */
  function Hex02(n: nat): (s: string)
    requires n < 256
    ensures |s| == 2 && IsLowerHexDigit(s[0]) && IsLowerHexDigit(s[1])
    ensures HexValue(s[0]) * 16 + HexValue(s[1]) == n
  {
    [HexDigit(n / 16), HexDigit(n % 16)]
  }

  /** Reads back two lower-case hexadecimal digits; anything else is refused. */
  function ParseHex02(s: string): (r: Option<nat>)
    ensures r.Some? ==> r.value < 256
  {
    if |s| == 2 && IsLowerHexDigit(s[0]) && IsLowerHexDigit(s[1]) then
      Some(HexValue(s[0]) * 16 + HexValue(s[1]))
    else
      None
  }

  /** `02x` and its parser are inverse bijections between 0..255 and the
      two-digit lower-case hexadecimal strings. */
  lemma Hex02RoundTrip(n: nat, s: string)
    requires n < 256
    ensures ParseHex02(Hex02(n)) == Some(n)
    ensures ParseHex02(s) == Some(n) ==> Hex02(n) == s
  {
    if ParseHex02(s) == Some(n) {
      var hi, lo := HexValue(s[0]), HexValue(s[1]);
      assert n / 16 == hi && n % 16 == lo;
      HexDigitOfValue(s[0]);
      HexDigitOfValue(s[1]);
    }
  }

  // ---------------------------------------------------------------------------
  // str() of a non-negative integer
  // ---------------------------------------------------------------------------

  /** `str(n)` for n >= 0: decimal digits, most significant first, with no
      leading zero unless n is zero. */
  function Decimal(n: nat): (s: string)
    ensures |s| >= 1 && AllDigits(s)
    ensures s[0] == '0' ==> n == 0 && |s| == 1
    decreases n
  {
    if n < 10 then [DigitChar(n)] else Decimal(n / 10) + [DigitChar(n % 10)]
  }

  /** `int(s)` restricted to non-empty strings of decimal digits. */
  function ParseDecimal(s: string): (r: Option<nat>)
    ensures r.Some? <==> |s| >= 1 && AllDigits(s)
    decreases |s|
  {
    if |s| == 0 || !IsDigit(s[|s| - 1]) then None
    else if |s| == 1 then Some(HexValue(s[0]))
    else
      match ParseDecimal(s[..|s| - 1])
      case None => None
      case Some(m) => Some(m * 10 + HexValue(s[|s| - 1]))
  }

  lemma {:induction false} DecimalRoundTrip(n: nat)
    ensures ParseDecimal(Decimal(n)) == Some(n)
    decreases n
  {
    if n >= 10 {
      var s := Decimal(n);
      assert s[..|s| - 1] == Decimal(n / 10);
      DecimalRoundTrip(n / 10);
    }
  }

  // ---------------------------------------------------------------------------
  // str.split on one character
  // ---------------------------------------------------------------------------

  /** The maximal pieces of `s` between occurrences of `sep`, as Python's
      `s.split(sep)` gives them; only the parsers of rendered colours use it.
      There is always one more piece than there are separators. */
  function Split(s: string, sep: char): (parts: seq<string>)
    ensures |parts| >= 1
    ensures forall i :: 0 <= i < |parts| ==> sep !in parts[i]
    decreases |s|
  {
    if s == [] then [""]
    else
      var rest := Split(s[1..], sep);
      if s[0] == sep then [""] + rest
      else [[s[0]] + rest[0]] + rest[1..]
  }

  lemma {:induction false} SplitWithoutSeparator(a: string, sep: char)
    requires sep !in a
    ensures Split(a, sep) == [a]
    decreases |a|
  {
    if a != [] {
      assert sep !in a[1..];
      SplitWithoutSeparator(a[1..], sep);
      assert [a[0]] + a[1..] == a;
    }
  }

  lemma {:induction false} SplitAtSeparator(a: string, sep: char, b: string)
    requires sep !in a
    ensures Split(a + [sep] + b, sep) == [a] + Split(b, sep)
    decreases |a|
  {
    var s := a + [sep] + b;
    if a == [] {
      assert s[1..] == b;
    } else {
      assert s[1..] == a[1..] + [sep] + b;
      assert sep !in a[1..];
      SplitAtSeparator(a[1..], sep, b);
      assert [a[0]] + a[1..] == a;
    }
  }

  lemma DigitsHaveNo(s: string, ch: char)
    requires AllDigits(s) && !IsDigit(ch)
    ensures ch !in s
  {
  }
}
