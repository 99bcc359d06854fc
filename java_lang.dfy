/** The parts of the Java platform the order service relies on: the integer
    widths of `Long` and `Integer`, `Character.isWhitespace`,
    `String.toUpperCase` and the decimal rendering of a `Long` in string
    concatenation. Strings are sequences of code points. */
module JavaLang {

  /** A Java `long`. */
  newtype Long = x: int | -0x8000_0000_0000_0000 <= x < 0x8000_0000_0000_0000

  /** A Java `int`. */
  newtype Int = x: int | -0x8000_0000 <= x < 0x8000_0000

  /** `Character.isWhitespace`: the Unicode space, line and paragraph
      separators except the three non-breaking ones, plus the ASCII controls
      tab, line feed, vertical tab, form feed, carriage return and the four
      information separators U+001C..U+001F. */
  predicate IsWhitespace(c: char): (b: bool)
    ensures c == ' ' || c == '\t' || c == '\n' || c == '\r' ==> b
    ensures c == '\U{A0}' || c == '\U{2007}' || c == '\U{202F}' ==> !b
    ensures b ==> c <= '\U{3000}'
  {
    ('\t' <= c <= '\r') || ('\U{1C}' <= c <= '\U{1F}') || c == ' '
    || c == '\U{1680}' || ('\U{2000}' <= c <= '\U{2006}') || ('\U{2008}' <= c <= '\U{200A}')
    || c == '\U{2028}' || c == '\U{2029}' || c == '\U{205F}' || c == '\U{3000}'
  }

  /** The result of upper-casing one character in the root locale. Besides
      ASCII and Latin-1 this covers the lower-case characters whose upper case
      is plain ASCII (dotless i, long s, the Latin ligatures U+FB00..U+FB06);
      any other character is returned unchanged. Upper-casing never creates or
      destroys whitespace, and its output is already upper case. */
  function UpperCaseOf(c: char): (u: string)
    ensures |u| >= 1
    ensures IsWhitespace(c) ==> u == [c]
    ensures forall k :: 0 <= k < |u| ==> (IsWhitespace(u[k]) <==> IsWhitespace(c))
  {
    if 'a' <= c <= 'z' then [(c as int - 32) as char]
    else if c == '\U{B5}' then ['\U{39C}']
    else if c == '\U{DF}' then "SS"
    else if '\U{E0}' <= c <= '\U{FE}' && c != '\U{F7}' then [(c as int - 32) as char]
    else if c == '\U{FF}' then ['\U{178}']
    else if c == '\U{131}' then "I"
    else if c == '\U{17F}' then "S"
    else if c == '\U{FB00}' then "FF"
    else if c == '\U{FB01}' then "FI"
    else if c == '\U{FB02}' then "FL"
    else if c == '\U{FB03}' then "FFI"
    else if c == '\U{FB04}' then "FFL"
    else if c == '\U{FB05}' || c == '\U{FB06}' then "ST"
    else [c]
  }

  /** The upper case of a character is its own upper case. */
  lemma UpperCaseOfStable(c: char)
    ensures forall k :: 0 <= k < |UpperCaseOf(c)| ==> UpperCaseOf(UpperCaseOf(c)[k]) == [UpperCaseOf(c)[k]]
  {
  }

  /** An ASCII lower-case letter and its upper-case partner have the same
      upper case. */
  lemma UpperCaseOfAsciiLetter(c: char)
    requires 'a' <= c <= 'z'
    ensures UpperCaseOf(c) == [(c as int - 32) as char]
    ensures UpperCaseOf((c as int - 32) as char) == [(c as int - 32) as char]
  {
  }

  /** Other ASCII characters are their own upper case. */
  lemma UpperCaseOfAsciiOther(c: char)
    requires c < '\U{80}' && !('a' <= c <= 'z')
    ensures UpperCaseOf(c) == [c]
  {
  }

  /** `String.toUpperCase`: every character replaced by its upper case. */
  function ToUpperCase(s: string): (r: string)
    ensures |r| >= |s|
  {
    if s == [] then [] else UpperCaseOf(s[0]) + ToUpperCase(s[1..])
  }

  lemma ToUpperCaseChar(c: char)
    ensures ToUpperCase([c]) == UpperCaseOf(c)
  {
    assert ToUpperCase([c]) == UpperCaseOf(c) + ToUpperCase([]);
  }

  lemma {:induction false} ToUpperCaseAppend(a: string, b: string)
    ensures ToUpperCase(a + b) == ToUpperCase(a) + ToUpperCase(b)
  {
    if a == [] {
      assert a + b == b;
    } else {
      assert (a + b)[0] == a[0];
      assert (a + b)[1..] == a[1..] + b;
      ToUpperCaseAppend(a[1..], b);
    }
  }

  /** A string whose characters are their own upper case is left as it is. */
  lemma {:induction false} ToUpperCaseFixed(s: string)
    requires forall k :: 0 <= k < |s| ==> UpperCaseOf(s[k]) == [s[k]]
    ensures ToUpperCase(s) == s
  {
    if s != [] {
      ToUpperCaseFixed(s[1..]);
    }
  }

  /** Upper-casing is idempotent. */
  lemma {:induction false} ToUpperCaseIdempotent(s: string)
    ensures ToUpperCase(ToUpperCase(s)) == ToUpperCase(s)
  {
    if s != [] {
      var u := UpperCaseOf(s[0]);
      UpperCaseOfStable(s[0]);
      ToUpperCaseFixed(u);
      ToUpperCaseIdempotent(s[1..]);
      ToUpperCaseAppend(u, ToUpperCase(s[1..]));
    }
  }

  function DigitChar(d: nat): (c: char)
    requires d < 10
    ensures '0' <= c <= '9'
  {
    ('0' as int + d) as char
  }

  /** The number a string of decimal digits denotes, most significant first. */
  function DigitsValue(s: string): nat
    requires forall k :: 0 <= k < |s| ==> '0' <= s[k] <= '9'
  {
    if s == [] then 0 else DigitsValue(s[..|s| - 1]) * 10 + (s[|s| - 1] as int - '0' as int)
  }

  /** The decimal digits of a natural number, most significant first, with no
      leading zero. */
  function Decimal(n: nat): (r: string)
    ensures 1 <= |r|
    ensures (forall k :: 0 <= k < |r| ==> '0' <= r[k] <= '9') && DigitsValue(r) == n
    ensures n >= 10 <==> |r| >= 2
    ensures r[0] == '0' ==> n == 0
    decreases n
  {
    if n < 10 then [DigitChar(n)]
    else
      var r := Decimal(n / 10) + [DigitChar(n % 10)];
      assert r[..|r| - 1] == Decimal(n / 10);
      r
  }

  /** Two numbers with the same decimal rendering are equal: a corollary of
      `Decimal` rendering the number's value, proved here by induction. */
  lemma {:induction false} DecimalInjective(a: nat, b: nat)
    requires Decimal(a) == Decimal(b)
    ensures a == b
    decreases a
  {
    if a >= 10 && b >= 10 {
      var ra, rb := Decimal(a), Decimal(b);
      assert Decimal(a / 10) == ra[..|ra| - 1];
      assert Decimal(b / 10) == rb[..|rb| - 1];
      DecimalInjective(a / 10, b / 10);
      assert ra[|ra| - 1] == DigitChar(a % 10);
      assert rb[|rb| - 1] == DigitChar(b % 10);
    }
  }

  /** `Long.toString`, which string concatenation uses for a `Long` operand:
      a minus sign for negative values, then the decimal digits of the
      magnitude. */
  function LongToString(n: Long): (r: string)
    ensures r != []
    ensures r[0] == '-' <==> n < 0
    ensures forall k :: 0 < k < |r| ==> '0' <= r[k] <= '9'
    ensures n < 0 ==> DigitsValue(r[1..]) == -(n as int)
    ensures n >= 0 ==> (forall k :: 0 <= k < |r| ==> '0' <= r[k] <= '9') && DigitsValue(r) == n as int
    ensures n >= 0 && r[0] == '0' ==> r == "0"
    ensures n < 0 ==> |r| >= 2 && r[1] != '0'
  {
    if n < 0 then "-" + Decimal(-(n as int)) else Decimal(n as int)
  }

  /** Distinct `Long` values render as distinct strings: a corollary of the
      sign and digit value that `LongToString` renders. */
  lemma LongToStringInjective(a: Long, b: Long)
    requires LongToString(a) == LongToString(b)
    ensures a == b
  {
    if a < 0 {
      assert Decimal(-(a as int)) == LongToString(a)[1..];
      assert Decimal(-(b as int)) == LongToString(b)[1..];
      DecimalInjective(-(a as int), -(b as int));
    } else {
      DecimalInjective(a as int, b as int);
    }
  }
}
