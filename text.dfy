/** Character-level helpers the services rely on: ASCII case folding as used by
    `String.equalsIgnoreCase`, `String.isBlank`, and decimal rendering of numbers. */
module Text {

  /** Lower-case an ASCII letter; every other character is unchanged. */
  function Fold(c: char): char {
    if 'A' <= c <= 'Z' then (c as int + 32) as char else c
  }

  /** Java's `a.equalsIgnoreCase(b)`, restricted to ASCII case folding. */
  predicate EqualsIgnoreCase(a: string, b: string)
    ensures a == b ==> EqualsIgnoreCase(a, b)
    ensures EqualsIgnoreCase(a, b) ==> |a| == |b|
  {
    |a| == |b| && forall i :: 0 <= i < |a| ==> Fold(a[i]) == Fold(b[i])
  }

  /** The characters `Character.isWhitespace` accepts: the space, line and paragraph
      separators of Unicode except the non-breaking ones (U+00A0, U+2007, U+202F), the
      controls from tab to carriage return, and the four information separators. */
  predicate IsWhitespace(c: char) {
    || c == ' ' || '\t' <= c <= '\r' || '\U{1C}' <= c <= '\U{1F}'
    || c == '\U{1680}' || ('\U{2000}' <= c <= '\U{200A}' && c != '\U{2007}')
    || c == '\U{2028}' || c == '\U{2029}' || c == '\U{205F}' || c == '\U{3000}'
  }

  /** Java's `s.isBlank()`: empty or only whitespace. */
  predicate IsBlank(s: string)
    ensures IsBlank(s) <==> forall c | c in s :: IsWhitespace(c)
  {
    forall i :: 0 <= i < |s| ==> IsWhitespace(s[i])
  }

  /** An ideographic space or a line separator is blank; a non-breaking space is not. */
  lemma UnicodeBlanks()
    ensures IsBlank("\U{3000}") && IsBlank(" \t\U{2028}\U{2003}")
    ensures !IsBlank("\U{A0}") && !IsBlank("\U{2007}") && !IsBlank("\U{202F}")
  {
    assert !IsWhitespace("\U{A0}"[0]);
    assert !IsWhitespace("\U{2007}"[0]);
    assert !IsWhitespace("\U{202F}"[0]);
  }

  function Digit(d: nat): char
    requires d < 10
  {
    ('0' as int + d) as char
  }

  /** Decimal digits of `n`, as `%d` or string concatenation renders a non-negative long:
      no leading zero except for 0 itself. */
  function NatToString(n: nat): (s: string)
    ensures |s| >= 1
    ensures forall i :: 0 <= i < |s| ==> '0' <= s[i] <= '9'
    ensures s[0] == '0' <==> n == 0
    ensures |s| == 1 <==> n < 10
  {
    if n < 10 then [Digit(n)] else NatToString(n / 10) + [Digit(n % 10)]
  }

  /** The number a string of decimal digits denotes, read from the left. */
  function DecimalValue(s: string): int {
    if s == [] then 0 else DecimalValue(s[..|s| - 1]) * 10 + (s[|s| - 1] as int - '0' as int)
  }

  /** Reading back the digits of `n` gives `n`. */
  lemma {:induction false} NatToStringRoundTrip(n: nat)
    ensures DecimalValue(NatToString(n)) == n
  {
    if n >= 10 {
      NatToStringRoundTrip(n / 10);
      var s := NatToString(n);
      assert s[..|s| - 1] == NatToString(n / 10);
    }
  }

  /** Distinct numbers render differently. */
  lemma NatToStringInjective(a: nat, b: nat)
    requires NatToString(a) == NatToString(b)
    ensures a == b
  {
    NatToStringRoundTrip(a);
    NatToStringRoundTrip(b);
  }

  /** An amount in minor units rendered with two decimals, as `%.2f` renders it: a minus sign
      exactly for a negative amount, the whole units, a point and two digits. */
  function FormatCents(n: int): (s: string)
    ensures forall i :: 0 <= i < |s| ==> s[i] == '-' || s[i] == '.' || '0' <= s[i] <= '9'
    ensures |s| >= 4 && s[|s| - 3] == '.'
    ensures s[0] == '-' <==> n < 0
  {
    if n < 0 then "-" + FormatUnsignedCents(-n) else FormatUnsignedCents(n)
  }

  function FormatUnsignedCents(n: nat): (s: string)
    ensures forall i :: 0 <= i < |s| ==> s[i] == '.' || '0' <= s[i] <= '9'
    ensures |s| >= 4 && s[|s| - 3] == '.' && '0' <= s[0] <= '9'
  {
    NatToString(n / 100) + "." + [Digit((n % 100) / 10), Digit(n % 10)]
  }

  /** The amount in minor units a rendering with two decimals denotes. */
  function CentsValue(s: string): int {
    if |s| > 0 && s[0] == '-' then -UnsignedCentsValue(s[1..]) else UnsignedCentsValue(s)
  }

  function UnsignedCentsValue(s: string): int {
    if |s| < 3 then DecimalValue(s) else DecimalValue(s[..|s| - 3]) * 100 + DecimalValue(s[|s| - 2..])
  }

  /** Reading back a rendered amount gives the amount: no cent is lost or invented. */
  lemma FormatCentsRoundTrip(n: int)
    ensures CentsValue(FormatCents(n)) == n
  {
    if n < 0 {
      var u := FormatUnsignedCents(-n);
      assert ("-" + u)[1..] == u;
      UnsignedRoundTrip(-n);
    } else {
      UnsignedRoundTrip(n);
    }
  }

  lemma UnsignedRoundTrip(n: nat)
    ensures UnsignedCentsValue(FormatUnsignedCents(n)) == n
  {
    var whole := NatToString(n / 100);
    var tens, units := (n % 100) / 10, n % 10;
    var s := FormatUnsignedCents(n);
    assert s[..|s| - 3] == whole;
    assert s[|s| - 2..] == [Digit(tens), Digit(units)];
    assert [Digit(tens), Digit(units)][..1] == [Digit(tens)];
    assert [Digit(tens)][..0] == [];
    assert DecimalValue([Digit(tens)]) == tens;
    assert DecimalValue([Digit(tens), Digit(units)]) == tens * 10 + units;
    NatToStringRoundTrip(n / 100);
    assert tens * 10 + units == n % 100;
  }
}
