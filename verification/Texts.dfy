/** Numbers printed as text, and texts joined by a separator. */
module Texts {
  const DIGITS := "0123456789ABCDEF"

  predicate IsDigit(c: char) { '0' <= c <= '9' }

  function DigitValue(c: char): int {
    if 'A' <= c then c as int - 'A' as int + 10 else c as int - '0' as int
  }

  lemma DigitOf(d: nat)
    requires d < 16
    ensures DigitValue(DIGITS[d]) == d
    ensures d < 10 ==> IsDigit(DIGITS[d])
  {
  }

  /** The %d format of a number that is not negative. */
  function Decimal(n: nat): string {
    if n < 10 then [DIGITS[n]] else Decimal(n / 10) + [DIGITS[n % 10]]
  }

  function Number(s: string): int {
    if s == [] then 0 else 10 * Number(s[..|s| - 1]) + DigitValue(s[|s| - 1])
  }

  lemma {:induction false} DecimalRoundTrip(n: nat)
    ensures Number(Decimal(n)) == n
  {
    DigitOf(n % 10);
    var s := Decimal(n);
    if n < 10 {
      assert s[..0] == [];
    } else {
      DecimalRoundTrip(n / 10);
      assert s[..|s| - 1] == Decimal(n / 10);
    }
  }

  lemma DecimalInjective(m: nat, n: nat)
    requires Decimal(m) == Decimal(n)
    ensures m == n
  {
    DecimalRoundTrip(m);
    DecimalRoundTrip(n);
  }

  lemma {:induction false} DecimalDigits(n: nat)
    ensures Decimal(n) != [] && forall i :: 0 <= i < |Decimal(n)| ==> IsDigit(Decimal(n)[i])
  {
    DigitOf(n % 10);
    if n >= 10 { DecimalDigits(n / 10); }
  }

  /** The %02X format of a byte. */
  function Hex(n: nat): string
    requires n < 256
  {
    [DIGITS[n / 16], DIGITS[n % 16]]
  }

  lemma HexInjective(m: nat, n: nat)
    requires m < 256 && n < 256 && Hex(m) == Hex(n)
    ensures m == n
  {
    DigitOf(m / 16);
    DigitOf(n / 16);
    DigitOf(m % 16);
    DigitOf(n % 16);
    assert Hex(m)[0] == Hex(n)[0] && Hex(m)[1] == Hex(n)[1];
  }

  /** The value of two hexadecimal digits. */
  function HexValue(s: string): int
    requires |s| == 2
  {
    16 * DigitValue(s[0]) + DigitValue(s[1])
  }

  lemma HexRoundTrip(n: nat)
    requires n < 256
    ensures |Hex(n)| == 2 && HexValue(Hex(n)) == n
  {
    DigitOf(n / 16);
    DigitOf(n % 16);
  }

  /** Two texts joined by a separator that the last part does not contain are told apart at the last
      separator. */
  lemma JoinInjective(a: string, b: string, a': string, b': string, sep: char)
    requires a + [sep] + b == a' + [sep] + b'
    requires sep !in b && sep !in b'
    ensures a == a' && b == b'
  {
    var s := a + [sep] + b;
    assert s[|a|] == sep && s[|a'|] == sep;
    assert forall i :: |a| < i < |s| ==> s[i] == b[i - |a| - 1];
    assert forall i :: |a'| < i < |s| ==> s[i] == b'[i - |a'| - 1];
    assert s[..|a|] == a && s[..|a'|] == a';
    assert s[|a| + 1..] == b && s[|a'| + 1..] == b';
  }
}
