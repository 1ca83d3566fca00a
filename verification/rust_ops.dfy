/**
 * Rust integer semantics that differ from Dafny's.
 *
 * Rust's `/` truncates toward zero and its `%` takes the sign of the dividend,
 * whereas Dafny's operators are Euclidean.  Every divisor in the calendar code
 * is a positive constant, so the helpers below only accept positive divisors.
 * `IntToString` is Rust's `i32::to_string` (decimal, leading '-' when negative).
 */
module RustOps {

  function Abs(x: int): nat {
    if x < 0 then -x else x
  }

  /** Rust's `a / b` for `b > 0`: the quotient rounded toward zero. */
  function Div(a: int, b: int): int
    requires b > 0
  {
    if a >= 0 then a / b else -((-a) / b)
  }

  /** Rust's `a % b` for `b > 0`: the remainder carries the sign of `a`. */
  function Rem(a: int, b: int): int
    requires b > 0
  {
    if a >= 0 then a % b else -((-a) % b)
  }

  /** Euclidean division is determined by its defining equation. */
  lemma DivUnique(x: int, k: int, q: int, r: int)
    requires k > 0 && 0 <= r < k && x == k * q + r
    ensures x / k == q && x % k == r
  {
    var t := q - x / k;
    assert k * t == x % k - r;
    assert t >= 1 ==> k * t >= k;
    assert t <= -1 ==> k * t <= -k;
  }

  /** Truncated division and remainder satisfy Rust's defining equations. */
  lemma DivRem(a: int, b: int)
    requires b > 0
    ensures a == b * Div(a, b) + Rem(a, b)
    ensures a >= 0 ==> 0 <= Rem(a, b) < b
    ensures a < 0 ==> -b < Rem(a, b) <= 0
    ensures Abs(Div(a, b)) == Abs(a) / b
  {
    var q, r := Abs(a) / b, Abs(a) % b;
    assert Abs(a) == b * q + r && 0 <= r < b;
    if a < 0 {
      assert Div(a, b) == -q && Rem(a, b) == -r;
      assert a == b * (-q) + (-r);
    } else {
      assert Div(a, b) == q && Rem(a, b) == r;
    }
  }

  /** A negative number is divisible by k exactly when its magnitude is. */
  lemma NegativeDivisible(a: int, k: int)
    requires a < 0 && k > 0
    ensures (-a) % k == 0 <==> a % k == 0
  {
    var q, r := (-a) / k, (-a) % k;
    assert -a == k * q + r && 0 <= r < k;
    if r == 0 {
      DivUnique(a, k, -q, 0);
    } else {
      DivUnique(a, k, -q - 1, k - r);
    }
  }

  /** Divisibility by the leap-year moduli does not depend on the rounding convention. */
  lemma RemZeroLeapModuli(a: int)
    ensures Rem(a, 4) == 0 <==> a % 4 == 0
    ensures Rem(a, 100) == 0 <==> a % 100 == 0
    ensures Rem(a, 400) == 0 <==> a % 400 == 0
  {
    if a < 0 {
      NegativeDivisible(a, 4);
      NegativeDivisible(a, 100);
      NegativeDivisible(a, 400);
    }
  }

  /** For a non-negative dividend both conventions agree. */
  lemma AgreesWhenNonNegative(a: int, b: int)
    requires a >= 0 && b > 0
    ensures Div(a, b) == a / b && Rem(a, b) == a % b
  {
  }

  function DigitChar(n: nat): char
    requires n < 10
  {
    (n + '0' as int) as char
  }

  predicate IsDigit(c: char) {
    '0' <= c <= '9'
  }

  function DigitValue(c: char): nat
    requires IsDigit(c)
  {
    c as int - '0' as int
  }

  /** Decimal digits of a natural number, most significant first, no leading zeros. */
  function NatToString(n: nat): (s: string)
    ensures 1 <= |s|
    ensures forall i :: 0 <= i < |s| ==> IsDigit(s[i])
    ensures n >= 10 ==> s[0] != '0'
  {
    if n < 10 then [DigitChar(n)] else NatToString(n / 10) + [DigitChar(n % 10)]
  }

  /** Rust's `i32::to_string`. */
  function IntToString(i: int): string {
    if i < 0 then "-" + NatToString(-i) else NatToString(i)
  }

  /** The value of a string of decimal digits. */
  function DigitsValue(s: string): nat
    requires forall i :: 0 <= i < |s| ==> IsDigit(s[i])
  {
    if |s| == 0 then 0 else 10 * DigitsValue(s[..|s| - 1]) + DigitValue(s[|s| - 1])
  }

  /** Reading the decimal digits back yields the number: `to_string` and `parse` are inverse. */
  lemma {:induction false} NatToStringRoundTrip(n: nat)
    ensures DigitsValue(NatToString(n)) == n
  {
    if n >= 10 {
      var s := NatToString(n);
      assert s[..|s| - 1] == NatToString(n / 10);
      NatToStringRoundTrip(n / 10);
    }
  }

  /** Numbers of one, two and four digits print with that many characters. */
  lemma NatToStringLength(n: nat)
    ensures n < 10 ==> |NatToString(n)| == 1
    ensures 10 <= n < 100 ==> NatToString(n) == [DigitChar(n / 10), DigitChar(n % 10)]
    ensures 1000 <= n < 10000 ==>
      NatToString(n) == [DigitChar(n / 1000), DigitChar(n / 100 % 10), DigitChar(n / 10 % 10), DigitChar(n % 10)]
  {
    if 1000 <= n < 10000 {
      FourDigits(n);
    }
  }

  lemma FourDigits(n: nat)
    requires 1000 <= n < 10000
    ensures NatToString(n) == [DigitChar(n / 1000), DigitChar(n / 100 % 10), DigitChar(n / 10 % 10), DigitChar(n % 10)]
  {
    var a, b, c := n / 1000, n / 100, n / 10;
    assert b / 10 == a && c / 10 == b;
    assert NatToString(a) == [DigitChar(a)];
    assert NatToString(b) == NatToString(a) + [DigitChar(b % 10)];
    assert NatToString(c) == NatToString(b) + [DigitChar(c % 10)];
    assert NatToString(n) == NatToString(c) + [DigitChar(n % 10)];
  }
}
