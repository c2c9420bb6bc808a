/** Decimal digit strings: their numeric value and the canonical rendering of a
    natural number, as Rust's `{}` formatting of an unsigned integer gives it. */
module Digits {

  predicate IsDigit(c: char) {
    '0' <= c <= '9'
  }

  predicate AllDigits(s: string) {
    forall i :: 0 <= i < |s| ==> IsDigit(s[i])
  }

  function DigitValue(c: char): (d: nat)
    requires IsDigit(c)
    ensures d < 10
  {
    c as int - '0' as int
  }

  function DigitChar(d: nat): (c: char)
    requires d < 10
    ensures IsDigit(c) && DigitValue(c) == d
  {
    ('0' as int + d) as char
  }

  function Pow10(n: nat): (p: nat)
    ensures p >= 1
  {
    if n == 0 then 1 else 10 * Pow10(n - 1)
  }

  lemma {:induction false} Pow10Add(m: nat, n: nat)
    ensures Pow10(m + n) == Pow10(m) * Pow10(n)
  {
    if n > 0 {
      Pow10Add(m, n - 1);
      assert Pow10(m + n) == 10 * Pow10(m + n - 1);
      TenInside(Pow10(m), Pow10(n - 1));
    }
  }

  lemma TenInside(a: int, b: int)
    ensures 10 * (a * b) == a * (10 * b)
  {
  }

  /** The value of a string of decimal digits, most significant first. */
  function NatOf(s: string): (n: nat)
    requires AllDigits(s)
    ensures n < Pow10(|s|)
  {
    if s == [] then 0 else NatOf(s[..|s| - 1]) * 10 + DigitValue(s[|s| - 1])
  }

  lemma {:induction false} NatOfAppend(a: string, b: string)
    requires AllDigits(a) && AllDigits(b)
    ensures AllDigits(a + b)
    ensures NatOf(a + b) == NatOf(a) * Pow10(|b|) + NatOf(b)
  {
    if b == [] {
      assert a + b == a;
    } else {
      var b', c := b[..|b| - 1], b[|b| - 1];
      assert (a + b)[..|a + b| - 1] == a + b';
      NatOfAppend(a, b');
      ShiftDigit(NatOf(a), Pow10(|b'|), NatOf(b'), DigitValue(c));
    }
  }

  /** Cutting a digit string in two: the head's value is shifted past the tail. */
  lemma NatOfSplit(s: string, i: nat)
    requires AllDigits(s) && i <= |s|
    ensures AllDigits(s[..i]) && AllDigits(s[i..])
    ensures NatOf(s) == NatOf(s[..i]) * Pow10(|s| - i) + NatOf(s[i..])
  {
    assert s[..i] + s[i..] == s;
    NatOfAppend(s[..i], s[i..]);
  }

  lemma ShiftDigit(x: int, p: int, y: int, d: int)
    ensures (x * p + y) * 10 + d == x * (10 * p) + (y * 10 + d)
  {
  }

  /** A string of '0' characters has value zero. */
  lemma {:induction false} NatOfZeros(n: nat)
    ensures AllDigits(seq(n, _ => '0')) && NatOf(seq(n, _ => '0')) == 0
  {
    if n > 0 {
      NatOfZeros(n - 1);
      assert seq(n, _ => '0')[..n - 1] == seq(n - 1, _ => '0');
    }
  }

  /** The canonical decimal text of `n`: digits only, no leading zero, and
      reading it back gives `n`. */
  function NatToString(n: nat): (s: string)
    ensures |s| > 0 && AllDigits(s)
    ensures s[0] == '0' ==> |s| == 1
    ensures NatOf(s) == n
  {
    if n < 10 then
      [DigitChar(n)]
    else
      var prefix := NatToString(n / 10);
      var s := prefix + [DigitChar(n % 10)];
      assert s[..|s| - 1] == prefix;
      s
  }

  /** (q * m + r) * 10000 / (10000 * m) == q when r < m. */
  lemma DivideExactShift(q: nat, r: nat, m: nat)
    requires 0 <= r < m
    ensures (q * m + r) * 10000 / (10000 * m) == q
  {
    var x := (q * m + r) * 10000;
    var y := 10000 * m;
    assert x == q * y + r * 10000;
    assert r * 10000 < y;
    DivisionUnique(x, y, q);
  }

  lemma MultiplyThenDivide(a: nat, m: nat)
    requires m > 0
    ensures a * m / m == a
  {
    DivisionUnique(a * m, m, a);
  }

  lemma DivisionUnique(x: int, y: int, q: int)
    requires y > 0 && q * y <= x < q * y + y
    ensures x / y == q
  {
    var q', r := x / y, x % y;
    assert x == q' * y + r && 0 <= r < y;
    if q' > q {
      NextMultipleAbove(q, q', y);
    } else if q' < q {
      NextMultipleAbove(q', q, y);
    }
  }

  lemma NextMultipleAbove(a: int, b: int, y: int)
    requires a < b && y >= 0
    ensures a * y + y <= b * y
  {
    var k := b - a;
    assert b * y == a * y + k * y;
    assert k * y == (k - 1) * y + y;
    assert (k - 1) * y >= 0;
  }

  lemma MulAssociates(x: int, y: int, z: int)
    ensures x * (z * y) == (x * y) * z
  {
  }

  /** Four more digits scale by ten thousand. */
  lemma Pow10MinusFour(n: nat)
    requires n >= 4
    ensures Pow10(n) == 10000 * Pow10(n - 4)
  {
    Pow10Add(4, n - 4);
    Pow10Four();
  }

  lemma Pow10Four()
    ensures Pow10(4) == 10000
  {
    assert Pow10(1) == 10;
    assert Pow10(2) == 100;
    assert Pow10(3) == 1000;
  }

  /** Scaling a value with `m` digits past the first four down to four digits. */
  lemma ScaleDown(n: nat, p: nat, q: nat, r: nat, m: nat)
    requires n == q * m + r && r < m && p == 10000 * m
    ensures n * 10000 / p == q
  {
    DivideExactShift(q, r, m);
  }

  /** Scaling a value with fewer than four digits up to four digits. */
  lemma ScaleUp(n: nat, pad: nat, m: nat)
    requires m * pad == 10000
    ensures m > 0 && n * 10000 / m == n * pad
  {
    MulAssociates(n, pad, m);
    MultiplyThenDivide(n * pad, m);
  }
}
