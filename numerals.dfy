/**
  Decimal digit strings and Java's 32-bit `int`: the text side of Integer.parseInt,
  and the digit rendering that the persisted line format writes.
*/
module Numerals {
  import opened Wrappers

  const MinInt32: int := -0x8000_0000
  const MaxInt32: int := 0x7fff_ffff

  /** Java's `int`. */
  type Int32 = x: int | -0x8000_0000 <= x <= 0x7fff_ffff

  /** Java's `int` arithmetic: the result of an addition or multiplication, wrapped to 32 bits. */
  function Wrap32(x: int): (r: Int32)
    ensures MinInt32 <= x <= MaxInt32 ==> r == x
    ensures (r - x) % 0x1_0000_0000 == 0
  {
    (x + 0x8000_0000) % 0x1_0000_0000 - 0x8000_0000
  }

  function Pow10(n: nat): (r: nat)
    ensures r >= 1
  {
    if n == 0 then 1 else 10 * Pow10(n - 1)
  }

  lemma {:induction false} Pow10Add(a: nat, b: nat)
    ensures Pow10(a + b) == Pow10(a) * Pow10(b)
  {
    if b > 0 {
      Pow10Add(a, b - 1);
      assert Pow10(a + b) == 10 * Pow10(a + b - 1);
    }
  }

  predicate IsDigit(c: char) {
    '0' <= c <= '9'
  }

  predicate AllDigits(s: string) {
    forall i :: 0 <= i < |s| ==> IsDigit(s[i])
  }

  function DigitValue(c: char): (d: nat)
    requires IsDigit(c)
    ensures d < 10
  {
    c as int - '0' as int
  }

  function DigitChar(d: nat): (c: char)
    requires d < 10
    ensures IsDigit(c) && DigitValue(c) == d
  {
    ('0' as int + d) as char
  }

  /** The number a string of ASCII digits denotes, most significant digit first. */
  function DigitsValue(s: string): (r: nat)
    requires AllDigits(s)
    ensures r < Pow10(|s|)
  {
    if s == [] then 0 else DigitsValue(s[..|s| - 1]) * 10 + DigitValue(s[|s| - 1])
  }

  /** The shortest digit string of `n` (no leading zeros). */
  function NatText(n: nat): (s: string)
    ensures |s| >= 1 && AllDigits(s) && DigitsValue(s) == n
    ensures |s| > 1 ==> s[0] != '0'
  {
    if n < 10 then [DigitChar(n)]
    else
      var prefix := NatText(n / 10);
      var s := prefix + [DigitChar(n % 10)];
      assert s[..|s| - 1] == prefix;
      s
  }

  /** The last `width` digits of `n`, padded on the left with zeros. */
  function PaddedText(n: nat, width: nat): (s: string)
    ensures |s| == width && AllDigits(s) && DigitsValue(s) == n % Pow10(width)
  {
    if width == 0 then []
    else
      var prefix := PaddedText(n / 10, width - 1);
      var s := prefix + [DigitChar(n % 10)];
      assert s[..|s| - 1] == prefix;
      ModTenSplit(n, Pow10(width - 1));
      s
  }

  lemma ModTenSplit(n: nat, p: nat)
    requires p >= 1
    ensures (n / 10) % p * 10 + n % 10 == n % (10 * p)
  {
    var a, b := n / 10, n % 10;
    var q, c := a / p, a % p;
    assert a == p * q + c;
    assert n == 10 * a + b;
    assert n == q * (10 * p) + (10 * c + b) by {
      assert 10 * (p * q + c) + b == q * (10 * p) + (10 * c + b);
    }
    ModOfDecomposition(n, 10 * p, q, 10 * c + b);
  }

  /** `%` is determined by any decomposition `n == k * m + r` with `0 <= r < m`. */
  lemma ModOfDecomposition(n: int, m: int, k: int, r: int)
    requires m > 0 && 0 <= r < m && n == k * m + r
    ensures n % m == r && n / m == k
  {
    var q, s := n / m, n % m;
    assert q * m + s == k * m + r;
    if q > k {
      MulMonotone(k + 1, q, m);
    } else if q < k {
      MulMonotone(q + 1, k, m);
    }
  }

  lemma MulMonotone(a: int, b: int, m: nat)
    requires a <= b
    ensures a * m <= b * m
  {
  }

  /** The text Java's Integer.toString gives for an int. */
  function IntText(n: int): (s: string)
    ensures |s| >= 1
  {
    if n < 0 then "-" + NatText(0 - n) else NatText(n)
  }

  /**
    Integer.parseInt(s): an optional '+' or '-', then one or more ASCII digits, whose value
    must fit an int; anything else is a NumberFormatException, here None.
  */
  function ParseInt(s: string): (r: Option<Int32>)
    ensures r.Some? ==> |s| >= 1 && (IsDigit(s[0]) || s[0] == '-' || s[0] == '+') && AllDigits(s[1..])
    ensures r.Some? && s[0] == '-' ==> r.value <= 0
    ensures r.Some? && s[0] != '-' ==> r.value >= 0
  {
    var signed := |s| > 0 && (s[0] == '-' || s[0] == '+');
    var digits := if signed then s[1..] else s;
    if |digits| == 0 || !AllDigits(digits) then None
    else
      var v: int := if signed && s[0] == '-' then 0 - DigitsValue(digits) else DigitsValue(digits);
      if MinInt32 <= v <= MaxInt32 then Some(v) else None
  }

  /**
    parseInt reads back the decimal text of every int, and rejects the text of every integer
    outside int.
  */
  lemma ParseIntText(n: int)
    ensures ParseInt(IntText(n)) == if MinInt32 <= n <= MaxInt32 then Some(n) else None
  {
    var s := IntText(n);
    if n < 0 {
      var m: nat := 0 - n;
      assert s[1..] == NatText(m);
    } else {
      assert IsDigit(s[0]);
    }
  }

  /** A sign with no digits, and a digit followed by a letter, are rejected. */
  lemma ParseIntRejects()
    ensures ParseInt("") == None && ParseInt("-") == None && ParseInt("+") == None
    ensures ParseInt("1x") == None
  {
    assert !IsDigit("1x"[1]);
  }
}
