/** The few ECMAScript built-ins that the header editor and the toolchain
    helpers rely on, on the values those callers pass (strings and integral
    Numbers). A JavaScript string is a `string` here, one `char` per Unicode
    scalar value, which is one code unit for text in the Basic Multilingual
    Plane. */
module Js {

  datatype Option<T> = None | Some(value: T)

  /** The completion of an expression: a normal value, or an error thrown. */
  datatype Completion<T> = Normal(value: T) | Throw(error: ErrorKind)

  datatype ErrorKind = RangeError | TypeError

  const TWO_TO_31: int := 0x8000_0000
  const TWO_TO_32: int := 0x1_0000_0000

  function Min(a: int, b: int): int { if a <= b then a else b }

  function Max(a: int, b: int): int { if a <= b then b else a }

  /** ToInt32 (ECMAScript section 7.1.6) on an integral Number: the operand
      conversion of `>>`, `&` and friends. */
  function ToInt32(x: int): (r: int)
    ensures -TWO_TO_31 <= r < TWO_TO_31
    ensures (x - r) % TWO_TO_32 == 0
  {
    var m := x % TWO_TO_32;
    if m >= TWO_TO_31 then m - TWO_TO_32 else m
  }

  function Pow2(n: nat): (r: nat)
    ensures r > 0
  {
    if n == 0 then 1 else 2 * Pow2(n - 1)
  }

  /** String.prototype.substr (ECMAScript Annex B.2.2.1) with integral
      arguments. */
  function Substr(s: string, start: int, length: int): (r: string)
    ensures |r| <= Max(length, 0)
    ensures start == 0 && length >= |s| ==> r == s
    ensures start == 0 && 0 <= length <= |s| ==> r == s[..length]
  {
    var size := |s|;
    var from := if start < 0 then Max(size + start, 0) else Min(start, size);
    var count := Min(Max(length, 0), size);
    s[from..Min(from + count, size)]
  }

  /** String.prototype.lastIndexOf for a one-character search string. */
  function LastIndexOf(s: string, c: char): (r: int)
    ensures -1 <= r < |s|
    ensures r == -1 <==> c !in s
    ensures 0 <= r ==> s[r] == c && c !in s[r + 1..]
  {
    if s == [] then -1
    else if s[|s| - 1] == c then |s| - 1
    else
      var r := LastIndexOf(s[..|s| - 1], c);
      assert s == s[..|s| - 1] + [s[|s| - 1]];
      assert 0 <= r ==> s[r + 1..] == s[..|s| - 1][r + 1..] + [s[|s| - 1]];
      r
  }

  /** String.prototype.indexOf for a one-character search string. */
  function IndexOf(s: string, c: char): (r: int)
    ensures -1 <= r < |s|
    ensures r == -1 <==> c !in s
    ensures 0 <= r ==> s[r] == c && c !in s[..r]
  {
    if s == [] then -1
    else if s[0] == c then 0
    else
      var r := IndexOf(s[1..], c);
      assert s == [s[0]] + s[1..];
      assert 0 <= r ==> s[..r + 1] == [s[0]] + s[1..][..r];
      if r < 0 then -1 else r + 1
  }

  /** Array.prototype.join over an array of strings. */
  function Join(xs: seq<string>, separator: string): string
  {
    if |xs| == 0 then ""
    else if |xs| == 1 then xs[0]
    else xs[0] + separator + Join(xs[1..], separator)
  }

  /** String.prototype.repeat with a non-negative integral count. */
  function Repeat(s: string, count: nat): (r: string)
    ensures |r| == count * |s|
    ensures forall i :: 0 <= i < |r| ==> r[i] == s[i % |s|]
  {
    if count == 0 || s == "" then ""
    else
      var rest := Repeat(s, count - 1);
      RepeatStep(s, rest);
      s + rest
  }

  /** One more copy in front keeps the cycle. */
  lemma RepeatStep(s: string, rest: string)
    requires |s| > 0
    requires forall i :: 0 <= i < |rest| ==> rest[i] == s[i % |s|]
    ensures forall i :: 0 <= i < |s + rest| ==> (s + rest)[i] == s[i % |s|]
  {
    forall i | 0 <= i < |s + rest|
      ensures (s + rest)[i] == s[i % |s|]
    {
      if i < |s| {
        assert i % |s| == i;
      } else {
        ModShiftedDown(i, |s|);
        assert (s + rest)[i] == rest[i - |s|];
      }
    }
  }

  lemma ModShiftedDown(i: int, m: int)
    requires m > 0
    ensures (i - m) % m == i % m
  {
    DivModAddMultiple(i, -1, m);
  }

  /** Adding a multiple of the divisor moves the quotient and keeps the
      remainder. */
  lemma DivModAddMultiple(u: int, k: int, d: int)
    requires d > 0
    ensures (u + k * d) / d == u / d + k
    ensures (u + k * d) % d == u % d
  {
    var q, r := (u + k * d) / d, (u + k * d) % d;
    var q0, r0 := u / d, u % d;
    assert u + k * d == q * d + r;
    assert u == q0 * d + r0;
    assert (q - q0 - k) * d == r0 - r;
    SmallMultipleIsZero(q - q0 - k, d, r0 - r);
  }

  lemma SmallMultipleIsZero(e: int, d: int, t: int)
    requires d > 0 && -d < t < d && e * d == t
    ensures e == 0
  {
  }

  lemma Pow2Bytes()
    ensures Pow2(0) == 1 && Pow2(8) == 0x100 && Pow2(16) == 0x1_0000 && Pow2(24) == 0x100_0000
  {
    assert Pow2(2) == 4;
    assert Pow2(4) == 0x10;
    assert Pow2(6) == 0x40;
    assert Pow2(8) == 0x100;
    assert Pow2(10) == 0x400;
    assert Pow2(12) == 0x1000;
    assert Pow2(14) == 0x4000;
    assert Pow2(16) == 0x1_0000;
    assert Pow2(18) == 0x4_0000;
    assert Pow2(20) == 0x10_0000;
    assert Pow2(22) == 0x40_0000;
  }

  /** String.prototype.padEnd as built into ECMAScript 2017 (section 22.1.3.16
      of ECMAScript 2022): the filler repeats cyclically, and an empty filler
      leaves the string unchanged. */
  function NativePadEnd(s: string, maxLength: int, fillString: string): string
  {
    if maxLength <= |s| || fillString == [] then s
    else s + seq(maxLength - |s|, k requires 0 <= k < maxLength - |s| => fillString[k % |fillString|])
  }

  function DigitChar(d: nat): (c: char)
    requires d < 10
  {
    ('0' as int + d) as char
  }

  /** The number a string of decimal digits denotes, most significant digit
      first; the reader the renderings below are checked against. */
  function DecimalValue(s: string): nat
    requires forall i :: 0 <= i < |s| ==> '0' <= s[i] <= '9'
  {
    if s == [] then 0
    else DecimalValue(s[..|s| - 1]) * 10 + (s[|s| - 1] as int - '0' as int)
  }

  /** The decimal digits of `n`, without leading zeros. */
  function DecimalDigits(n: nat): (r: string)
    ensures |r| > 0
    ensures forall i :: 0 <= i < |r| ==> '0' <= r[i] <= '9'
    ensures DecimalValue(r) == n
    ensures |r| > 1 ==> r[0] != '0'
  {
    if n < 10 then [DigitChar(n)]
    else
      var front := DecimalDigits(n / 10);
      var r := front + [DigitChar(n % 10)];
      assert r[..|r| - 1] == front;
      r
  }

  /** Number::toString (ECMAScript section 6.1.6.1.20) on an integer of
      magnitude below 10^21, such as a year, as `"..." + n` uses it: the
      decimal digits without leading zeros, after a minus sign when `n` is
      negative. Larger magnitudes print in exponent form and are not
      modelled. */
  function NumberToString(n: int): (r: string)
    ensures forall i :: 0 <= i < |r| ==> r[i] == '-' || '0' <= r[i] <= '9'
    ensures 0 <= n ==> && (forall i :: 0 <= i < |r| ==> '0' <= r[i] <= '9')
                       && DecimalValue(r) == n && (|r| > 1 ==> r[0] != '0')
    ensures n < 0 ==> && |r| > 1 && r[0] == '-'
                      && (forall i :: 1 <= i < |r| ==> '0' <= r[i] <= '9')
                      && DecimalValue(r[1..]) == -n && (|r| > 2 ==> r[1] != '0')
  {
    if n < 0 then
      var digits := DecimalDigits(-n);
      assert ("-" + digits)[1..] == digits;
      "-" + digits
    else DecimalDigits(n)
  }

  lemma {:induction false} FourDigitYear(n: int)
    requires 1000 <= n < 10000
    ensures |NumberToString(n)| == 4
    ensures NumberToString(n)
            == [DigitChar(n / 1000), DigitChar(n / 100 % 10), DigitChar(n / 10 % 10), DigitChar(n % 10)]
  {
    assert n / 10 / 10 == n / 100 && n / 100 / 10 == n / 1000;
    assert DecimalDigits(n / 1000) == [DigitChar(n / 1000)];
    assert DecimalDigits(n / 100) == [DigitChar(n / 1000), DigitChar(n / 100 % 10)];
    assert DecimalDigits(n / 10) == [DigitChar(n / 1000), DigitChar(n / 100 % 10), DigitChar(n / 10 % 10)];
  }
}
