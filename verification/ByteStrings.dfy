/**
 Byte strings, and the decimal conversions that the append-only log relies on:
 the printer's ll2string and the loader's strtol and atoi.
 */
module ByteStrings {

  type Byte = x: int | 0 <= x < 256

  type Bytes = seq<Byte>

  const CR: Byte := 13
  const LF: Byte := 10
  const ZERO: Byte := 48
  const CRLF: Bytes := [CR, LF]

  const LONG_MAX := 0x7fff_ffff_ffff_ffff
  const INT_MAX := 0x7fff_ffff

  predicate IsDigit(b: Byte) { 48 <= b <= 57 }

  predicate AllDigits(s: Bytes) { forall i :: 0 <= i < |s| ==> IsDigit(s[i]) }

  predicate IsSpace(b: Byte) { b == 32 || 9 <= b <= 13 }

  /** The bytes of a text of 8-bit characters. */
  function Text(s: string): Bytes
    requires forall i :: 0 <= i < |s| ==> s[i] as int < 256
  {
    seq(|s|, i requires 0 <= i < |s| => s[i] as int)
  }

  /** The decimal text of n, as ll2string prints it. */
  function Digits(n: nat): (s: Bytes)
    ensures 1 <= |s| && AllDigits(s)
    ensures n > 0 ==> s[0] != ZERO
  {
    if n < 10 then [ZERO + n] else Digits(n / 10) + [ZERO + n % 10]
  }

  /** The value of the digits at the front of s, read onto acc; stops at the first non-digit. */
  function DigitRun(s: Bytes, acc: nat): nat
  {
    if s != [] && IsDigit(s[0]) then DigitRun(s[1..], 10 * acc + (s[0] - 48)) else acc
  }

  function SkipSpaces(s: Bytes): Bytes
  {
    if s != [] && IsSpace(s[0]) then SkipSpaces(s[1..]) else s
  }

  function Saturate(n: int): int
  {
    if n > LONG_MAX then LONG_MAX else if n < -LONG_MAX - 1 then -LONG_MAX - 1 else n
  }

  /** strtol(s, NULL, 10): blanks, an optional sign, digits; saturating at the limits of a long. */
  function Strtol(s: Bytes): int
  {
    var t := SkipSpaces(s);
    if t != [] && t[0] == 45 then Saturate(0 - DigitRun(t[1..], 0))
    else if t != [] && t[0] == 43 then Saturate(DigitRun(t[1..], 0))
    else Saturate(DigitRun(t, 0))
  }

  /** A long stored into an unsigned long. */
  function ToUnsignedLong(n: int): nat
    requires -LONG_MAX - 1 <= n <= LONG_MAX
  {
    if n < 0 then n + 2 * (LONG_MAX + 1) else n
  }

  /** A long stored into an int. */
  function ToInt(n: int): int
  {
    var m := n % (2 * (INT_MAX + 1));
    if m > INT_MAX then m - 2 * (INT_MAX + 1) else m
  }

  function Atoi(s: Bytes): int { ToInt(Strtol(s)) }

  lemma {:induction false} DigitRunAppend(s: Bytes, t: Bytes, acc: nat)
    requires AllDigits(s)
    ensures DigitRun(s + t, acc) == DigitRun(t, DigitRun(s, acc))
  {
    if s == [] {
      assert s + t == t;
    } else {
      assert (s + t)[1..] == s[1..] + t;
      DigitRunAppend(s[1..], t, 10 * acc + (s[0] - 48));
    }
  }

  /** Reading back the digits of n yields n, whatever non-digit follows. */
  lemma {:induction false} DigitRunOfDigits(n: nat, t: Bytes)
    requires t == [] || !IsDigit(t[0])
    ensures DigitRun(Digits(n) + t, 0) == n
  {
    DigitRunAppend(Digits(n), t, 0);
    if n >= 10 {
      var d: Byte := ZERO + n % 10;
      DigitRunAppend(Digits(n / 10), [d], 0);
      DigitRunOfDigits(n / 10, []);
      assert Digits(n / 10) + [] == Digits(n / 10);
    }
  }

  lemma StrtolOfDigitRun(s: Bytes)
    requires s != [] && IsDigit(s[0])
    ensures Strtol(s) == Saturate(DigitRun(s, 0))
  {
  }

  lemma StrtolOfDigits(n: nat, t: Bytes)
    requires n <= LONG_MAX
    requires t == [] || !IsDigit(t[0])
    ensures Strtol(Digits(n) + t) == n
  {
    DigitRunOfDigits(n, t);
    assert IsDigit((Digits(n) + t)[0]);
  }

  /** A nonempty prefix of the digits of a positive number reads as a positive number, no larger. */
  lemma {:induction false} DigitRunOfPrefix(n: nat, k: nat)
    requires 0 < n && 0 < k <= |Digits(n)|
    ensures 1 <= DigitRun(Digits(n)[..k], 0) <= n
  {
    var s := Digits(n);
    if k == |s| {
      DigitRunOfDigits(n, []);
      assert s[..k] == s + [];
    } else {
      assert s[..k] == Digits(n / 10)[..k];
      DigitRunOfPrefix(n / 10, k);
    }
  }

  function Pow10(k: nat): nat { if k == 0 then 1 else 10 * Pow10(k - 1) }

  lemma {:induction false} DigitsLength(n: nat, k: nat)
    requires 0 < k && n < Pow10(k)
    ensures |Digits(n)| <= k
  {
    if n >= 10 {
      assert k > 1;
      DigitsLength(n / 10, k - 1);
    }
  }

  /** Every length that fits a long prints in at most 20 digits. */
  lemma DigitsOfLong(n: nat)
    requires n <= LONG_MAX
    ensures |Digits(n)| <= 20
  {
    assert Pow10(10) == 10_000_000_000;
    assert Pow10(20) == 100_000_000_000_000_000_000;
    DigitsLength(n, 20);
  }

  lemma ConcatAssoc<T>(a: seq<T>, b: seq<T>, c: seq<T>)
    ensures a + b + c == a + (b + c)
  {
  }

  lemma TakeConcat<T>(a: seq<T>, b: seq<T>, m: nat)
    requires m <= |a| + |b|
    ensures m <= |a| ==> (a + b)[..m] == a[..m]
    ensures m >= |a| ==> (a + b)[..m] == a + b[..m - |a|]
  {
  }
}
