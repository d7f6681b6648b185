/**
 Integers at arbitrary bit offsets (bitops.c): bit 0 of a string is the most
 significant bit of its first byte. 64-bit quantities are numbers, with the
 wrap-around of the source written out.
 */
module BitField {
  import opened Basics
  import opened ByteStrings

  const TWO_63 := 0x8000_0000_0000_0000
  const TWO_64 := 0x1_0000_0000_0000_0000

  /** Bit k of a number, counted from the least significant. */
  function Bit(n: nat, k: nat): (b: nat)
    ensures b < 2
  {
    if k == 0 then n % 2 else Bit(n / 2, k - 1)
  }

  /** Bit i of a string. */
  function BitAt(s: Bytes, i: nat): (b: nat)
    requires i / 8 < |s|
    ensures b < 2
  {
    Bit(s[i / 8], 7 - i % 8)
  }

  /** The number in the given bits, the first being the most significant. */
  function NumberAt(s: Bytes, offset: nat, bits: nat): nat
    requires offset + bits <= 8 * |s|
  {
    if bits == 0 then 0 else 2 * NumberAt(s, offset, bits - 1) + BitAt(s, offset + bits - 1)
  }

  lemma {:induction false} NumberBound(s: Bytes, offset: nat, bits: nat)
    requires offset + bits <= 8 * |s|
    ensures NumberAt(s, offset, bits) < Pow2(bits)
  {
    hide BitAt;
    if bits > 0 { NumberBound(s, offset, bits - 1); }
  }

  ghost predicate SameBit(s: Bytes, o: nat, t: Bytes, u: nat, i: nat)
  {
    (o + i) / 8 < |s| && (u + i) / 8 < |t| && BitAt(s, o + i) == BitAt(t, u + i)
  }

  /** Equal bits make equal numbers. */
  lemma {:induction false} NumberSame(s: Bytes, o: nat, t: Bytes, u: nat, bits: nat)
    requires o + bits <= 8 * |s| && u + bits <= 8 * |t|
    requires forall i: nat :: i < bits ==> SameBit(s, o, t, u, i)
    ensures NumberAt(s, o, bits) == NumberAt(t, u, bits)
  {
    hide BitAt;
    if bits > 0 {
      assert SameBit(s, o, t, u, bits - 1);
      NumberSame(s, o, t, u, bits - 1);
    }
  }

  /** A number without its k least significant bits. */
  function Shifted(n: nat, k: nat): nat
  {
    if k == 0 then n else Shifted(n / 2, k - 1)
  }

  lemma {:induction false} ShiftedBit(n: nat, k: nat)
    ensures Bit(n, k) == Shifted(n, k) % 2 && Shifted(n, k + 1) == Shifted(n, k) / 2
  {
    if k > 0 { ShiftedBit(n / 2, k - 1); }
  }

  lemma {:induction false} NumberInByte(s: Bytes, i: nat, bits: nat)
    requires i < |s| && bits <= 8
    ensures NumberAt(s, 8 * i, bits) == Shifted(s[i], 8 - bits)
  {
    if bits == 0 {
      assert Shifted(s[i], 8) == 0 by { assert Pow2(8) == 256; ShiftedOut(s[i], 8); }
    } else {
      hide Bit, Shifted;
      NumberInByte(s, i, bits - 1);
      ShiftedBit(s[i], 8 - bits);
      assert (8 * i + bits - 1) / 8 == i && (8 * i + bits - 1) % 8 == bits - 1;
    }
  }

  lemma {:induction false} ShiftedOut(n: nat, k: nat)
    requires n < Pow2(k)
    ensures Shifted(n, k) == 0
  {
    if k > 0 { ShiftedOut(n / 2, k - 1); }
  }

  /** The eight bits of a byte, the first the most significant, are that byte. */
  lemma ByteNumber(s: Bytes, i: nat)
    requires i < |s|
    ensures NumberAt(s, 8 * i, 8) == s[i]
  {
    NumberInByte(s, i, 8);
  }

  lemma DoubleProduct(a: nat, b: nat)
    ensures (2 * a) * b == 2 * (a * b)
  {
  }

  lemma Pow2Unfold(n: nat)
    requires n > 0
    ensures Pow2(n) == 2 * Pow2(n - 1) && Pow2(0) == 1
  {
  }

  lemma {:induction false} Pow2Add(m: nat, n: nat)
    ensures Pow2(m + n) == Pow2(m) * Pow2(n)
    decreases m
  {
    if m > 0 {
      hide Pow2;
      Pow2Add(m - 1, n);
      Pow2Unfold(m);
      Pow2Unfold(m + n);
      DoubleProduct(Pow2(m - 1), Pow2(n));
    }
  }

  lemma {:induction false} Pow2Monotone(m: nat, n: nat)
    requires m <= n
    ensures Pow2(m) <= Pow2(n)
  {
    if m < n { Pow2Monotone(m, n - 1); }
  }

  lemma Pow2Of64()
    ensures Pow2(63) == TWO_63 && Pow2(64) == TWO_64
  {
    assert Pow2(8) == 256;
    hide Pow2;
    Pow2Add(8, 8);
    assert Pow2(16) == 0x1_0000;
    Pow2Add(16, 16);
    assert Pow2(32) == 0x1_0000_0000;
    Pow2Add(32, 32);
    Pow2Unfold(64);
  }

  // ---------------------------------------------------------------- one bit of a byte

  /** Clearing bit k, of weight 2^k, and then setting it to v. */
  function WithBit(b: nat, k: nat, v: nat): int
  {
    b - Bit(b, k) * Pow2(k) + v * Pow2(k)
  }

  lemma {:induction false} WithBitHalf(b: nat, k: nat, v: nat)
    requires k > 0
    ensures WithBit(b, k, v) == 2 * WithBit(b / 2, k - 1, v) + b % 2
  {
    var p, x := Pow2(k - 1), Bit(b / 2, k - 1);
    assert x * (2 * p) == 2 * (x * p) && v * (2 * p) == 2 * (v * p);
  }

  lemma {:induction false} WithBitOf(b: nat, k: nat, v: nat, j: nat, n: nat)
    requires v < 2 && b < Pow2(n) && k < n
    ensures 0 <= WithBit(b, k, v) < Pow2(n)
    ensures Bit(WithBit(b, k, v), j) == if j == k then v else Bit(b, j)
    decreases k
  {
    if k == 0 {
      var w := WithBit(b, 0, v);
      assert w == 2 * (b / 2) + v && w / 2 == b / 2;
    } else {
      WithBitHalf(b, k, v);
      hide WithBit;
      WithBitOf(b / 2, k - 1, v, if j == 0 then 0 else j - 1, n - 1);
      var w := WithBit(b / 2, k - 1, v);
      assert (2 * w + b % 2) / 2 == w && (2 * w + b % 2) % 2 == b % 2;
    }
  }

  // ---------------------------------------------------------------- a number, from its top bits down

  /** The number without its m lowest bits. */
  function High(n: nat, m: nat): nat
  {
    if m == 0 then n else High(n / 2, m - 1)
  }

  lemma {:induction false} HighStep(n: nat, m: nat)
    ensures High(n, m) == 2 * High(n, m + 1) + Bit(n, m)
  {
    if m > 0 { HighStep(n / 2, m - 1); }
  }

  lemma ModDouble(x: nat, b: nat, p: nat)
    requires p > 0 && b < 2
    ensures (2 * x + b) % (2 * p) == 2 * (x % p) + b
  {
    var q, r := x / p, x % p;
    assert x == p * q + r;
    assert 2 * x + b == (2 * p) * q + (2 * r + b);
    Remainder(2 * x + b, 2 * p, q, 2 * r + b);
  }

  lemma Remainder(n: nat, d: nat, q: nat, r: nat)
    requires d > 0 && n == d * q + r && r < d
    ensures n % d == r
  {
    var k := n / d - q;
    Quotient(n, d);
    Distribute(d, n / d, q);
    if k >= 1 {
      AtLeast(d, k);
    } else if k <= -1 {
      AtLeast(d, -k);
      Distribute(d, 0, k);
    }
  }

  lemma Quotient(n: nat, d: nat)
    requires d > 0
    ensures n == d * (n / d) + n % d && n % d < d
  {
  }

  lemma Distribute(d: int, a: int, b: int)
    ensures d * (a - b) == d * a - d * b
  {
  }

  lemma AtLeast(d: nat, k: int)
    requires k >= 1
    ensures d * k >= d
  {
  }

  ghost predicate HoldsBit(s: Bytes, offset: nat, bits: nat, value: nat, i: nat)
    requires i < bits
  {
    (offset + i) / 8 < |s| && BitAt(s, offset + i) == Bit(value, bits - 1 - i)
  }

  /** What of h fits into j bits. */
  function Fitting(h: nat, j: nat): nat { h % Pow2(j) }

  lemma FieldStep(h: nat, b: nat, j: nat)
    requires b < 2
    ensures Fitting(h, 0) == 0
    ensures j > 0 ==> Fitting(2 * h + b, j) == 2 * Fitting(h, j - 1) + b
  {
    if j > 0 { ModDouble(h, b, Pow2(j - 1)); }
  }

  lemma NumberFits(s: Bytes, offset: nat, bits: nat)
    requires bits <= 64 && offset + bits <= 8 * |s|
    ensures NumberAt(s, offset, bits) < Pow2(bits) <= TWO_64
  {
    hide NumberAt;
    Pow2Of64();
    NumberBound(s, offset, bits);
    Pow2Monotone(bits, 64);
    hide Pow2;
  }

  lemma NumberUnfold(s: Bytes, offset: nat, bits: nat)
    requires offset + bits <= 8 * |s|
    ensures NumberAt(s, offset, bits) == if bits == 0 then 0 else 2 * NumberAt(s, offset, bits - 1) + BitAt(s, offset + bits - 1)
  {
  }

  /** If the field holds the bits of value, it holds value, less what does not fit. */
  lemma {:induction false} FieldNumber(s: Bytes, offset: nat, bits: nat, value: nat, j: nat)
    requires offset + bits <= 8 * |s| && j <= bits
    requires forall i: nat :: i < bits ==> HoldsBit(s, offset, bits, value, i)
    ensures NumberAt(s, offset, j) == Fitting(High(value, bits - j), j)
    decreases j
  {
    hide BitAt, High, Bit, Fitting, NumberAt;
    NumberUnfold(s, offset, j);
    if j == 0 {
      FieldStep(High(value, bits), 0, 0);
    } else {
      FieldNumber(s, offset, bits, value, j - 1);
      assert HoldsBit(s, offset, bits, value, j - 1);
      HighStep(value, bits - j);
      FieldStep(High(value, bits - j + 1), Bit(value, bits - j), j);
    }
  }

  // ---------------------------------------------------------------- reading and writing a field

  ghost predicate Within(offset: nat, bits: nat, i: nat) { offset <= i < offset + bits }

  /** No bit but those of the field differs. */
  ghost predicate OnlyField(s: Bytes, t: Bytes, offset: nat, bits: nat)
  {
    |s| == |t| && forall i: nat :: i < 8 * |s| && !Within(offset, bits, i) ==> SameBit(s, i, t, i, 0)
  }

  lemma NumberNext(s: Bytes, offset: nat, bits: nat)
    requires bits <= 64 && offset + bits <= 8 * |s|
    ensures bits == 0 ==> NumberAt(s, offset, bits) == 0
    ensures bits > 0 ==> NumberAt(s, offset, bits) == (2 * NumberAt(s, offset, bits - 1) + BitAt(s, offset + bits - 1)) % TWO_64
  {
    NumberFits(s, offset, bits);
    hide Pow2, BitAt;
  }

  /** getUnsignedBitfield */
  method GetUnsignedBitfield(p: array<Byte>, offset: nat, bits: nat) returns (value: nat)
    requires bits <= 64 && offset + bits <= 8 * p.Length
    ensures value == NumberAt(p[..], offset, bits) < Pow2(bits)
  {
    hide Pow2, Bit, NumberAt;
    value := 0;
    var o := offset;
    var j := 0;
    NumberNext(p[..], offset, 0);
    while j < bits
      invariant j <= bits && o == offset + j && value == NumberAt(p[..], offset, j)
    {
      var byte := o / 8;
      var bit := 7 - o % 8;
      var bitval := Bit(p[byte], bit);
      assert bitval == BitAt(p[..], o);
      NumberNext(p[..], offset, j + 1);
      value := (2 * value + bitval) % TWO_64;
      o := o + 1;
      j := j + 1;
    }
    NumberFits(p[..], offset, bits);
  }

  /** One turn of the loop of setUnsignedBitfield. */
  method SetBit(p: array<Byte>, o: nat, v: nat)
    requires o < 8 * p.Length && v < 2
    modifies p
    ensures BitAt(p[..], o) == v && OnlyField(old(p[..]), p[..], o, 1)
  {
    var byte := o / 8;
    var bit := 7 - o % 8;
    var was := p[byte];
    var now := WithBit(was, bit, v);
    forall j: nat | j < 8
      ensures 0 <= now < 256 && Bit(now, j) == if j == bit then v else Bit(was, j)
    {
      assert Pow2(8) == 256;
      WithBitOf(was, bit, v, j, 8);
    }
    assert Bit(now, 0) == Bit(now, 0);
    p[byte] := now;
    hide Bit, WithBit;
    forall i: nat | i < 8 * p.Length && !Within(o, 1, i)
      ensures SameBit(old(p[..]), i, p[..], i, 0)
    {
      if i / 8 == byte { assert 7 - i % 8 != bit; }
    }
  }

  lemma OnlyFieldGrows(s: Bytes, t: Bytes, u: Bytes, offset: nat, bits: nat)
    requires OnlyField(s, t, offset, bits) && OnlyField(t, u, offset + bits, 1)
    ensures OnlyField(s, u, offset, bits + 1)
  {
    hide BitAt;
    forall i: nat | i < 8 * |s| && !Within(offset, bits + 1, i) ensures SameBit(s, i, u, i, 0)
    {
      assert !Within(offset, bits, i) && !Within(offset + bits, 1, i);
      assert SameBit(s, i, t, i, 0) && SameBit(t, i, u, i, 0);
    }
  }

  lemma HoldsNext(t: Bytes, u: Bytes, offset: nat, bits: nat, value: nat, j: nat)
    requires j < bits && OnlyField(t, u, offset + j, 1) && offset + bits <= 8 * |t|
    requires forall i: nat :: i < j ==> HoldsBit(t, offset, bits, value, i)
    requires BitAt(u, offset + j) == Bit(value, bits - 1 - j)
    ensures forall i: nat :: i < j + 1 ==> HoldsBit(u, offset, bits, value, i)
  {
    hide BitAt, Bit;
    forall i: nat | i < j + 1 ensures HoldsBit(u, offset, bits, value, i)
    {
      if i < j {
        assert HoldsBit(t, offset, bits, value, i) && !Within(offset + j, 1, offset + i);
        assert SameBit(t, offset + i, u, offset + i, 0);
      }
    }
  }

  /** setUnsignedBitfield: the field holds the value, less what does not fit, and nothing else changes. */
  method SetUnsignedBitfield(p: array<Byte>, offset: nat, bits: nat, value: nat)
    requires offset + bits <= 8 * p.Length
    modifies p
    ensures NumberAt(p[..], offset, bits) == value % Pow2(bits)
    ensures OnlyField(old(p[..]), p[..], offset, bits)
  {
    hide Pow2, Bit, BitAt;
    var o := offset;
    var j := 0;
    SameField(p[..], offset);
    while j < bits
      invariant j <= bits && o == offset + j
      invariant OnlyField(old(p[..]), p[..], offset, j)
      invariant forall i: nat :: i < j ==> HoldsBit(p[..], offset, bits, value, i)
    {
      ghost var t := p[..];
      SetBit(p, o, Bit(value, bits - 1 - j));
      OnlyFieldGrows(old(p[..]), t, p[..], offset, j);
      HoldsNext(t, p[..], offset, bits, value, j);
      o := o + 1;
      j := j + 1;
    }
    FieldNumber(p[..], offset, bits, value, bits);
  }

  lemma SameField(s: Bytes, offset: nat)
    ensures OnlyField(s, s, offset, 0)
  {
  }
}
