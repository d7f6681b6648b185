/** Counting bits (bitops.c, redisPopcount): 28 bytes at a time, four counts packed in each 32-bit word. */
module BitCount {
  import opened ByteStrings

  /** The number of ones in a number's binary form; for a byte, its entry in the table of the source. */
  function BitsIn(n: nat): nat
  {
    if n == 0 then 0 else n % 2 + BitsIn(n / 2)
  }

  /** The number of ones in a string. */
  function Ones(s: Bytes): nat
  {
    if s == [] then 0 else Ones(s[..|s| - 1]) + BitsIn(s[|s| - 1])
  }

  /** Bitwise and. */
  function And(x: nat, y: nat): nat
  {
    if x == 0 || y == 0 then 0 else (x % 2) * (y % 2) + 2 * And(x / 2, y / 2)
  }

  const TWO_32: nat := 0x1_0000_0000

  /** A 32-bit word as loaded from four bytes, least significant first. */
  function Word(a: Byte, b: Byte, c: Byte, d: Byte): nat
  {
    a + 0x100 * b + 0x1_0000 * c + 0x100_0000 * d
  }

  function Pairs(w: nat): int { w - And(w / 2, 0x55555555) }

  /** Unsigned 32-bit arithmetic. */
  function Wrap32(n: nat): nat { n % TWO_32 }

  function Nibbles(w: nat): nat { And(w, 0x33333333) + And(w / 4, 0x33333333) }

  function PerByte(w: nat): nat { And(w + w / 16, 0x0F0F0F0F) }

  // ---------------------------------------------------------------- masks, digit by digit

  lemma AndUnfold(x: nat, y: nat)
    ensures And(x, y) == if x == 0 || y == 0 then 0 else x % 2 * (y % 2) + 2 * And(x / 2, y / 2)
  {
  }

  lemma LowDigit(b: nat, x: nat)
    requires b < 2
    ensures (b + 2 * x) % 2 == b && (b + 2 * x) / 2 == x
  {
  }

  /** A low bit under a mask bit that is set, and under one that is not. */
  lemma AndOne(b: nat, x: nat, y: nat)
    requires b < 2
    ensures And(b + 2 * x, 1 + 2 * y) == b + 2 * And(x, y)
  {
    hide And;
    LowDigit(b, x);
    LowDigit(1, y);
    AndUnfold(b + 2 * x, 1 + 2 * y);
    AndUnfold(x, y);
  }

  lemma AndZero(b: nat, x: nat, y: nat)
    requires b < 2
    ensures And(b + 2 * x, 2 * y) == 2 * And(x, y)
  {
    hide And;
    LowDigit(b, x);
    LowDigit(0, y);
    AndUnfold(b + 2 * x, 2 * y);
    AndUnfold(x, y);
  }

  /** Masks with one bit of two, two of four, four of eight. */
  lemma AndPair(b: nat, d: nat, x: nat, y: nat)
    requires b < 2 && d < 2
    ensures And(b + 2 * d + 4 * x, 1 + 4 * y) == b + 4 * And(x, y)
  {
    hide And;
    AndOne(b, d + 2 * x, 2 * y);
    AndZero(d, x, y);
    assert b + 2 * d + 4 * x == b + 2 * (d + 2 * x) && 1 + 4 * y == 1 + 2 * (2 * y);
  }

  lemma TwoDigits(b: nat)
    requires b < 4
    ensures b % 2 < 2 && b / 2 < 2 && b == b % 2 + 2 * (b / 2)
  {
  }

  /** Two bits under a mask with both set, and under one with none. */
  lemma AndThree(b: nat, x: nat, y: nat)
    requires b < 4
    ensures And(b + 4 * x, 3 + 4 * y) == b + 4 * And(x, y)
  {
    hide And;
    TwoDigits(b);
    var b0, b1 := b % 2, b / 2;
    AndOne(b0, b1 + 2 * x, 1 + 2 * y);
    AndOne(b1, x, y);
    assert b + 4 * x == b0 + 2 * (b1 + 2 * x) && 3 + 4 * y == 1 + 2 * (1 + 2 * y);
  }

  lemma AndFourZeros(d: nat, x: nat, y: nat)
    requires d < 4
    ensures And(d + 4 * x, 4 * y) == 4 * And(x, y)
  {
    hide And;
    TwoDigits(d);
    var d0, d1 := d % 2, d / 2;
    AndZero(d0, d1 + 2 * x, 2 * y);
    AndZero(d1, x, y);
    assert d + 4 * x == d0 + 2 * (d1 + 2 * x) && 4 * y == 2 * (2 * y);
  }

  lemma AndQuad(b: nat, d: nat, x: nat, y: nat)
    requires b < 4 && d < 4
    ensures And(b + 4 * d + 16 * x, 3 + 16 * y) == b + 16 * And(x, y)
  {
    hide And;
    AndThree(b, d + 4 * x, 4 * y);
    AndFourZeros(d, x, y);
    assert b + 4 * d + 16 * x == b + 4 * (d + 4 * x) && 3 + 16 * y == 3 + 4 * (4 * y);
  }

  lemma FourDigits(b: nat)
    requires b < 16
    ensures b % 4 < 4 && b / 4 < 4 && b == b % 4 + 4 * (b / 4)
  {
  }

  lemma AndFifteen(b: nat, x: nat, y: nat)
    requires b < 16
    ensures And(b + 16 * x, 15 + 16 * y) == b + 16 * And(x, y)
  {
    hide And;
    FourDigits(b);
    var b0, b1 := b % 4, b / 4;
    AndThree(b0, b1 + 4 * x, 3 + 4 * y);
    AndThree(b1, x, y);
    assert b + 16 * x == b0 + 4 * (b1 + 4 * x) && 15 + 16 * y == 3 + 4 * (3 + 4 * y);
  }

  lemma AndSixteenZeros(d: nat, x: nat, y: nat)
    requires d < 16
    ensures And(d + 16 * x, 16 * y) == 16 * And(x, y)
  {
    hide And;
    FourDigits(d);
    var d0, d1 := d % 4, d / 4;
    AndFourZeros(d0, d1 + 4 * x, 4 * y);
    AndFourZeros(d1, x, y);
    assert d + 16 * x == d0 + 4 * (d1 + 4 * x) && 16 * y == 4 * (4 * y);
  }

  lemma AndOct(b: nat, d: nat, x: nat, y: nat)
    requires b < 16 && d < 16
    ensures And(b + 16 * d + 256 * x, 15 + 256 * y) == b + 256 * And(x, y)
  {
    hide And;
    AndFifteen(b, d + 16 * x, 16 * y);
    AndSixteenZeros(d, x, y);
    assert b + 16 * d + 256 * x == b + 16 * (d + 16 * x) && 15 + 256 * y == 15 + 16 * (16 * y);
  }

  // ---------------------------------------------------------------- the three steps

  function Pow(b: nat, n: nat): nat { if n == 0 then 1 else b * Pow(b, n - 1) }

  /** 0x55..., 0x33... and 0x0F0F..., by digits. */
  function Mask5(n: nat): nat { if n == 0 then 0 else 1 + 4 * Mask5(n - 1) }

  function Mask3(n: nat): nat { if n == 0 then 0 else 3 + 16 * Mask3(n - 1) }

  function MaskF(n: nat): nat { if n == 0 then 0 else 15 + 256 * MaskF(n - 1) }

  lemma MaskValues()
    ensures Mask5(16) == 0x55555555 && Mask3(8) == 0x33333333 && MaskF(4) == 0x0F0F0F0F
  {
    assert Mask5(8) == 0x5555 by { assert Mask5(4) == 0x55; }
    assert Mask5(12) == 0x555555;
    assert Mask3(4) == 0x3333;
  }

  /** The sums of neighbouring bits, of neighbouring pairs, of the two nibbles of a byte. */
  function PairSums(x: nat, n: nat): nat
  {
    if n == 0 then 0 else x % 2 + x / 2 % 2 + 4 * PairSums(x / 4, n - 1)
  }

  function QuadSums(x: nat, n: nat): nat
  {
    if n == 0 then 0 else x % 4 + x / 4 % 4 + 16 * QuadSums(x / 16, n - 1)
  }

  function NibbleSums(x: nat, n: nat): nat
  {
    if n == 0 then 0 else x % 16 + x / 16 % 16 + 256 * NibbleSums(x / 256, n - 1)
  }

  lemma DigitsOfPair(x: nat)
    ensures var o, z := x / 2 % 2, x / 4;
            x == x % 2 + 2 * o + 4 * z && x / 2 == o + 2 * (z % 2) + 4 * (z / 2) && o < 2 && z % 2 < 2
  {
    assert x / 2 == x / 2 % 2 + 2 * (x / 4);
  }

  lemma PairSumsUnfold(x: nat, n: nat)
    requires n > 0
    ensures PairSums(x, n) == x % 2 + x / 2 % 2 + 4 * PairSums(x / 4, n - 1)
    ensures Mask5(n) == 1 + 4 * Mask5(n - 1) && Pow(4, n) == 4 * Pow(4, n - 1)
  {
  }

  lemma PairsNone(x: nat)
    ensures And(x, Mask5(0)) == 0 && PairSums(x, 0) == 0 && Pow(4, 0) == 1
  {
  }

  lemma {:induction false} PairsStep(x: nat, n: nat)
    requires x < Pow(4, n)
    ensures x - And(x / 2, Mask5(n)) == PairSums(x, n)
    decreases n
  {
    hide And, PairSums, Mask5, Pow;
    PairsNone(x / 2);
    PairsNone(x);
    if n > 0 {
      PairSumsUnfold(x, n);
      DigitsOfPair(x);
      var o, z := x / 2 % 2, x / 4;
      PairsStep(z, n - 1);
      AndPair(o, z % 2, z / 2, Mask5(n - 1));
    }
  }

  lemma QuadDigits(x: nat)
    ensures var a, b, z := x % 4, x / 4 % 4, x / 16;
            x == a + 4 * b + 16 * z && x / 4 == b + 4 * (z % 4) + 16 * (z / 4)
  {
    assert x / 4 == x / 4 % 4 + 4 * (x / 16);
  }

  lemma QuadSumsUnfold(x: nat, n: nat)
    requires n > 0
    ensures QuadSums(x, n) == x % 4 + x / 4 % 4 + 16 * QuadSums(x / 16, n - 1) && Mask3(n) == 3 + 16 * Mask3(n - 1)
  {
  }

  lemma QuadsNone(x: nat)
    ensures And(x, Mask3(0)) == 0 && QuadSums(x, 0) == 0
  {
  }

  lemma {:induction false} QuadsStep(x: nat, n: nat)
    ensures And(x, Mask3(n)) + And(x / 4, Mask3(n)) == QuadSums(x, n)
    decreases n
  {
    hide And, QuadSums, Mask3;
    QuadsNone(x);
    QuadsNone(x / 4);
    if n > 0 {
      QuadSumsUnfold(x, n);
      var a, b, z := x % 4, x / 4 % 4, x / 16;
      QuadDigits(x);
      QuadsStep(z, n - 1);
      AndQuad(a, b, z, Mask3(n - 1));
      AndQuad(b, z % 4, z / 4, Mask3(n - 1));
    }
  }

  /** Every nibble is at most 4: what the first two steps leave. */
  ghost predicate SmallNibbles(x: nat, n: nat)
  {
    if n == 0 then x == 0 else x % 16 <= 4 && x / 16 % 16 <= 4 && SmallNibbles(x / 256, n - 1)
  }

  lemma NibbleCarry(x: nat)
    ensures var a, b, z := x % 16, x / 16 % 16, x / 256;
            x + x / 16 == (a + b) + 16 * (b + z % 16) + 256 * (z + z / 16)
  {
    var a, b, z := x % 16, x / 16 % 16, x / 256;
    assert x == a + 16 * b + 256 * z && x / 16 == b + 16 * z;
    assert z == z % 16 + 16 * (z / 16);
  }

  lemma NibbleSumsUnfold(x: nat, n: nat)
    requires n > 0
    ensures NibbleSums(x, n) == x % 16 + x / 16 % 16 + 256 * NibbleSums(x / 256, n - 1) && MaskF(n) == 15 + 256 * MaskF(n - 1)
    ensures SmallNibbles(x, n) ==> x % 16 <= 4 && x / 16 % 16 <= 4 && SmallNibbles(x / 256, n - 1)
  {
  }

  lemma NibblesNone(x: nat)
    ensures And(x, MaskF(0)) == 0 && NibbleSums(x, 0) == 0
  {
  }

  lemma SmallLow(x: nat, n: nat)
    requires SmallNibbles(x, n)
    ensures x % 16 <= 4
  {
  }

  lemma {:induction false} BytesStep(x: nat, n: nat)
    requires SmallNibbles(x, n)
    ensures And(x + x / 16, MaskF(n)) == NibbleSums(x, n)
    decreases n
  {
    hide And, NibbleSums, MaskF, SmallNibbles;
    NibblesNone(x);
    NibblesNone(x + x / 16);
    if n > 0 {
      NibbleSumsUnfold(x, n);
      var a, b, z := x % 16, x / 16 % 16, x / 256;
      NibbleCarry(x);
      BytesStep(z, n - 1);
      SmallLow(z, n - 1);
      AndOct(a + b, b + z % 16, z + z / 16, MaskF(n - 1));
    }
  }

  // ---------------------------------------------------------------- one byte, then four

  /** The ones among bits 0 and 1 of x. */
  function Two(x: nat): nat { x % 2 + x / 2 % 2 }

  lemma PairsOfByte(b: nat)
    requires b < 256
    ensures PairSums(b, 4) == Two(b) + 4 * Two(b / 4) + 16 * Two(b / 16) + 64 * Two(b / 64)
  {
    assert PairSums(b, 4) == Two(b) + 4 * PairSums(b / 4, 3);
    assert PairSums(b / 4, 3) == Two(b / 4) + 4 * PairSums(b / 16, 2) by { assert b / 4 / 4 == b / 16; }
    assert PairSums(b / 16, 2) == Two(b / 16) + 4 * PairSums(b / 64, 1) by { assert b / 16 / 4 == b / 64; }
    assert PairSums(b / 64, 1) == Two(b / 64);
  }

  lemma BitsOfPair(x: nat)
    ensures BitsIn(x) == Two(x) + BitsIn(x / 4)
  {
    if x > 1 { assert x / 2 / 2 == x / 4; }
  }

  lemma BitsOfByte(b: nat)
    requires b < 256
    ensures BitsIn(b) == Two(b) + Two(b / 4) + Two(b / 16) + Two(b / 64)
  {
    BitsOfPair(b);
    BitsOfPair(b / 4);
    BitsOfPair(b / 16);
    BitsOfPair(b / 64);
    hide Two;
    assert b / 4 / 4 == b / 16 && b / 16 / 4 == b / 64 && b / 64 / 4 == 0;
    assert BitsIn(0) == 0;
  }

  lemma QuadsOfByte(d0: nat, d1: nat, d2: nat, d3: nat)
    requires d0 <= 2 && d1 <= 2 && d2 <= 2 && d3 <= 2
    ensures QuadSums(d0 + 4 * d1 + 16 * d2 + 64 * d3, 2) == (d0 + d1) + 16 * (d2 + d3)
  {
    var x := d0 + 4 * d1 + 16 * d2 + 64 * d3;
    assert x % 4 == d0 && x / 4 % 4 == d1 && x / 16 == d2 + 4 * d3;
    assert QuadSums(x / 16, 1) == d2 + d3;
  }

  /** The first two steps leave in each nibble the ones of that nibble. */
  lemma ByteSteps(b: nat)
    requires b < 256
    ensures PairSums(b, 4) < 256
    ensures var q := QuadSums(PairSums(b, 4), 2);
            q < 256 && q % 16 <= 4 && q / 16 <= 4 && q % 16 + q / 16 == BitsIn(b)
  {
    hide *;
    PairsOfByte(b);
    BitsOfByte(b);
    TwoSmall(b);
    TwoSmall(b / 4);
    TwoSmall(b / 16);
    TwoSmall(b / 64);
    QuadsOfByte(Two(b), Two(b / 4), Two(b / 16), Two(b / 64));
    TwoNibbles(Two(b) + Two(b / 4), Two(b / 16) + Two(b / 64));
  }

  lemma TwoNibbles(l: nat, h: nat)
    requires l <= 4 && h <= 4
    ensures (l + 16 * h) % 16 == l && (l + 16 * h) / 16 == h
  {
  }

  lemma TwoSmall(x: nat)
    ensures Two(x) <= 2
  {
  }

  lemma PairFirst(a: nat, z: nat, n: nat)
    requires a < 4
    ensures PairSums(a + 4 * z, n + 1) == Two(a) + 4 * PairSums(z, n)
  {
    var x := a + 4 * z;
    assert x / 4 == z && x % 2 == a % 2 && x / 2 % 2 == a / 2 % 2;
  }

  lemma PairsCat(b: nat, w: nat, m: nat)
    requires b < 256
    ensures PairSums(b + 256 * w, 4 + m) == PairSums(b, 4) + 256 * PairSums(w, m)
  {
    hide *;
    var a0, a1, a2, a3 := b % 4, b / 4 % 4, b / 16 % 4, b / 64;
    FourPairs(a0, a1, a2, a3, w, m);
    FourPairs(a0, a1, a2, a3, 0, 0);
    NoPairs(0);
    PairDigits(b);
  }

  lemma PairDigits(b: nat)
    requires b < 256
    ensures b == b % 4 + 4 * (b / 4 % 4 + 4 * (b / 16 % 4 + 4 * (b / 64))) && b / 64 < 4
  {
    assert b / 4 == b / 4 % 4 + 4 * (b / 16) && b / 16 == b / 16 % 4 + 4 * (b / 64);
  }

  lemma NoPairs(x: nat)
    ensures PairSums(x, 0) == 0 && QuadSums(x, 0) == 0
  {
  }

  lemma FourPairs(a0: nat, a1: nat, a2: nat, a3: nat, w: nat, m: nat)
    requires a0 < 4 && a1 < 4 && a2 < 4 && a3 < 4
    ensures PairSums(a0 + 4 * (a1 + 4 * (a2 + 4 * (a3 + 4 * w))), 4 + m)
            == Two(a0) + 4 * (Two(a1) + 4 * (Two(a2) + 4 * (Two(a3) + 4 * PairSums(w, m))))
  {
    hide *;
    PairFirst(a0, a1 + 4 * (a2 + 4 * (a3 + 4 * w)), m + 3);
    PairFirst(a1, a2 + 4 * (a3 + 4 * w), m + 2);
    PairFirst(a2, a3 + 4 * w, m + 1);
    PairFirst(a3, w, m);
  }

  lemma QuadFirst(a: nat, z: nat, n: nat)
    requires a < 16
    ensures QuadSums(a + 16 * z, n + 1) == a % 4 + a / 4 + 16 * QuadSums(z, n)
  {
    var x := a + 16 * z;
    assert x / 16 == z && x % 4 == a % 4 && x / 4 % 4 == a / 4;
  }

  lemma QuadsCat(c: nat, y: nat, m: nat)
    requires c < 256
    ensures QuadSums(c + 256 * y, 2 + m) == QuadSums(c, 2) + 256 * QuadSums(y, m)
  {
    hide *;
    var a, b := c % 16, c / 16;
    QuadFirst(a, b + 16 * y, m + 1);
    QuadFirst(b, y, m);
    QuadFirst(a, b, 1);
    QuadFirst(b, 0, 0);
    NoPairs(0);
    assert c + 256 * y == a + 16 * (b + 16 * y) && c == a + 16 * b && b == b + 16 * 0;
  }

  /** Bytes as a number, least significant first, and their counts of ones likewise. */
  function Value(bs: Bytes): nat { if bs == [] then 0 else bs[0] + 256 * Value(bs[1..]) }

  function Counts(bs: Bytes): nat { if bs == [] then 0 else BitsIn(bs[0]) + 256 * Counts(bs[1..]) }

  lemma {:induction false} StepsCount(bs: Bytes)
    ensures var q := QuadSums(PairSums(Value(bs), 4 * |bs|), 2 * |bs|);
            SmallNibbles(q, |bs|) && NibbleSums(q, |bs|) == Counts(bs)
  {
    hide PairSums, QuadSums, NibbleSums, SmallNibbles, BitsIn;
    if bs == [] {
      NoBytes();
    } else {
      StepsCount(bs[1..]);
      OneMoreByte(bs[0], Value(bs[1..]), |bs| - 1);
    }
  }

  lemma NoBytes()
    ensures QuadSums(PairSums(0, 0), 0) == 0 && SmallNibbles(0, 0) && NibbleSums(0, 0) == 0
  {
  }

  lemma OneMoreByte(b: Byte, w: nat, m: nat)
    requires SmallNibbles(QuadSums(PairSums(w, 4 * m), 2 * m), m)
    ensures var q := QuadSums(PairSums(b + 256 * w, 4 * (m + 1)), 2 * (m + 1));
            && SmallNibbles(q, m + 1)
            && NibbleSums(q, m + 1) == BitsIn(b) + 256 * NibbleSums(QuadSums(PairSums(w, 4 * m), 2 * m), m)
  {
    hide *;
    ByteSteps(b);
    PairsCat(b, w, 4 * m);
    var c, y := PairSums(b, 4), PairSums(w, 4 * m);
    QuadsCat(c, y, 2 * m);
    NibblesCat(QuadSums(c, 2), QuadSums(y, 2 * m), m);
    assert 4 * (m + 1) == 4 + 4 * m && 2 * (m + 1) == 2 + 2 * m;
  }

  lemma ByteDigits(c: nat, y: nat)
    requires c < 256
    ensures var x := c + 256 * y; x / 256 == y && x % 16 == c % 16 && x / 16 % 16 == c / 16
  {
    var x := c + 256 * y;
    assert x / 16 == c / 16 + 16 * y;
  }

  lemma NibblesCat(c: nat, y: nat, m: nat)
    requires c < 256 && c % 16 <= 4 && c / 16 <= 4 && SmallNibbles(y, m)
    ensures SmallNibbles(c + 256 * y, m + 1) && NibbleSums(c + 256 * y, m + 1) == c % 16 + c / 16 + 256 * NibbleSums(y, m)
  {
    ByteDigits(c, y);
  }

  // ---------------------------------------------------------------- one word, then seven

  lemma WordValue(a: Byte, b: Byte, c: Byte, d: Byte)
    ensures Word(a, b, c, d) == Value([a, b, c, d]) && Word(a, b, c, d) < Pow(4, 16)
    ensures Counts([a, b, c, d]) == BitsIn(a) + 0x100 * BitsIn(b) + 0x1_0000 * BitsIn(c) + 0x100_0000 * BitsIn(d)
  {
    hide Value, Counts, BitsIn, Pow;
    PowFour();
    assert [a, b, c, d] == [a] + [b, c, d] && [b, c, d] == [b] + [c, d] && [c, d] == [c] + [d] && [d] == [d] + [];
    ValueCons(a, [b, c, d]);
    ValueCons(b, [c, d]);
    ValueCons(c, [d]);
    ValueCons(d, []);
    NoValue();
  }

  lemma NoValue()
    ensures Value([]) == 0 && Counts([]) == 0
  {
  }

  lemma ValueCons(a: Byte, rest: Bytes)
    ensures Value([a] + rest) == a + 256 * Value(rest) && Counts([a] + rest) == BitsIn(a) + 256 * Counts(rest)
  {
    assert ([a] + rest)[1..] == rest;
  }

  lemma PowFour()
    ensures Pow(4, 16) == TWO_32
  {
    assert Pow(4, 4) == 256;
    assert Pow(4, 8) == 0x1_0000;
    assert Pow(4, 12) == 0x100_0000;
  }

  lemma PairsAre(w: nat)
    requires w < Pow(4, 16)
    ensures Pairs(w) == PairSums(w, 16)
  {
    hide And, PairSums, Pow, Mask5, Mask3, MaskF;
    MaskValues();
    PairsStep(w, 16);
  }

  lemma NibblesAre(p: nat)
    ensures Nibbles(p) == QuadSums(p, 8)
  {
    hide And, QuadSums, Mask5, Mask3, MaskF;
    MaskValues();
    QuadsStep(p, 8);
  }

  lemma PerByteIs(q: nat)
    requires SmallNibbles(q, 4)
    ensures PerByte(q) == NibbleSums(q, 4)
  {
    hide And, NibbleSums, SmallNibbles, Mask5, Mask3, MaskF;
    MaskValues();
    BytesStep(q, 4);
  }

  /** The three steps turn a word into the counts of ones of its four bytes, packed; none of them is over 8. */
  lemma WordCounts(a: Byte, b: Byte, c: Byte, d: Byte)
    ensures Pairs(Word(a, b, c, d)) >= 0
    ensures PerByte(Nibbles(Pairs(Word(a, b, c, d))))
            == BitsIn(a) + 0x100 * BitsIn(b) + 0x1_0000 * BitsIn(c) + 0x100_0000 * BitsIn(d)
  {
    hide *;
    var w := Word(a, b, c, d);
    WordValue(a, b, c, d);
    StepsCount([a, b, c, d]);
    PairsAre(w);
    NibblesAre(PairSums(w, 16));
    PerByteIs(QuadSums(PairSums(w, 16), 8));
  }

  lemma ByteBits(b: Byte)
    ensures BitsIn(b) <= 8
  {
    hide *;
    ByteSteps(b);
  }

  lemma SplitTop(low: nat, top: nat, over: nat)
    requires low < 0x100_0000 && top < 0x100
    ensures Wrap32(low + 0x100_0000 * top + TWO_32 * over) / 0x100_0000 == top
  {
    var x := low + 0x100_0000 * top;
    assert x < TWO_32;
    assert (x + TWO_32 * over) % TWO_32 == x;
  }

  /** The multiplication adds four packed counts up in the top byte, as long as their sum fits a byte. */
  lemma TopByte(s0: nat, s1: nat, s2: nat, s3: nat)
    requires s0 + s1 + s2 + s3 < 256
    ensures Wrap32((s0 + 0x100 * s1 + 0x1_0000 * s2 + 0x100_0000 * s3) * 0x01010101) / 0x100_0000 == s0 + s1 + s2 + s3
  {
    hide Wrap32;
    var low := s0 + 0x100 * (s0 + s1) + 0x1_0000 * (s0 + s1 + s2);
    var over := (s1 + s2 + s3) + 0x100 * (s2 + s3) + 0x1_0000 * s3;
    SplitTop(low, s0 + s1 + s2 + s3, over);
  }

  lemma OnesOfFour(s: Bytes, i: nat)
    requires i + 4 <= |s|
    ensures Ones(s[..i + 4]) == Ones(s[..i]) + BitsIn(s[i]) + BitsIn(s[i + 1]) + BitsIn(s[i + 2]) + BitsIn(s[i + 3])
  {
    OnesOneMore(s, i);
    OnesOneMore(s, i + 1);
    OnesOneMore(s, i + 2);
    OnesOneMore(s, i + 3);
  }

  lemma OnesOneMore(s: Bytes, i: nat)
    requires i < |s|
    ensures Ones(s[..i + 1]) == Ones(s[..i]) + BitsIn(s[i])
  {
    assert s[..i + 1][..i] == s[..i];
  }

  type Lanes = (nat, nat, nat, nat)

  function Total(c: Lanes): nat { c.0 + c.1 + c.2 + c.3 }

  function Plus(c: Lanes, d: Lanes): Lanes { (c.0 + d.0, c.1 + d.1, c.2 + d.2, c.3 + d.3) }

  /** Four counts packed in a word, none over 8 for each word added. */
  ghost predicate Packed(n: nat, c: Lanes, words: nat)
  {
    && n == c.0 + 0x100 * c.1 + 0x1_0000 * c.2 + 0x100_0000 * c.3
    && c.0 <= 8 * words && c.1 <= 8 * words && c.2 <= 8 * words && c.3 <= 8 * words
  }

  lemma PackedSum(n: nat, c: Lanes, k: nat, m: nat, d: Lanes)
    requires Packed(n, c, k) && Packed(m, d, 1)
    ensures Packed(n + m, Plus(c, d), k + 1) && Total(Plus(c, d)) == Total(c) + Total(d)
  {
  }

  lemma PackedTotal(n: nat, c: Lanes)
    requires Packed(n, c, 7)
    ensures Wrap32(Wrap32(n) * 0x01010101) / 0x100_0000 == Total(c)
  {
    hide Wrap32;
    Fits(n);
    TopByte(c.0, c.1, c.2, c.3);
  }

  lemma WordSteps(w: nat)
    ensures Pairs(w) == w - And(w / 2, 0x55555555) && Nibbles(w) == And(w, 0x33333333) + And(w / 4, 0x33333333)
    ensures PerByte(w) == And(w + w / 16, 0x0F0F0F0F)
  {
  }

  lemma PackedWord(s: Bytes, i: nat) returns (c: Lanes)
    requires i + 4 <= |s|
    ensures var w := Word(s[i], s[i + 1], s[i + 2], s[i + 3]);
            Pairs(w) >= 0 && Packed(PerByte(Nibbles(Pairs(w))), c, 1)
    ensures Ones(s[..i + 4]) == Ones(s[..i]) + Total(c)
  {
    hide And, BitsIn, Ones, Word, Pairs, Nibbles, PerByte;
    c := (BitsIn(s[i]), BitsIn(s[i + 1]), BitsIn(s[i + 2]), BitsIn(s[i + 3]));
    WordCounts(s[i], s[i + 1], s[i + 2], s[i + 3]);
    OnesOfFour(s, i);
    ByteBits(s[i]);
    ByteBits(s[i + 1]);
    ByteBits(s[i + 2]);
    ByteBits(s[i + 3]);
  }

  /** What the loop makes of the word at i: the counts of its bytes, packed. */
  method PackedCounts(s: Bytes, i: nat) returns (aux: nat, ghost c: Lanes)
    requires i + 4 <= |s|
    ensures Packed(aux, c, 1) && Ones(s[..i + 4]) == Ones(s[..i]) + Total(c)
  {
    hide *;
    c := PackedWord(s, i);
    aux := Word(s[i], s[i + 1], s[i + 2], s[i + 3]);
    WordSteps(aux);
    aux := aux - And(aux / 2, 0x55555555);
    WordSteps(aux);
    aux := And(aux, 0x33333333) + And(aux / 4, 0x33333333);
    WordSteps(aux);
    aux := And(aux + aux / 16, 0x0F0F0F0F);
  }

  /** redisPopcount, for a string that starts at the given address. */
  method Popcount(s: Bytes, address: nat) returns (bits: nat)
    ensures bits == Ones(s)
  {
    hide And, BitsIn, Ones, PerByte, Nibbles, Pairs;
    bits := 0;
    var i := 0;
    assert s[..0] == [];
    NoOnes();
    while (address + i) % 4 != 0 && i < |s|
      invariant i <= |s| && bits == Ones(s[..i])
      decreases |s| - i
    {
      OnesOneMore(s, i);
      bits := bits + BitsIn(s[i]);
      i := i + 1;
    }
    while |s| - i >= 28
      invariant i <= |s| && bits == Ones(s[..i])
    {
      var chunk := CountChunk(s, i);
      bits := bits + chunk;
      i := i + 28;
    }
    while i < |s|
      invariant i <= |s| && bits == Ones(s[..i])
    {
      OnesOneMore(s, i);
      bits := bits + BitsIn(s[i]);
      i := i + 1;
    }
    assert s[..i] == s;
  }

  lemma NoOnes()
    ensures Ones([]) == 0
  {
  }

  /** One turn of the middle loop: 28 bytes, in seven words. */
  method CountChunk(s: Bytes, i: nat) returns (count: nat)
    requires i + 28 <= |s|
    ensures Ones(s[..i + 28]) == Ones(s[..i]) + count
  {
    hide *;
    var aux1, c1 := PackedCounts(s, i);
    var aux2, c2 := PackedCounts(s, i + 4);
    var aux3, c3 := PackedCounts(s, i + 8);
    var aux4, c4 := PackedCounts(s, i + 12);
    var aux5, c5 := PackedCounts(s, i + 16);
    var aux6, c6 := PackedCounts(s, i + 20);
    var aux7, c7 := PackedCounts(s, i + 24);
    var sum := aux1 + aux2 + aux3 + aux4 + aux5 + aux6 + aux7;
    PackedSum(aux1, c1, 1, aux2, c2);
    PackedSum(aux1 + aux2, Plus(c1, c2), 2, aux3, c3);
    PackedSum(aux1 + aux2 + aux3, Plus(Plus(c1, c2), c3), 3, aux4, c4);
    PackedSum(aux1 + aux2 + aux3 + aux4, Plus(Plus(Plus(c1, c2), c3), c4), 4, aux5, c5);
    PackedSum(aux1 + aux2 + aux3 + aux4 + aux5, Plus(Plus(Plus(Plus(c1, c2), c3), c4), c5), 5, aux6, c6);
    PackedSum(aux1 + aux2 + aux3 + aux4 + aux5 + aux6, Plus(Plus(Plus(Plus(Plus(c1, c2), c3), c4), c5), c6), 6, aux7, c7);
    PackedTotal(sum, Plus(Plus(Plus(Plus(Plus(Plus(c1, c2), c3), c4), c5), c6), c7));
    count := Wrap32(Wrap32(sum) * 0x01010101) / 0x100_0000;
  }

  lemma Fits(n: nat)
    requires n < 0x1_0000_0000
    ensures Wrap32(n) == n
  {
  }
}
