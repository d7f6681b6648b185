/**
 BITFIELD SET and INCRBY (bitops.c) for widths 1 to 63: two's complement fields,
 and what happens when a value does not fit.
 */
module BitFieldCommand {
  import opened Basics
  import opened ByteStrings
  import opened BitField

  datatype Overflow = Wrap | Sat | Fail

  const INT64_MAX: int := 0x7fff_ffff_ffff_ffff

  /** A number as a 64-bit signed integer keeps it. */
  function Signed64(x: int): int { (x + TWO_63) % TWO_64 - TWO_63 }

  /** A number as a 64-bit unsigned integer keeps it. */
  function Unsigned64(x: int): nat { x % TWO_64 }

  predicate IsInt64(x: int) { -TWO_63 <= x < TWO_63 }

  predicate IsWidth(bits: nat) { 1 <= bits <= 63 }

  function MaxSigned(bits: nat): int
    requires bits > 0
  {
    Pow2(bits - 1) - 1
  }

  function MinSigned(bits: nat): int
    requires bits > 0
  {
    0 - Pow2(bits - 1)
  }

  /** The two's complement reading of a field. */
  function SignedOf(n: nat, bits: nat): int
    requires bits > 0
  {
    if n >= Pow2(bits - 1) then n - Pow2(bits) else n
  }

  function SignedAt(s: Bytes, offset: nat, bits: nat): int
    requires bits > 0 && offset + bits <= 8 * |s|
  {
    SignedOf(NumberAt(s, offset, bits), bits)
  }

  /** Two's complement wrap-around. */
  function WrapSigned(x: int, bits: nat): int
    requires bits > 0
  {
    SignedOf(x % Pow2(bits), bits)
  }

  // ---------------------------------------------------------------- arithmetic

  lemma ModShift(x: int, p: nat, m: int)
    requires p > 0
    ensures (x + p * m) % p == x % p
  {
    var a, b := (x + p * m) / p, x / p;
    var k := a - b - m;
    assert x + p * m == p * a + (x + p * m) % p;
    assert x == p * b + x % p;
    assert p * k == p * a - p * b - p * m;
    assert p * (-k) == -(p * k);
    if k >= 1 { AtLeast(p, k); } else if k <= -1 { AtLeast(p, -k); }
  }

  lemma WidthFactor(bits: nat) returns (q: nat)
    requires bits <= 64
    ensures TWO_64 == Pow2(bits) * q
  {
    Pow2Of64();
    Pow2Add(bits, 64 - bits);
    q := Pow2(64 - bits);
  }

  /** Reduction to 64 bits does not disturb a later reduction to fewer bits. */
  lemma Mod64(x: int, bits: nat)
    requires bits <= 64
    ensures Unsigned64(x) % Pow2(bits) == x % Pow2(bits)
  {
    var q := WidthFactor(bits);
    var k := x / TWO_64;
    assert x == TWO_64 * k + x % TWO_64;
    assert TWO_64 * k == Pow2(bits) * (q * k) by { assert (Pow2(bits) * q) * k == Pow2(bits) * (q * k); }
    ModShift(x % TWO_64, Pow2(bits), q * k);
  }

  lemma WidthBounds(bits: nat)
    requires IsWidth(bits)
    ensures Pow2(bits) == 2 * Pow2(bits - 1) <= TWO_63
  {
    Pow2Of64();
    Pow2Monotone(bits, 63);
  }

  /** Wrap-around lands in range, on the one value there that is the same modulo 2^bits. */
  lemma WrapSignedIs(x: int, y: int, bits: nat)
    requires IsWidth(bits)
    ensures MinSigned(bits) <= WrapSigned(x, bits) <= MaxSigned(bits)
    ensures MinSigned(bits) <= y <= MaxSigned(bits) ==> (y == WrapSigned(x, bits) <==> y % Pow2(bits) == x % Pow2(bits))
  {
    WidthBounds(bits);
    var p := Pow2(bits);
    hide Pow2;
    var r := x % p;
    SignedMod(r, bits);
    if MinSigned(bits) <= y <= MaxSigned(bits) { RangeMod(y, bits); }
  }

  lemma SignedMod(n: nat, bits: nat)
    requires IsWidth(bits) && n < Pow2(bits)
    ensures SignedOf(n, bits) % Pow2(bits) == n
  {
    WidthBounds(bits);
    ModShift(n, Pow2(bits), -1);
    SmallMod(n, Pow2(bits));
  }

  lemma SmallMod(n: nat, p: nat)
    requires n < p
    ensures n % p == n
  {
  }

  lemma SignedRemainder(y: int, h: nat)
    requires h > 0 && 0 - h <= y < h
    ensures y % (2 * h) == if y >= 0 then y else y + 2 * h
  {
    if y >= 0 {
      SmallMod(y, 2 * h);
    } else {
      ModShift(y, 2 * h, 1);
      SmallMod(y + 2 * h, 2 * h);
    }
  }

  lemma RangeMod(y: int, bits: nat)
    requires IsWidth(bits) && MinSigned(bits) <= y <= MaxSigned(bits)
    ensures SignedOf(y % Pow2(bits), bits) == y
  {
    hide Pow2;
    WidthBounds(bits);
    SignedRemainder(y, Pow2(bits - 1));
  }

  lemma {:induction false} TopBit(n: nat, k: nat)
    requires n < Pow2(k + 1)
    ensures Bit(n, k) == 1 <==> n >= Pow2(k)
  {
    if k > 0 { TopBit(n / 2, k - 1); }
  }

  lemma {:induction false} BitOfMod(n: nat, k: nat)
    ensures Bit(n % Pow2(k + 1), k) == Bit(n, k)
  {
    var p := Pow2(k + 1);
    if k > 0 {
      var h, b := n / 2, n % 2;
      ModDouble(h, b, Pow2(k));
      assert n == 2 * h + b;
      assert n % p == 2 * (h % Pow2(k)) + b;
      assert (n % p) / 2 == h % Pow2(k);
      BitOfMod(h, k - 1);
    }
  }

  // ---------------------------------------------------------------- the overflow checks

  /** checkUnsignedBitfieldOverflow: 1 for overflow, -1 for underflow, 0 for neither, and the limit it sets. */
  function CheckUnsigned(value: nat, incr: int, bits: nat, ow: Overflow): (int, nat)
  {
    var max := Pow2(bits) - 1;
    var maxincr := Signed64(max - value);
    var minincr := Signed64(0 - value);
    var wrapped := Unsigned64(value + incr) % Pow2(bits);
    if value > max || (incr > 0 && incr > maxincr) then
      (1, match ow case Wrap => wrapped case Sat => max case Fail => 0)
    else if incr < 0 && incr < minincr then
      if ow == Wrap then (1, wrapped) else (-1, 0)
    else (0, 0)
  }

  /** The wrapped result of the signed check: the sum is taken unsigned, then its sign bit is spread or cleared above the field. */
  function SpreadSign(sum: int, bits: nat): int
    requires bits > 0
  {
    var c := Unsigned64(sum);
    var low := c % Pow2(bits);
    Signed64(if Bit(c, bits - 1) == 1 then low + (TWO_64 - Pow2(bits)) else low)
  }

  /** checkSignedBitfieldOverflow, whose two differences wrap around like all its arithmetic. */
  function CheckSigned(value: int, incr: int, bits: nat, ow: Overflow): (int, int)
    requires bits > 0
  {
    var max := MaxSigned(bits);
    var min := MinSigned(bits);
    var maxincr := Signed64(max - value);
    var minincr := Signed64(min - value);
    if value > max || incr > maxincr || (value >= 0 && incr > 0 && incr > maxincr) then
      (1, match ow case Wrap => SpreadSign(value + incr, bits) case Sat => max case Fail => 0)
    else if value < min || incr < minincr || (value < 0 && incr < 0 && incr < minincr) then
      if ow == Wrap then (1, SpreadSign(value + incr, bits)) else (-1, if ow == Sat then min else 0)
    else (0, 0)
  }

  lemma Signed64Same(x: int)
    requires IsInt64(x)
    ensures Signed64(x) == x
  {
  }

  lemma SpreadSignWraps(sum: int, bits: nat)
    requires IsWidth(bits)
    ensures SpreadSign(sum, bits) == WrapSigned(sum, bits)
  {
    var c := Unsigned64(sum);
    var low := c % Pow2(bits);
    Mod64(sum, bits);
    BitOfMod(c, bits - 1);
    TopBit(low, bits - 1);
    WidthBounds(bits);
    hide Pow2, Bit;
    if low >= Pow2(bits - 1) { SignedAbove(low - Pow2(bits)); } else { Signed64Same(low); }
  }

  lemma SignedAbove(x: int)
    requires -TWO_63 <= x < 0
    ensures Signed64(TWO_64 + x) == x
  {
  }

  /** What an operation stores: the value if it fits, else by the overflow type the wrapped value, the nearest limit, or nothing. */
  function Stored(x: int, min: int, max: int, wrapped: int, ow: Overflow): Option<int>
  {
    if min <= x <= max then Some(x)
    else match ow case Wrap => Some(wrapped) case Sat => Some(if x > max then max else min) case Fail => None
  }

  /** A value that fits is stored as it is; one that does not is wrapped, replaced by the nearest that does, or not stored. */
  lemma StoredMeans(x: int, min: int, max: int, wrapped: int, ow: Overflow, y: int)
    requires min <= y <= max
    ensures var r, fits := Stored(x, min, max, wrapped, ow), min <= x <= max;
            && (r == None <==> !fits && ow == Fail)
            && (fits ==> r == Some(x))
            && (!fits && ow == Wrap ==> r == Some(wrapped))
            && (!fits && ow == Sat ==>
                  && r.Some? && min <= r.value <= max
                  && (x > max ==> x - r.value <= x - y) && (x < min ==> r.value - x <= y - x))
  {
  }

  /** What the code stores, given the check's verdict. */
  function Kept(x: int, check: (int, int), ow: Overflow): Option<int>
  {
    if check.0 == 0 then Some(x) else if ow == Fail then None else Some(check.1)
  }

  /** On a value that fits, the signed check is exact for every increment. */
  lemma SignedIncrement(value: int, incr: int, bits: nat, ow: Overflow)
    requires IsWidth(bits) && MinSigned(bits) <= value <= MaxSigned(bits)
    ensures Kept(value + incr, CheckSigned(value, incr, bits, ow), ow)
            == Stored(value + incr, MinSigned(bits), MaxSigned(bits), WrapSigned(value + incr, bits), ow)
  {
    WidthBounds(bits);
    SpreadSignWraps(value + incr, bits);
    hide Pow2, WrapSigned, SpreadSign;
    Signed64Same(MaxSigned(bits) - value);
    Signed64Same(MinSigned(bits) - value);
  }

  /** On a value that fits, the unsigned check tells whether the sum does. */
  lemma UnsignedChecked(value: nat, incr: int, bits: nat, ow: Overflow)
    requires IsWidth(bits) && value < Pow2(bits) && IsInt64(incr)
    ensures var max, wrapped := Pow2(bits) - 1, Unsigned64(value + incr) % Pow2(bits);
            CheckUnsigned(value, incr, bits, ow) ==
              if value + incr > max then (1, match ow case Wrap => wrapped case Sat => max case Fail => 0)
              else if value + incr < 0 then if ow == Wrap then (1, wrapped) else (-1, 0)
              else (0, 0)
  {
    hide Pow2, Unsigned64;
    WidthBounds(bits);
    Signed64Same(Pow2(bits) - 1 - value);
    Signed64Same(0 - value);
    hide Signed64;
  }

  lemma UnsignedIncrement(value: nat, incr: int, bits: nat, ow: Overflow)
    requires IsWidth(bits) && value < Pow2(bits) && IsInt64(incr)
    ensures Kept(value + incr, CheckUnsigned(value, incr, bits, ow), ow)
            == Stored(value + incr, 0, Pow2(bits) - 1, (value + incr) % Pow2(bits), ow)
  {
    hide Pow2, Unsigned64, CheckUnsigned, Signed64;
    UnsignedChecked(value, incr, bits, ow);
    Mod64(value + incr, bits);
  }

  /** Does max - value wrap around in the signed check? */
  predicate DifferenceWraps(value: int, bits: nat)
    requires bits > 0
  {
    MaxSigned(bits) - value > INT64_MAX
  }

  lemma DifferenceOf(value: int, bits: nat)
    requires IsWidth(bits) && IsInt64(value)
    ensures !DifferenceWraps(value, bits) ==> Signed64(MaxSigned(bits) - value) == MaxSigned(bits) - value
    ensures DifferenceWraps(value, bits) ==> Signed64(MaxSigned(bits) - value) < 0 && value < MinSigned(bits)
    ensures value <= MaxSigned(bits) ==> (value >= MinSigned(bits) ==> Signed64(MinSigned(bits) - value) == MinSigned(bits) - value)
  {
    WidthBounds(bits);
    hide Pow2;
  }

  /**
   SET checks the new value with no increment. The check stores what it should
   except in one family of cases: a saturating SET of a value so low that
   max - value wraps around ends at the greatest value instead of the least.
   */
  lemma SignedSet(value: int, bits: nat, ow: Overflow)
    requires IsWidth(bits) && IsInt64(value)
    ensures var kept := Kept(value, CheckSigned(value, 0, bits, ow), ow);
            var right := Stored(value, MinSigned(bits), MaxSigned(bits), WrapSigned(value, bits), ow);
            && (kept == right <==> !(ow == Sat && DifferenceWraps(value, bits)))
            && (ow == Sat && DifferenceWraps(value, bits) ==> kept == Some(MaxSigned(bits)))
  {
    SpreadSignWraps(value, bits);
    WidthBounds(bits);
    DifferenceOf(value, bits);
    hide Pow2, WrapSigned, SpreadSign, Signed64;
  }

  /** The same for unsigned fields: a negative value is taken as a huge one, so SAT stores the greatest value, not zero. */
  lemma UnsignedSet(value: int, bits: nat, ow: Overflow)
    requires IsWidth(bits) && IsInt64(value)
    ensures var kept := Kept(Unsigned64(value), CheckUnsigned(Unsigned64(value), 0, bits, ow), ow);
            var right := Stored(value, 0, Pow2(bits) - 1, value % Pow2(bits), ow);
            && (kept == right <==> !(ow == Sat && value < 0))
            && (ow == Sat && value < 0 ==> kept == Some(Pow2(bits) - 1))
  {
    WidthBounds(bits);
    Mod64(value, bits);
    Mod64(Unsigned64(value), bits);
    var p := Pow2(bits);
    hide Pow2;
    CastRange(value);
  }

  /** The failing inputs, concretely: SET i8 -2^63 and SET u8 -1 with OVERFLOW SAT. */
  lemma SaturatedSetBroken()
    ensures Kept(-TWO_63, CheckSigned(-TWO_63, 0, 8, Sat), Sat) == Some(127)
    ensures Stored(-TWO_63, MinSigned(8), MaxSigned(8), WrapSigned(-TWO_63, 8), Sat) == Some(-128)
    ensures Kept(Unsigned64(-1), CheckUnsigned(Unsigned64(-1), 0, 8, Sat), Sat) == Some(255)
    ensures Stored(-1, 0, Pow2(8) - 1, -1 % Pow2(8), Sat) == Some(0)
  {
    EightBits();
    hide Pow2, WrapSigned, CheckSigned, CheckUnsigned, Unsigned64;
    SignedSet(-TWO_63, 8, Sat);
    UnsignedSet(-1, 8, Sat);
  }

  lemma EightBits()
    ensures Pow2(7) == 128 && Pow2(8) == 256
  {
    assert Pow2(4) == 16;
  }

  lemma CastRange(value: int)
    requires IsInt64(value)
    ensures value >= 0 ==> Unsigned64(value) == value
    ensures value < 0 ==> Unsigned64(value) == value + TWO_64 >= TWO_63
  {
  }

  // ---------------------------------------------------------------- the commands

  /** getSignedBitfield */
  method GetSignedBitfield(p: array<Byte>, offset: nat, bits: nat) returns (value: int)
    requires IsWidth(bits) && offset + bits <= 8 * p.Length
    ensures value == SignedAt(p[..], offset, bits)
    ensures MinSigned(bits) <= value <= MaxSigned(bits)
  {
    hide NumberAt, Bit;
    var u := GetUnsignedBitfield(p, offset, bits);
    WidthBounds(bits);
    TopBit(u, bits - 1);
    if Bit(u, bits - 1) == 1 {
      u := u + (TWO_64 - Pow2(bits));
      SignedAbove(u - TWO_64);
    } else {
      Signed64Same(u);
    }
    value := Signed64(u);
  }

  /** setSignedBitfield: the field reads back as the value, wrapped around to its width. */
  method SetSignedBitfield(p: array<Byte>, offset: nat, bits: nat, value: int)
    requires IsWidth(bits) && offset + bits <= 8 * p.Length
    modifies p
    ensures SignedAt(p[..], offset, bits) == WrapSigned(value, bits)
    ensures OnlyField(old(p[..]), p[..], offset, bits)
  {
    hide NumberAt, Bit;
    Mod64(value, bits);
    SetUnsignedBitfield(p, offset, bits, Unsigned64(value));
  }

  datatype Opcode = Set | IncrBy

  /** The part of bitfieldCommand for a signed SET or INCRBY; no reply value stands for a null reply. */
  method SignedOp(op: Opcode, p: array<Byte>, offset: nat, bits: nat, arg: int, ow: Overflow) returns (reply: Option<int>)
    requires IsWidth(bits) && IsInt64(arg) && offset + bits <= 8 * p.Length
    modifies p
    ensures var old' := SignedAt(old(p[..]), offset, bits);
            var sum := if op == IncrBy then old' + arg else arg;
            var stored := Stored(sum, MinSigned(bits), MaxSigned(bits), WrapSigned(sum, bits), ow);
            op == IncrBy || ow != Sat || !DifferenceWraps(arg, bits) ==>
              && SignedAt(p[..], offset, bits) == (if stored.Some? then stored.value else old')
              && reply == (if stored.None? then None else if op == IncrBy then stored else Some(old'))
    ensures op == Set && ow == Sat && DifferenceWraps(arg, bits) ==>
              SignedAt(p[..], offset, bits) == MaxSigned(bits) && reply == Some(SignedAt(old(p[..]), offset, bits))
    ensures OnlyField(old(p[..]), p[..], offset, bits)
  {
    hide SignedAt, WrapSigned, CheckSigned, OnlyField, MaxSigned, MinSigned, Kept, Stored;
    var oldval := GetSignedBitfield(p, offset, bits);
    var newval := if op == IncrBy then oldval + arg else arg;
    var check := if op == IncrBy then CheckSigned(oldval, arg, bits, ow) else CheckSigned(newval, 0, bits, ow);
    if op == IncrBy { SignedIncrement(oldval, arg, bits, ow); } else { SignedSet(arg, bits, ow); }
    ghost var kept := Kept(newval, check, ow);
    KeptCases(newval, check, ow);
    KeptInRange(op, oldval, arg, bits, ow);
    if check.0 != 0 { newval := check.1; }
    if check.0 != 0 && ow == Fail {
      Untouched(p[..], offset, bits);
      return None;
    }
    WrapInRange(newval, bits);
    SetSignedBitfield(p, offset, bits, newval);
    return Some(if op == IncrBy then newval else oldval);
  }

  lemma KeptCases(x: int, check: (int, int), ow: Overflow)
    ensures Kept(x, check, ow) == if check.0 == 0 then Some(x) else if ow == Fail then None else Some(check.1)
  {
  }

  lemma Untouched(s: Bytes, offset: nat, bits: nat)
    ensures OnlyField(s, s, offset, bits)
  {
  }

  lemma WrapInRange(x: int, bits: nat)
    requires IsWidth(bits)
    ensures MinSigned(bits) <= x <= MaxSigned(bits) ==> WrapSigned(x, bits) == x
  {
    WrapSignedIs(x, x, bits);
  }

  lemma KeptInRange(op: Opcode, oldval: int, arg: int, bits: nat, ow: Overflow)
    requires IsWidth(bits) && IsInt64(arg) && MinSigned(bits) <= oldval <= MaxSigned(bits)
    ensures var x := if op == IncrBy then oldval + arg else arg;
            var check := if op == IncrBy then CheckSigned(oldval, arg, bits, ow) else CheckSigned(arg, 0, bits, ow);
            var kept := Kept(x, check, ow);
            kept.Some? ==> MinSigned(bits) <= kept.value <= MaxSigned(bits)
  {
    var x := if op == IncrBy then oldval + arg else arg;
    if op == IncrBy { SignedIncrement(oldval, arg, bits, ow); } else { SignedSet(arg, bits, ow); }
    WrapSignedIs(x, x, bits);
    WidthBounds(bits);
    hide CheckSigned, Kept, WrapSigned, Pow2;
  }

  /** The part of bitfieldCommand for an unsigned SET or INCRBY. */
  method UnsignedOp(op: Opcode, p: array<Byte>, offset: nat, bits: nat, arg: int, ow: Overflow) returns (reply: Option<int>)
    requires IsWidth(bits) && IsInt64(arg) && offset + bits <= 8 * p.Length
    modifies p
    ensures var old' := NumberAt(old(p[..]), offset, bits);
            var sum := if op == IncrBy then old' + arg else arg;
            var stored := Stored(sum, 0, Pow2(bits) - 1, sum % Pow2(bits), ow);
            op == IncrBy || ow != Sat || arg >= 0 ==>
              && NumberAt(p[..], offset, bits) == (if stored.Some? then stored.value else old')
              && reply == (if stored.None? then None else if op == IncrBy then stored else Some(old'))
    ensures op == Set && ow == Sat && arg < 0 ==>
              NumberAt(p[..], offset, bits) == Pow2(bits) - 1 && reply == Some(NumberAt(old(p[..]), offset, bits))
    ensures OnlyField(old(p[..]), p[..], offset, bits)
  {
    hide NumberAt, Pow2, CheckUnsigned, OnlyField, Kept, Stored, Unsigned64;
    var oldval := GetUnsignedBitfield(p, offset, bits);
    var newval: int := if op == IncrBy then oldval + arg else Unsigned64(arg);
    var check := if op == IncrBy then CheckUnsigned(oldval, arg, bits, ow) else CheckUnsigned(Unsigned64(arg), 0, bits, ow);
    if op == IncrBy { UnsignedIncrement(oldval, arg, bits, ow); } else { UnsignedSet(arg, bits, ow); }
    KeptCases(newval, check, ow);
    UnsignedInRange(op, oldval, arg, bits, ow);
    if check.0 != 0 { newval := check.1; }
    if check.0 != 0 && ow == Fail {
      Untouched(p[..], offset, bits);
      return None;
    }
    SmallMod(newval, Pow2(bits));
    SetUnsignedBitfield(p, offset, bits, newval);
    return Some(if op == IncrBy then newval else oldval);
  }

  lemma UnsignedInRange(op: Opcode, oldval: nat, arg: int, bits: nat, ow: Overflow)
    requires IsWidth(bits) && IsInt64(arg) && oldval < Pow2(bits)
    ensures var x: int := if op == IncrBy then oldval + arg else Unsigned64(arg);
            var check := if op == IncrBy then CheckUnsigned(oldval, arg, bits, ow) else CheckUnsigned(Unsigned64(arg), 0, bits, ow);
            var kept := Kept(x, check, ow);
            kept.Some? ==> 0 <= kept.value < Pow2(bits)
  {
    if op == IncrBy { UnsignedIncrement(oldval, arg, bits, ow); } else { UnsignedSet(arg, bits, ow); }
    hide CheckUnsigned, Kept, Pow2;
  }

  // ---------------------------------------------------------------- GET

  /** A string with zeros after it, up to n bytes at least. */
  function Padded(s: Bytes, n: nat): Bytes
  {
    s + seq(n, _ => 0)
  }

  lemma PaddedBit(src: Bytes, buf: Bytes, offset: nat, i: nat)
    requires |buf| == 9 && (offset % 8 + i) / 8 < 9
    requires forall j :: 0 <= j < 9 ==> buf[j] == if j + offset / 8 < |src| then src[j + offset / 8] else 0
    ensures SameBit(buf, offset % 8, Padded(src, offset / 8 + 9), offset, i)
  {
    hide Bit;
    assert (offset + i) / 8 == (offset % 8 + i) / 8 + offset / 8 && (offset + i) % 8 == (offset % 8 + i) % 8;
  }

  /** The part of bitfieldCommand for GET: up to nine bytes are copied first, so bits past the end of the string read as zero. */
  method GetOp(src: Bytes, offset: nat, bits: nat, signed: bool) returns (value: int)
    requires IsWidth(bits)
    ensures offset + bits <= 8 * |Padded(src, offset / 8 + 9)|
    ensures value == if signed then SignedAt(Padded(src, offset / 8 + 9), offset, bits) else NumberAt(Padded(src, offset / 8 + 9), offset, bits)
  {
    hide Bit, NumberAt, Pow2;
    var buf: array<Byte> := new Byte[9](_ => 0);
    var byte := offset / 8;
    var i := 0;
    while i < 9 && i + byte < |src|
      invariant 0 <= i <= 9
      invariant forall j :: 0 <= j < 9 ==> buf[j] == if j < i && j + byte < |src| then src[j + byte] else 0
    {
      buf[i] := src[i + byte];
      i := i + 1;
    }
    var o := offset % 8;
    ghost var copied, padded := buf[..], Padded(src, byte + 9);
    forall k: nat | k < bits
      ensures SameBit(copied, o, padded, offset, k)
    {
      PaddedBit(src, buf[..], offset, k);
    }
    NumberSame(copied, o, padded, offset, bits);
    hide Padded;
    if signed {
      value := GetSignedBitfield(buf, offset - byte * 8, bits);
    } else {
      value := GetUnsignedBitfield(buf, offset - byte * 8, bits);
    }
  }
}
