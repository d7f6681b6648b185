/**
 Geohash bit arithmetic (geohash.c): two 32-bit coordinates interleaved in 64 bits,
 and moves to neighbouring cells made without taking them apart.
 */
module Geohash {
  import opened Basics

  /** interleave64: the bits of xlo in the even places, those of ylo in the odd ones. */
  function Interleave64(xlo: bv32, ylo: bv32): bv64
  {
    var x := xlo as bv64;
    var y := ylo as bv64;
    var x4 := (x | (x << 16)) & 0x0000FFFF0000FFFF;
    var y4 := (y | (y << 16)) & 0x0000FFFF0000FFFF;
    var x3 := (x4 | (x4 << 8)) & 0x00FF00FF00FF00FF;
    var y3 := (y4 | (y4 << 8)) & 0x00FF00FF00FF00FF;
    var x2 := (x3 | (x3 << 4)) & 0x0F0F0F0F0F0F0F0F;
    var y2 := (y3 | (y3 << 4)) & 0x0F0F0F0F0F0F0F0F;
    var x1 := (x2 | (x2 << 2)) & 0x3333333333333333;
    var y1 := (y2 | (y2 << 2)) & 0x3333333333333333;
    var x0 := (x1 | (x1 << 1)) & 0x5555555555555555;
    var y0 := (y1 | (y1 << 1)) & 0x5555555555555555;
    x0 | (y0 << 1)
  }

  /** deinterleave64: the even bits in the lower half of the result, the odd bits in the upper. */
  function Deinterleave64(interleaved: bv64): bv64
  {
    var x := interleaved;
    var y := interleaved >> 1;
    var x0 := (x | (x >> 0)) & 0x5555555555555555;
    var y0 := (y | (y >> 0)) & 0x5555555555555555;
    var x1 := (x0 | (x0 >> 1)) & 0x3333333333333333;
    var y1 := (y0 | (y0 >> 1)) & 0x3333333333333333;
    var x2 := (x1 | (x1 >> 2)) & 0x0F0F0F0F0F0F0F0F;
    var y2 := (y1 | (y1 >> 2)) & 0x0F0F0F0F0F0F0F0F;
    var x3 := (x2 | (x2 >> 4)) & 0x00FF00FF00FF00FF;
    var y3 := (y2 | (y2 >> 4)) & 0x00FF00FF00FF00FF;
    var x4 := (x3 | (x3 >> 8)) & 0x0000FFFF0000FFFF;
    var y4 := (y3 | (y3 >> 8)) & 0x0000FFFF0000FFFF;
    var x5 := (x4 | (x4 >> 16)) & 0x00000000FFFFFFFF;
    var y5 := (y4 | (y4 >> 16)) & 0x00000000FFFFFFFF;
    x5 | (y5 << 32)
  }

  /** The even bits of a hash, moved together. */
  function EvenBits(bits: bv64): bv64
  {
    var x0 := bits & 0x5555555555555555;
    var x1 := (x0 | (x0 >> 1)) & 0x3333333333333333;
    var x2 := (x1 | (x1 >> 2)) & 0x0F0F0F0F0F0F0F0F;
    var x3 := (x2 | (x2 >> 4)) & 0x00FF00FF00FF00FF;
    var x4 := (x3 | (x3 >> 8)) & 0x0000FFFF0000FFFF;
    (x4 | (x4 >> 16)) & 0x00000000FFFFFFFF
  }

  /** The two coordinates of a hash: latitude in the even bits, longitude in the odd ones. */
  function Latitude(bits: bv64): bv64 { EvenBits(bits) }

  function Longitude(bits: bv64): bv64 { EvenBits(bits >> 1) }

  /** deinterleave64 gives the two coordinates, each of 32 bits. */
  lemma DeinterleaveIs(bits: bv64)
    ensures Deinterleave64(bits) == Latitude(bits) | (Longitude(bits) << 32)
    ensures Latitude(bits) <= 0xFFFFFFFF && Longitude(bits) <= 0xFFFFFFFF
  {
  }

  /** It undoes interleave64, for all coordinates. */
  lemma DeinterleaveInterleave(x: bv32, y: bv32)
    ensures Deinterleave64(Interleave64(x, y)) == (x as bv64) | ((y as bv64) << 32)
    ensures Latitude(Interleave64(x, y)) == x as bv64 && Longitude(Interleave64(x, y)) == y as bv64
  {
  }

  lemma InterleaveDeinterleave(bits: bv64)
    ensures Latitude(bits) <= 0xFFFFFFFF && Longitude(bits) <= 0xFFFFFFFF
    ensures Interleave64(Latitude(bits) as bv32, Longitude(bits) as bv32) == bits
  {
  }

  function Half(c: bv64): bv64 { c >> 1 }

  predicate Odd(c: bv64) { c & 1 == 1 }

  /** Bit i, counted from the lowest. */
  predicate BitAt(c: bv64, i: nat)
  {
    if i == 0 then Odd(c) else BitAt(Half(c), i - 1)
  }

  lemma EvenHalf(bits: bv64)
    ensures Half(EvenBits(bits)) == EvenBits(Half(Half(bits)))
    ensures Odd(EvenBits(bits)) <==> Odd(bits)
  {
  }

  lemma LongitudeIs(bits: bv64)
    ensures Longitude(bits) == EvenBits(Half(bits))
  {
  }

  lemma {:induction false} EvenBitAt(bits: bv64, i: nat)
    ensures BitAt(EvenBits(bits), i) <==> BitAt(bits, 2 * i)
    decreases i
  {
    hide EvenBits, Half, Odd;
    EvenHalf(bits);
    if i > 0 {
      EvenBitAt(Half(Half(bits)), i - 1);
      assert BitAt(bits, 2 * i) == BitAt(Half(bits), 2 * i - 1) == BitAt(Half(Half(bits)), 2 * i - 2);
    }
  }

  /** Bit i of a coordinate is bit 2i, or 2i + 1, of the hash. */
  lemma InterleavedBit(bits: bv64, i: nat)
    ensures BitAt(Latitude(bits), i) <==> BitAt(bits, 2 * i)
    ensures BitAt(Longitude(bits), i) <==> BitAt(bits, 2 * i + 1)
  {
    hide EvenBits, Half, Odd, Longitude;
    EvenBitAt(bits, i);
    LongitudeIs(bits);
    EvenBitAt(Half(bits), i);
  }

  // ---------------------------------------------------------------- moves

  predicate IsStep(step: bv8) { 1 <= step && step <= 32 }

  /** The masks of a hash of the given step: 0x5555... and 0xaaaa... cut to 2 * step bits. */
  function EvenMask(step: bv8): bv64
    requires IsStep(step)
  {
    0x5555555555555555 >> (64 - step * 2) as bv7
  }

  function OddMask(step: bv8): bv64
    requires IsStep(step)
  {
    0xAAAAAAAAAAAAAAAA >> (64 - step * 2) as bv7
  }

  predicate IsCount(k: bv8) { 1 <= k && k <= 64 }

  /** 2^k - 1 */
  function Ones(k: bv8): bv64
    requires IsCount(k)
  {
    0xFFFFFFFFFFFFFFFF >> (64 - k) as bv7
  }

  function Top(step: bv8): bv64
    requires IsStep(step)
  {
    Ones(step)
  }

  function And(a: bv64, b: bv64): bv64 { a & b }

  /** All bits of c are among those of t. */
  predicate Within(c: bv64, t: bv64) { And(c, t) == c }

  predicate InRange(c: bv64, step: bv8)
    requires IsStep(step)
  {
    Within(c, Top(step))
  }

  /** Both coordinates are below 2^step. */
  predicate InGrid(bits: bv64, step: bv8)
    requires IsStep(step)
  {
    InRange(Latitude(bits), step) && InRange(Longitude(bits), step)
  }

  function UpTo(c: bv64, t: bv64): bv64 { And(c + 1, t) }

  function DownTo(c: bv64, t: bv64): bv64 { And(c - 1, t) }

  /** A coordinate moved by one, modulo 2^step. */
  function Moved(c: bv64, d: int, step: bv8): bv64
    requires IsStep(step)
  {
    if d == 0 then c else if d > 0 then UpTo(c, Top(step)) else DownTo(c, Top(step))
  }

  /** A new x or y put beside the other coordinate of a hash. */
  function WithX(x: bv64, bits: bv64): bv64 { x | (bits & 0x5555555555555555) }

  function WithY(y: bv64, bits: bv64): bv64 { (bits & 0xAAAAAAAAAAAAAAAA) | y }

  function Less(c: bv64, zz: bv64): bv64 { c - (zz + 1) }

  /** What geohash_move_x does to the bits, for a positive and for a negative d. */
  function RaisedX(bits: bv64, step: bv8): bv64
    requires IsStep(step)
  {
    RaisedXBy(bits, EvenMask(step), OddMask(step))
  }

  function RaisedXBy(bits: bv64, zz: bv64, mask: bv64): bv64
  {
    WithX(And((bits & 0xAAAAAAAAAAAAAAAA) + (zz + 1), mask), bits)
  }

  function LoweredX(bits: bv64, step: bv8): bv64
    requires IsStep(step)
  {
    LoweredXBy(bits, EvenMask(step), OddMask(step))
  }

  function LoweredXBy(bits: bv64, zz: bv64, mask: bv64): bv64
  {
    WithX(And(Less((bits & 0xAAAAAAAAAAAAAAAA) | zz, zz), mask), bits)
  }

  /** What geohash_move_y does. */
  function RaisedY(bits: bv64, step: bv8): bv64
    requires IsStep(step)
  {
    RaisedYBy(bits, OddMask(step), EvenMask(step))
  }

  function RaisedYBy(bits: bv64, zz: bv64, mask: bv64): bv64
  {
    WithY(And((bits & 0x5555555555555555) + (zz + 1), mask), bits)
  }

  function LoweredY(bits: bv64, step: bv8): bv64
    requires IsStep(step)
  {
    LoweredYBy(bits, OddMask(step), EvenMask(step))
  }

  function LoweredYBy(bits: bv64, zz: bv64, mask: bv64): bv64
  {
    WithY(And(Less((bits & 0x5555555555555555) | zz, zz), mask), bits)
  }

  // ---------------------------------------------------------------- the masks

  predicate AllOnes(m: bv64) { m & (m + 1) == 0 }

  /** All that the moves use of the masks: they are the full patterns cut to 2 * step bits. */
  lemma MasksAre(step: bv8)
    requires IsStep(step)
    ensures IsCount(2 * step) && AllOnes(Ones(2 * step)) && AllOnes(Top(step))
    ensures EvenMask(step) == 0x5555555555555555 & Ones(2 * step) && OddMask(step) == 0xAAAAAAAAAAAAAAAA & Ones(2 * step)
    ensures Longitude(Ones(2 * step)) == Top(step) && Latitude(Ones(2 * step)) == Top(step)
  {
  }

  /** Below the cut, the mask adds one to the coordinate with all bits of the other set. */
  lemma SumX(v: bv64, m: bv64)
    requires AllOnes(m)
    ensures And((v & 0xAAAAAAAAAAAAAAAA) + ((0x5555555555555555 & m) + 1), 0xAAAAAAAAAAAAAAAA & m)
            == And((v | 0x5555555555555555) + 1, 0xAAAAAAAAAAAAAAAA & m)
  {
  }

  lemma SumY(v: bv64, m: bv64)
    requires AllOnes(m)
    ensures And((v & 0x5555555555555555) + ((0xAAAAAAAAAAAAAAAA & m) + 1), 0x5555555555555555 & m)
            == And((v | 0xAAAAAAAAAAAAAAAA) + 1, 0x5555555555555555 & m)
  {
  }

  /** With those set a carry runs from each bit of a coordinate to the next; */
  lemma CarryX(v: bv64)
    ensures Longitude((v | 0x5555555555555555) + 1) == UpTo(Longitude(v), 0xFFFFFFFF)
  {
  }

  lemma CarryY(v: bv64)
    ensures Latitude((v | 0xAAAAAAAAAAAAAAAA) + 1) == UpTo(Latitude(v), 0xFFFFFFFF)
  {
  }

  /** with none set a borrow does, */
  lemma BorrowX(v: bv64)
    ensures Longitude((v & 0xAAAAAAAAAAAAAAAA) - 1) == DownTo(Longitude(v), 0xFFFFFFFF)
  {
  }

  lemma BorrowY(v: bv64)
    ensures Latitude((v & 0x5555555555555555) - 1) == DownTo(Latitude(v), 0xFFFFFFFF)
  {
  }

  /** and setting bits that are not set is adding them, so taking them and one away takes one. */
  lemma OrIsSumX(v: bv64, m: bv64)
    ensures (v & 0xAAAAAAAAAAAAAAAA) | (0x5555555555555555 & m) == (v & 0xAAAAAAAAAAAAAAAA) + (0x5555555555555555 & m)
  {
  }

  lemma OrIsSumY(v: bv64, m: bv64)
    ensures (v & 0x5555555555555555) | (0xAAAAAAAAAAAAAAAA & m) == (v & 0x5555555555555555) + (0xAAAAAAAAAAAAAAAA & m)
  {
  }

  lemma TakeBack(c: bv64, zz: bv64)
    ensures Less(c + zz, zz) == c - 1
  {
  }

  /** The coordinates of a hash put together from two. */
  lemma CutX(x: bv64, m: bv64, bits: bv64)
    ensures Longitude(WithX(And(x, 0xAAAAAAAAAAAAAAAA & m), bits)) == And(Longitude(x), Longitude(m))
    ensures Latitude(WithX(And(x, 0xAAAAAAAAAAAAAAAA & m), bits)) == Latitude(bits)
  {
  }

  lemma CutY(y: bv64, m: bv64, bits: bv64)
    ensures Latitude(WithY(And(y, 0x5555555555555555 & m), bits)) == And(Latitude(y), Latitude(m))
    ensures Longitude(WithY(And(y, 0x5555555555555555 & m), bits)) == Longitude(bits)
  {
  }

  lemma AndAnd(a: bv64, b: bv64, c: bv64)
    ensures And(And(a, b), c) == And(a, And(b, c))
  {
  }

  lemma TopFits(step: bv8)
    requires IsStep(step)
    ensures And(0xFFFFFFFF, Top(step)) == Top(step)
  {
  }

  /** A move modulo 2^32 is cut to one modulo 2^step. */
  lemma CutMove(c: bv64, step: bv8)
    requires IsStep(step)
    ensures And(UpTo(c, 0xFFFFFFFF), Top(step)) == UpTo(c, Top(step))
    ensures And(DownTo(c, 0xFFFFFFFF), Top(step)) == DownTo(c, Top(step))
  {
    hide And, Top, IsStep;
    TopFits(step);
    AndAnd(c + 1, 0xFFFFFFFF, Top(step));
    AndAnd(c - 1, 0xFFFFFFFF, Top(step));
  }

  lemma RaisedXIs(bits: bv64, m: bv64)
    requires AllOnes(m)
    ensures RaisedXBy(bits, 0x5555555555555555 & m, 0xAAAAAAAAAAAAAAAA & m) == WithX(And((bits | 0x5555555555555555) + 1, 0xAAAAAAAAAAAAAAAA & m), bits)
  {
    hide WithX, And, AllOnes;
    SumX(bits, m);
  }

  lemma LoweredXIs(bits: bv64, m: bv64)
    ensures LoweredXBy(bits, 0x5555555555555555 & m, 0xAAAAAAAAAAAAAAAA & m) == WithX(And((bits & 0xAAAAAAAAAAAAAAAA) - 1, 0xAAAAAAAAAAAAAAAA & m), bits)
  {
    hide WithX, And, Less;
    OrIsSumX(bits, m);
    TakeBack(bits & 0xAAAAAAAAAAAAAAAA, 0x5555555555555555 & m);
  }

  /** A coordinate moved modulo 2^32, put into the hash through the mask. */
  lemma PutX(moved: bv64, bits: bv64, step: bv8)
    requires IsStep(step)
    ensures Longitude(WithX(And(moved, 0xAAAAAAAAAAAAAAAA & Ones(2 * step)), bits)) == And(Longitude(moved), Top(step))
    ensures Latitude(WithX(And(moved, 0xAAAAAAAAAAAAAAAA & Ones(2 * step)), bits)) == Latitude(bits)
  {
    hide Longitude, Latitude, Top, Ones, EvenMask, OddMask, IsStep, AllOnes, WithX, And;
    MasksAre(step);
    CutX(moved, Ones(2 * step), bits);
  }

  lemma RaisedYIs(bits: bv64, m: bv64)
    requires AllOnes(m)
    ensures RaisedYBy(bits, 0xAAAAAAAAAAAAAAAA & m, 0x5555555555555555 & m) == WithY(And((bits | 0xAAAAAAAAAAAAAAAA) + 1, 0x5555555555555555 & m), bits)
  {
    hide WithY, And, AllOnes;
    SumY(bits, m);
  }

  lemma LoweredYIs(bits: bv64, m: bv64)
    ensures LoweredYBy(bits, 0xAAAAAAAAAAAAAAAA & m, 0x5555555555555555 & m) == WithY(And((bits & 0x5555555555555555) - 1, 0x5555555555555555 & m), bits)
  {
    hide WithY, And, Less;
    OrIsSumY(bits, m);
    TakeBack(bits & 0x5555555555555555, 0xAAAAAAAAAAAAAAAA & m);
  }

  /** A coordinate moved modulo 2^32, put into the hash through the mask. */
  lemma PutY(moved: bv64, bits: bv64, step: bv8)
    requires IsStep(step)
    ensures Latitude(WithY(And(moved, 0x5555555555555555 & Ones(2 * step)), bits)) == And(Latitude(moved), Top(step))
    ensures Longitude(WithY(And(moved, 0x5555555555555555 & Ones(2 * step)), bits)) == Longitude(bits)
  {
    hide Longitude, Latitude, Top, Ones, EvenMask, OddMask, IsStep, AllOnes, WithY, And;
    MasksAre(step);
    CutY(moved, Ones(2 * step), bits);
  }

  /** Each move adds or takes one, modulo 2^step, from one coordinate, and leaves the other alone. */
  lemma RaiseX(bits: bv64, step: bv8)
    requires IsStep(step)
    ensures Longitude(RaisedX(bits, step)) == UpTo(Longitude(bits), Top(step)) && Latitude(RaisedX(bits, step)) == Latitude(bits)
  {
    hide Longitude, Latitude, Top, Ones, EvenMask, OddMask, IsStep, AllOnes, UpTo, DownTo, WithX, And, RaisedXBy;
    MasksAre(step);
    RaisedXIs(bits, Ones(2 * step));
    PutX((bits | 0x5555555555555555) + 1, bits, step);
    CarryX(bits);
    CutMove(Longitude(bits), step);
  }

  lemma LowerX(bits: bv64, step: bv8)
    requires IsStep(step)
    ensures Longitude(LoweredX(bits, step)) == DownTo(Longitude(bits), Top(step)) && Latitude(LoweredX(bits, step)) == Latitude(bits)
  {
    hide Longitude, Latitude, Top, Ones, EvenMask, OddMask, IsStep, AllOnes, UpTo, DownTo, WithX, And, LoweredXBy;
    MasksAre(step);
    LoweredXIs(bits, Ones(2 * step));
    PutX((bits & 0xAAAAAAAAAAAAAAAA) - 1, bits, step);
    BorrowX(bits);
    CutMove(Longitude(bits), step);
  }

  lemma RaiseY(bits: bv64, step: bv8)
    requires IsStep(step)
    ensures Latitude(RaisedY(bits, step)) == UpTo(Latitude(bits), Top(step)) && Longitude(RaisedY(bits, step)) == Longitude(bits)
  {
    hide Longitude, Latitude, Top, Ones, EvenMask, OddMask, IsStep, AllOnes, UpTo, DownTo, WithY, And, RaisedYBy;
    MasksAre(step);
    RaisedYIs(bits, Ones(2 * step));
    PutY((bits | 0xAAAAAAAAAAAAAAAA) + 1, bits, step);
    CarryY(bits);
    CutMove(Latitude(bits), step);
  }

  lemma LowerY(bits: bv64, step: bv8)
    requires IsStep(step)
    ensures Latitude(LoweredY(bits, step)) == DownTo(Latitude(bits), Top(step)) && Longitude(LoweredY(bits, step)) == Longitude(bits)
  {
    hide Longitude, Latitude, Top, Ones, EvenMask, OddMask, IsStep, AllOnes, UpTo, DownTo, WithY, And, LoweredYBy;
    MasksAre(step);
    LoweredYIs(bits, Ones(2 * step));
    PutY((bits & 0x5555555555555555) - 1, bits, step);
    BorrowY(bits);
    CutMove(Latitude(bits), step);
  }

  // ---------------------------------------------------------------- moves undone

  /** The low bits of a sum or difference depend on the low bits only. */
  lemma LowSum(a: bv64, b: bv64, t: bv64)
    requires t & (t + 1) == 0 && a & t == b & t
    ensures (a + 1) & t == (b + 1) & t
  {
  }

  lemma LowDifference(a: bv64, b: bv64, t: bv64)
    requires t & (t + 1) == 0 && a & t == b & t
    ensures (a - 1) & t == (b - 1) & t
  {
  }

  lemma LowDown(a: bv64, b: bv64, t: bv64)
    requires AllOnes(t) && And(a, t) == And(b, t)
    ensures DownTo(a, t) == DownTo(b, t) && UpTo(a, t) == UpTo(b, t)
  {
    LowSum(a, b, t);
    LowDifference(a, b, t);
  }

  lemma BackAgain(c: bv64, t: bv64)
    ensures DownTo(c + 1, t) == And(c, t) && UpTo(c - 1, t) == And(c, t)
  {
  }

  lemma UpThenDown(c: bv64, t: bv64)
    requires AllOnes(t) && Within(c, t)
    ensures DownTo(UpTo(c, t), t) == c
  {
    hide AllOnes, And, DownTo;
    AndSelf(t);
    AndAnd(c + 1, t, t);
    LowDown(And(c + 1, t), c + 1, t);
    BackAgain(c, t);
  }

  lemma DownThenUp(c: bv64, t: bv64)
    requires AllOnes(t) && Within(c, t)
    ensures UpTo(DownTo(c, t), t) == c
  {
    hide AllOnes, And, UpTo;
    AndSelf(t);
    AndAnd(c - 1, t, t);
    LowDown(And(c - 1, t), c - 1, t);
    BackAgain(c, t);
  }

  lemma StepWithin(c: bv64, t: bv64)
    ensures Within(UpTo(c, t), t) && Within(DownTo(c, t), t)
  {
    AndSelf(t);
    hide And;
    AndAnd(c + 1, t, t);
    AndAnd(c - 1, t, t);
  }

  lemma AndSelf(t: bv64)
    ensures And(t, t) == t
  {
  }

  lemma MovedStays(c: bv64, d: int, step: bv8)
    requires IsStep(step) && InRange(c, step)
    ensures InRange(Moved(c, d, step), step)
  {
    hide Top, UpTo, DownTo, Within, IsStep;
    StepWithin(c, Top(step));
  }

  // ---------------------------------------------------------------- coordinates as numbers

  function Number(c: bv64): nat { c as nat }

  function Count(k: bv8): nat { k as nat }

  function Up(c: bv64): bv64 { c + 1 }

  predicate Fits(c: bv64) { c >> 63 == 0 }

  function Twice(c: bv64): bv64 { c << 1 }

  function TwiceAndOne(c: bv64): bv64 { (c << 1) | 1 }

  lemma TwiceNumber(c: bv64)
    requires Fits(c)
    ensures Number(Twice(c)) == 2 * Number(c)
  {
  }

  lemma TwiceAndOneNumber(c: bv64)
    requires Fits(c)
    ensures Number(TwiceAndOne(c)) == 2 * Number(c) + 1
  {
  }

  lemma FromHalf(c: bv64)
    ensures Fits(Half(c)) && c == if Odd(c) then TwiceAndOne(Half(c)) else Twice(Half(c))
  {
  }

  /** A number is twice its half, and its low bit. */
  lemma Halved(c: bv64)
    ensures Number(c) == 2 * Number(Half(c)) + if Odd(c) then 1 else 0
  {
    hide *;
    FromHalf(c);
    if Odd(c) { TwiceAndOneNumber(Half(c)); } else { TwiceNumber(Half(c)); }
  }

  lemma UpHalf(c: bv64)
    ensures Odd(Up(c)) <==> !Odd(c)
    ensures Half(Up(c)) == if Odd(c) && Up(c) != 0 then Up(Half(c)) else if Odd(c) then 0 else Half(c)
    ensures Up(Half(c)) != 0
  {
  }

  lemma {:induction false} Successor(c: bv64)
    requires Up(c) != 0
    ensures Number(Up(c)) == Number(c) + 1
    decreases Number(c)
  {
    hide *;
    UpHalf(c);
    Halved(c);
    Halved(Up(c));
    if Odd(c) { Successor(Half(c)); }
  }

  lemma CountLess(k: bv8)
    requires IsCount(k) && k != 1
    ensures IsCount(k - 1) && Count(k) == Count(k - 1) + 1
  {
  }

  lemma OnesHalf(k: bv8)
    requires IsCount(k) && k != 1
    ensures IsCount(k - 1) && Half(Ones(k)) == Ones(k - 1)
  {
  }

  lemma OnesOdd(k: bv8)
    requires IsCount(k)
    ensures Odd(Ones(k))
  {
  }

  lemma AndHalf(c: bv64, t: bv64)
    ensures Half(And(c, t)) == And(Half(c), Half(t))
    ensures Odd(And(c, t)) <==> Odd(c) && Odd(t)
  {
  }

  lemma SameParts(c: bv64, d: bv64)
    requires Half(c) == Half(d) && (Odd(c) <==> Odd(d))
    ensures c == d
  {
  }

  lemma WithinHalf(c: bv64, t: bv64)
    requires Odd(t)
    ensures Within(c, t) <==> Within(Half(c), Half(t))
  {
    hide And, Half, Odd;
    AndHalf(c, t);
    if Within(Half(c), Half(t)) { SameParts(And(c, t), c); }
  }

  lemma OneBit(c: bv64)
    ensures IsCount(1) && Count(1) == 1 && Half(Ones(1)) == 0 && !Odd(0)
    ensures Within(c, 0) <==> c == 0
  {
  }

  lemma NumberOfZero(c: bv64)
    ensures Number(c) == 0 <==> c == 0
  {
  }

  /** Having no bit above the first k is being a number below 2^k; the mask is the greatest. */
  lemma {:induction false} WithinNumber(c: bv64, k: bv8)
    requires IsCount(k)
    ensures Within(c, Ones(k)) <==> Number(c) < Pow2(Count(k))
    ensures Number(Ones(k)) == Pow2(Count(k)) - 1
    decreases Count(k)
  {
    hide Number, Count, Half, Odd, Ones, IsCount, Within;
    Halved(c);
    Halved(Ones(k));
    OnesOdd(k);
    WithinHalf(c, Ones(k));
    if k == 1 {
      OneBit(Half(c));
      NumberOfZero(Half(c));
      NumberOfZero(0);
      assert Pow2(1) == 2 * Pow2(0);
    } else {
      CountLess(k);
      OnesHalf(k);
      WithinNumber(Half(c), k - 1);
    }
  }

  lemma StepIsCount(step: bv8)
    requires IsStep(step)
    ensures IsCount(step) && IsCount(2 * step) && Count(2 * step) == 2 * Count(step)
  {
  }

  /** A coordinate in range is a number below 2^step. */
  lemma RangeNumber(c: bv64, step: bv8)
    requires IsStep(step)
    ensures InRange(c, step) <==> Number(c) < Pow2(Count(step))
    ensures Number(Top(step)) == Pow2(Count(step)) - 1
  {
    hide Number, Count, Ones, Within, IsCount, IsStep, Pow2;
    StepIsCount(step);
    WithinNumber(c, step);
  }

  lemma EvenAnd(a: bv64, b: bv64)
    ensures EvenBits(And(a, b)) == And(EvenBits(a), EvenBits(b))
  {
  }

  lemma AndParts(bits: bv64, m: bv64)
    ensures Latitude(And(bits, m)) == And(Latitude(bits), Latitude(m))
    ensures Longitude(And(bits, m)) == And(Longitude(bits), Longitude(m))
  {
    hide EvenBits, Longitude, Half, And, Odd;
    EvenAnd(bits, m);
    EvenAnd(Half(bits), Half(m));
    AndHalf(bits, m);
    LongitudeIs(bits);
    LongitudeIs(m);
    LongitudeIs(And(bits, m));
  }

  lemma PartsWithin(bits: bv64, m: bv64)
    ensures Within(bits, m) <==> Within(Latitude(bits), Latitude(m)) && Within(Longitude(bits), Longitude(m))
  {
    hide And, Latitude, Longitude;
    AndParts(bits, m);
    if Within(Latitude(bits), Latitude(m)) && Within(Longitude(bits), Longitude(m)) { SameCoordinates(And(bits, m), bits); }
  }

  /** A hash is in the grid if and only if it is a number below 2^(2 * step). */
  lemma GridNumber(bits: bv64, step: bv8)
    requires IsStep(step)
    ensures InGrid(bits, step) <==> Number(bits) < Pow2(2 * Count(step))
  {
    hide Number, Count, Ones, Within, IsCount, IsStep, Pow2, Latitude, Longitude, Top, EvenMask, OddMask;
    StepIsCount(step);
    MasksAre(step);
    PartsWithin(bits, Ones(2 * step));
    WithinNumber(bits, 2 * step);
  }

  lemma NotLast(c: bv64, t: bv64)
    requires Within(c, t) && c != t
    ensures Up(c) != 0
  {
  }

  /** Below the top a coordinate can be raised within its range. */
  lemma {:induction false} UpWithin(c: bv64, k: bv8)
    requires IsCount(k) && Within(c, Ones(k)) && c != Ones(k)
    ensures Within(Up(c), Ones(k)) && Up(c) != 0
    decreases Count(k)
  {
    hide *;
    NotLast(c, Ones(k));
    UpHalf(c);
    OnesOdd(k);
    WithinHalf(c, Ones(k));
    WithinHalf(Up(c), Ones(k));
    OneBit(Half(c));
    if Odd(c) {
      if k == 1 {
        SameParts(c, Ones(1));
      } else {
        CountLess(k);
        OnesHalf(k);
        if Half(c) == Ones(k - 1) { SameParts(c, Ones(k)); }
        UpWithin(Half(c), k - 1);
      }
    }
  }

  lemma UpToIs(c: bv64, t: bv64)
    ensures Within(Up(c), t) ==> UpTo(c, t) == Up(c)
    ensures AllOnes(t) ==> UpTo(t, t) == 0
    ensures DownTo(0, t) == t
  {
  }

  lemma MovedUp(c: bv64, step: bv8)
    requires IsStep(step) && InRange(c, step)
    ensures UpTo(c, Top(step)) == if c == Top(step) then 0 else Up(c)
    ensures c != Top(step) ==> Up(c) != 0
  {
    hide Ones, IsStep, IsCount, Within, UpTo, DownTo, Up, AllOnes, EvenMask, OddMask, Longitude, Latitude;
    MasksAre(step);
    StepIsCount(step);
    UpToIs(c, Top(step));
    if c != Top(step) { UpWithin(c, step); }
  }

  lemma MovedDown(c: bv64, step: bv8)
    requires IsStep(step) && InRange(c, step)
    ensures if c == 0 then DownTo(c, Top(step)) == Top(step) else Up(DownTo(c, Top(step))) == c
  {
    hide Top, Ones, IsStep, IsCount, Within, UpTo, DownTo, Up, AllOnes, EvenMask, OddMask, Longitude, Latitude;
    MasksAre(step);
    UpToIs(c, Top(step));
    DownThenUp(c, Top(step));
    StepWithin(c, Top(step));
    MovedUp(DownTo(c, Top(step)), step);
  }

  lemma Remainders(x: int, p: nat)
    requires -1 <= x <= p && p > 0
    ensures x % p == if x == -1 then p - 1 else if x == p then 0 else x
  {
  }

  /** Moves are the coordinate plus or minus one, modulo 2^step. */
  lemma MovedNumber(c: bv64, step: bv8)
    requires IsStep(step) && InRange(c, step)
    ensures Number(Moved(c, 1, step)) == (Number(c) + 1) % Pow2(Count(step))
    ensures Number(Moved(c, -1, step)) == (Number(c) - 1) % Pow2(Count(step))
  {
    hide Number, Count, Pow2, Top, IsStep, Within, UpTo, DownTo, Up, InRange;
    RangeNumber(c, step);
    NumberOfZero(c);
    NumberOfZero(0);
    var p, up, down := Pow2(Count(step)), UpTo(c, Top(step)), DownTo(c, Top(step));
    Remainders(Number(c) + 1, p);
    Remainders(Number(c) - 1, p);
    MovedUp(c, step);
    MovedDown(c, step);
    MovedStays(c, 1, step);
    RangeNumber(up, step);
    NumberOfZero(up);
    if c != Top(step) { Successor(c); }
    if c != 0 { Successor(down); }
  }

  /** A hash is its two coordinates. */
  lemma SameCoordinates(a: bv64, b: bv64)
    requires Latitude(a) == Latitude(b) && Longitude(a) == Longitude(b)
    ensures a == b
  {
  }

  // ---------------------------------------------------------------- hashes in place

  class GeoHashBits {
    var bits: bv64
    var step: bv8

    ghost predicate Valid()
      reads this
    {
      IsStep(step) && InGrid(bits, step)
    }

    constructor Copy(bits: bv64, step: bv8)
      ensures this.bits == bits && this.step == step
    {
      this.bits, this.step := bits, step;
    }

    /** geohash_move_x */
    method MoveX(d: int)
      requires Valid()
      modifies this`bits
      ensures Valid() && Longitude(bits) == Moved(Longitude(old(bits)), d, step) && Latitude(bits) == Latitude(old(bits))
    {
      hide IsStep, InRange, Longitude, Latitude, UpTo, DownTo, Top, RaisedX, LoweredX;
      MovedStays(Longitude(bits), d, step);
      if d == 0 { return; }
      if d > 0 {
        RaiseX(bits, step);
        bits := RaisedX(bits, step);
      } else {
        LowerX(bits, step);
        bits := LoweredX(bits, step);
      }
    }

    /** geohash_move_y */
    method MoveY(d: int)
      requires Valid()
      modifies this`bits
      ensures Valid() && Latitude(bits) == Moved(Latitude(old(bits)), d, step) && Longitude(bits) == Longitude(old(bits))
    {
      hide IsStep, InRange, Longitude, Latitude, UpTo, DownTo, Top, RaisedY, LoweredY;
      MovedStays(Latitude(bits), d, step);
      if d == 0 { return; }
      if d > 0 {
        RaiseY(bits, step);
        bits := RaisedY(bits, step);
      } else {
        LowerY(bits, step);
        bits := LoweredY(bits, step);
      }
    }
  }

  /** Opposite moves cancel. */
  lemma MovesCancelX(bits: bv64, step: bv8)
    requires IsStep(step) && InGrid(bits, step)
    ensures LoweredX(RaisedX(bits, step), step) == bits && RaisedX(LoweredX(bits, step), step) == bits
  {
    hide IsStep, Within, Longitude, Latitude, UpTo, DownTo, Top, Ones, AllOnes, EvenMask, OddMask, RaisedX, LoweredX;
    MasksAre(step);
    var up, down := RaisedX(bits, step), LoweredX(bits, step);
    RaiseX(bits, step);
    LowerX(up, step);
    UpThenDown(Longitude(bits), Top(step));
    SameCoordinates(LoweredX(up, step), bits);
    LowerX(bits, step);
    RaiseX(down, step);
    DownThenUp(Longitude(bits), Top(step));
    SameCoordinates(RaisedX(down, step), bits);
  }

  lemma MovesCancelY(bits: bv64, step: bv8)
    requires IsStep(step) && InGrid(bits, step)
    ensures LoweredY(RaisedY(bits, step), step) == bits && RaisedY(LoweredY(bits, step), step) == bits
  {
    hide IsStep, Within, Longitude, Latitude, UpTo, DownTo, Top, Ones, AllOnes, EvenMask, OddMask, RaisedY, LoweredY;
    MasksAre(step);
    var up, down := RaisedY(bits, step), LoweredY(bits, step);
    RaiseY(bits, step);
    LowerY(up, step);
    UpThenDown(Latitude(bits), Top(step));
    SameCoordinates(LoweredY(up, step), bits);
    LowerY(bits, step);
    RaiseY(down, step);
    DownThenUp(Latitude(bits), Top(step));
    SameCoordinates(RaisedY(down, step), bits);
  }

  /** The cell dx east and dy north of a hash. */
  ghost predicate IsAt(cell: bv64, bits: bv64, dx: int, dy: int, step: bv8)
    requires IsStep(step)
  {
    Longitude(cell) == Moved(Longitude(bits), dx, step) && Latitude(cell) == Moved(Latitude(bits), dy, step)
  }

  method NeighborAt(hash: GeoHashBits, dx: int, dy: int) returns (n: GeoHashBits)
    requires hash.Valid()
    ensures fresh(n) && n.Valid() && n.step == hash.step && IsAt(n.bits, hash.bits, dx, dy, hash.step)
  {
    hide IsStep, InRange, Longitude, Latitude, Moved;
    n := new GeoHashBits.Copy(hash.bits, hash.step);
    n.MoveX(dx);
    n.MoveY(dy);
  }

  /** geohashNeighbors: each of the eight neighbours lies where its name says; the hash itself stays. */
  method GeohashNeighbors(hash: GeoHashBits)
    returns (north: GeoHashBits, east: GeoHashBits, west: GeoHashBits, south: GeoHashBits,
             northEast: GeoHashBits, southEast: GeoHashBits, northWest: GeoHashBits, southWest: GeoHashBits)
    requires hash.Valid()
    ensures IsAt(east.bits, hash.bits, 1, 0, hash.step) && IsAt(west.bits, hash.bits, -1, 0, hash.step)
    ensures IsAt(north.bits, hash.bits, 0, 1, hash.step) && IsAt(south.bits, hash.bits, 0, -1, hash.step)
    ensures IsAt(northEast.bits, hash.bits, 1, 1, hash.step) && IsAt(southEast.bits, hash.bits, 1, -1, hash.step)
    ensures IsAt(northWest.bits, hash.bits, -1, 1, hash.step) && IsAt(southWest.bits, hash.bits, -1, -1, hash.step)
    ensures forall n :: n in {north, east, west, south, northEast, southEast, northWest, southWest} ==>
              fresh(n) && n.Valid() && n.step == hash.step
  {
    hide IsAt, IsStep, InRange, Longitude, Latitude;
    east := NeighborAt(hash, 1, 0);
    west := NeighborAt(hash, -1, 0);
    south := NeighborAt(hash, 0, -1);
    north := NeighborAt(hash, 0, 1);
    northWest := NeighborAt(hash, -1, 1);
    northEast := NeighborAt(hash, 1, 1);
    southEast := NeighborAt(hash, 1, -1);
    southWest := NeighborAt(hash, -1, -1);
  }

  lemma SidesOf(c: bv64, t: bv64)
    requires t & 1 == 1
    ensures UpTo(c, t) != c && DownTo(c, t) != c
    ensures t & 2 == 2 ==> UpTo(c, t) != DownTo(c, t)
    ensures t == 1 ==> UpTo(c, t) == DownTo(c, t)
  {
  }

  lemma TopBits(step: bv8)
    requires IsStep(step)
    ensures Top(step) & 1 == 1 && (step >= 2 ==> Top(step) & 2 == 2) && (step < 2 ==> Top(step) == 1)
  {
  }

  /** On a grid of at least four columns the cells to both sides differ, from each other and from the cell; with two they are one. */
  lemma SidesDiffer(c: bv64, step: bv8)
    requires IsStep(step)
    ensures Moved(c, 1, step) != c && Moved(c, -1, step) != c
    ensures Moved(c, 1, step) != Moved(c, -1, step) <==> step >= 2
  {
    hide Top, UpTo, DownTo;
    TopBits(step);
    SidesOf(c, Top(step));
  }
}
