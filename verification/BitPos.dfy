/** The first bit of a given value in a string (bitops.c, redisBitpos), searched a 64-bit word at a time. */
module BitPos {
  import opened Basics
  import opened ByteStrings
  import opened BitField

  /** A byte, or word, that holds no bit of the value sought. */
  function SkipByte(bit: nat): Byte { if bit == 1 then 0 else 255 }

  function SkipWord(bit: nat): nat { if bit == 1 then 0 else TWO_64 - 1 }

  /** pos is the first bit equal to the one sought; failing that, -1 for a one and the length in bits for a zero. */
  ghost predicate IsFirst(s: Bytes, bit: nat, pos: int)
  {
    || (0 <= pos < 8 * |s| && BitAt(s, pos) == bit && forall i: nat :: i < pos ==> BitAt(s, i) != bit)
    || ((forall i: nat :: i < 8 * |s| ==> BitAt(s, i) != bit) && pos == if bit == 1 then -1 else 8 * |s|)
  }

  // ---------------------------------------------------------------- bytes and words that can be skipped

  lemma {:induction false} ZeroBits(k: nat)
    ensures Bit(0, k) == 0
  {
    if k > 0 { ZeroBits(k - 1); }
  }

  lemma OnesByte(k: nat)
    requires k < 8
    ensures Bit(255, k) == 1
  {
    assert Bit(127, 0) == 1 && Bit(63, 0) == 1 && Bit(31, 0) == 1 && Bit(15, 0) == 1 && Bit(7, 0) == 1 && Bit(3, 0) == 1 && Bit(1, 0) == 1;
    if k == 0 {} else if k == 1 { assert Bit(255, 1) == Bit(127, 0); }
    else if k == 2 { assert Bit(255, 2) == Bit(127, 1) == Bit(63, 0); }
    else if k == 3 { assert Bit(255, 3) == Bit(127, 2) == Bit(63, 1) == Bit(31, 0); }
    else if k == 4 { assert Bit(255, 4) == Bit(127, 3) == Bit(63, 2) == Bit(31, 1) == Bit(15, 0); }
    else if k == 5 { assert Bit(255, 5) == Bit(127, 4) == Bit(63, 3) == Bit(31, 2) == Bit(15, 1) == Bit(7, 0); }
    else if k == 6 { assert Bit(255, 6) == Bit(127, 5) == Bit(63, 4) == Bit(31, 3) == Bit(15, 2) == Bit(7, 1) == Bit(3, 0); }
    else { assert Bit(255, 7) == Bit(127, 6) == Bit(63, 5) == Bit(31, 4) == Bit(15, 3) == Bit(7, 2) == Bit(3, 1) == Bit(1, 0); }
  }

  lemma SkippedBit(s: Bytes, bit: nat, i: nat)
    requires bit < 2 && i / 8 < |s| && s[i / 8] == SkipByte(bit)
    ensures BitAt(s, i) != bit
  {
    ZeroBits(7 - i % 8);
    OnesByte(7 - i % 8);
    hide Bit;
  }

  ghost predicate Skippable(s: Bytes, bit: nat, n: nat)
  {
    n <= |s| && forall i :: 0 <= i < n ==> s[i] == SkipByte(bit)
  }

  /** Eight bytes as the machine loads them, least significant first. */
  function Loaded(s: Bytes, i: nat): nat
    requires i + 8 <= |s|
  {
    var b := seq(8, j requires 0 <= j < 8 => s[i + j] as int);
    b[0] + 0x100 * b[1] + 0x1_0000 * b[2] + 0x100_0000 * b[3] + 0x1_0000_0000 * b[4]
    + 0x100_0000_0000 * b[5] + 0x1_0000_0000_0000 * b[6] + 0x100_0000_0000_0000 * b[7]
  }

  lemma LoadedSkip(s: Bytes, i: nat, bit: nat)
    requires i + 8 <= |s| && bit < 2
    ensures Loaded(s, i) == SkipWord(bit) <==> forall j :: i <= j < i + 8 ==> s[j] == SkipByte(bit)
  {
    assert (forall j :: i <= j < i + 8 ==> s[j] == SkipByte(bit)) <==>
           (s[i] == SkipByte(bit) && s[i + 1] == SkipByte(bit) && s[i + 2] == SkipByte(bit) && s[i + 3] == SkipByte(bit)
            && s[i + 4] == SkipByte(bit) && s[i + 5] == SkipByte(bit) && s[i + 6] == SkipByte(bit) && s[i + 7] == SkipByte(bit));
  }

  /** Skip the bytes before the first aligned address. */
  method SkipUnaligned(s: Bytes, bit: nat, address: nat) returns (i: nat, found: bool)
    requires bit < 2
    ensures Skippable(s, bit, i)
    ensures found ==> i < |s| && s[i] != SkipByte(bit)
    ensures !found ==> i == |s| || (address + i) % 8 == 0
  {
    i, found := 0, false;
    while (address + i) % 8 != 0 && i < |s|
      invariant Skippable(s, bit, i)
      decreases |s| - i
    {
      if s[i] != SkipByte(bit) { return i, true; }
      i := i + 1;
    }
  }

  /** Skip whole words. */
  method SkipWords(s: Bytes, bit: nat, from: nat) returns (i: nat)
    requires bit < 2 && Skippable(s, bit, from)
    ensures Skippable(s, bit, i)
    ensures i + 8 <= |s| ==> exists j :: i <= j < i + 8 && s[j] != SkipByte(bit)
  {
    i := from;
    while |s| - i >= 8
      invariant Skippable(s, bit, i)
      decreases |s| - i
    {
      LoadedSkip(s, i, bit);
      hide Loaded;
      if Loaded(s, i) != SkipWord(bit) { break; }
      i := i + 8;
    }
  }

  // ---------------------------------------------------------------- the last word

  /** The first n of eight bytes from i on, most significant first; past the end there are zeros. */
  function Tail(s: Bytes, i: nat, n: nat): nat
  {
    if n == 0 then 0 else 256 * Tail(s, i, n - 1) + if i + n - 1 < |s| then s[i + n - 1] else 0
  }

  lemma {:induction false} BitOfShift(w: nat, b: nat, m: nat, k: nat)
    requires b < Pow2(m)
    ensures Bit(Pow2(m) * w + b, k) == if k < m then Bit(b, k) else Bit(w, k - m)
    decreases m
  {
    if m > 0 {
      var p := Pow2(m - 1);
      var x := p * w + b / 2;
      assert Pow2(m) * w + b == 2 * x + b % 2 by { assert 2 * p * w == 2 * (p * w); }
      assert (2 * x + b % 2) / 2 == x && (2 * x + b % 2) % 2 == b % 2;
      if k > 0 { BitOfShift(w, b / 2, m - 1, k - 1); }
    }
  }

  /** Bit t of the loaded word, from the top, is bit t of the string from i on; past the end it is zero. */
  lemma {:induction false} TailBit(s: Bytes, i: nat, n: nat, t: nat)
    requires t < 8 * n
    ensures Bit(Tail(s, i, n), 8 * n - 1 - t) == if i + t / 8 < |s| then BitAt(s, 8 * i + t) else 0
  {
    var b: Byte := if i + n - 1 < |s| then s[i + n - 1] else 0;
    assert Pow2(8) == 256;
    BitOfShift(Tail(s, i, n - 1), b, 8, 8 * n - 1 - t);
    hide Pow2;
    if t / 8 == n - 1 {
      assert 8 * n - 1 - t == 7 - t % 8 && (8 * i + t) / 8 == i + n - 1 && (8 * i + t) % 8 == t % 8;
      ZeroBits(7 - t % 8);
      hide Bit;
    } else {
      assert 8 * n - 1 - t - 8 == 8 * (n - 1) - 1 - t && t < 8 * (n - 1);
      TailBit(s, i, n - 1, t);
      hide Bit;
    }
  }

  lemma {:induction false} TailBound(s: Bytes, i: nat, n: nat)
    ensures Tail(s, i, n) < Pow2(8 * n)
  {
    if n > 0 {
      TailBound(s, i, n - 1);
      Pow2Add(8, 8 * (n - 1));
      assert Pow2(8) == 256;
      assert 8 + 8 * (n - 1) == 8 * n;
      hide Pow2;
    }
  }

  /** A number whose n bits are all b is 0 or 2^n - 1. */
  lemma {:induction false} UniformBits(w: nat, n: nat, b: nat)
    requires w < Pow2(n) && b < 2 && forall k: nat :: k < n ==> Bit(w, k) == b
    ensures w == if b == 0 then 0 else Pow2(n) - 1
  {
    if n > 0 {
      forall k: nat | k < n - 1 ensures Bit(w / 2, k) == b
      {
        assert Bit(w, k + 1) == Bit(w / 2, k);
      }
      UniformBits(w / 2, n - 1, b);
      assert Bit(w, 0) == w % 2;
    }
  }

  /** Bit t of a word, from the top. */
  function TopBit(word: nat, t: nat): (b: nat)
    requires t < 64
    ensures b < 2
  {
    Bit(word, 63 - t)
  }

  /** Scan a word bit by bit from the top; some bit is found, so the end of the loop is not reached. */
  method ScanWord(word: nat, bit: nat) returns (t: nat)
    requires bit < 2 && word < TWO_64 && word != SkipWord(bit)
    ensures t < 64 && TopBit(word, t) == bit && forall u: nat :: u < t ==> TopBit(word, u) != bit
  {
    hide TopBit, SkipWord;
    t := 0;
    while t < 64
      invariant t <= 64 && forall u: nat :: u < t ==> TopBit(word, u) != bit
    {
      if TopBit(word, t) == bit { return; }
      t := t + 1;
    }
    NoneFound(word, bit);
    assert false; // serverPanic
  }

  lemma NoneFound(word: nat, bit: nat)
    requires bit < 2 && word < TWO_64 && forall u: nat :: u < 64 ==> TopBit(word, u) != bit
    ensures word == SkipWord(bit)
  {
    hide Bit, Pow2;
    Pow2Of64();
    forall k: nat | k < 64 ensures Bit(word, k) == 1 - bit
    {
      assert TopBit(word, 63 - k) != bit;
    }
    UniformBits(word, 64, 1 - bit);
  }

  // ---------------------------------------------------------------- the whole search

  /** Load up to eight bytes, padded with zeros on the right. */
  method LoadTail(s: Bytes, i: nat) returns (word: nat)
    ensures word == Tail(s, i, 8) < TWO_64
  {
    hide Pow2;
    word := 0;
    var j := 0;
    while j < 8
      invariant 0 <= j <= 8 && word == Tail(s, i, j)
    {
      TailFits(s, i, j + 1);
      word := word * 256 % TWO_64;
      if i + j < |s| { word := word + s[i + j]; }
      j := j + 1;
    }
    TailFits(s, i, 8);
  }

  lemma TailFits(s: Bytes, i: nat, n: nat)
    requires n <= 8
    ensures Tail(s, i, n) < TWO_64
    ensures n > 0 ==> 256 * Tail(s, i, n - 1) < TWO_64
  {
    TailBound(s, i, n);
    Pow2Of64();
    Pow2Monotone(8 * n, 64);
    hide Pow2;
  }

  /** The bits of the last word are the bits of the string from byte i on, and then zeros. */
  lemma TailTop(s: Bytes, i: nat, t: nat)
    requires t < 64
    ensures TopBit(Tail(s, i, 8), t) == if i + t / 8 < |s| then BitAt(s, 8 * i + t) else 0
  {
    TailBit(s, i, 8, t);
    hide Bit, Tail, BitAt;
  }

  ghost predicate Reached(s: Bytes, bit: nat, i: nat)
  {
    && Skippable(s, bit, i)
    && (|s| - i < 8 || exists j :: i <= j < i + 8 && s[j] != SkipByte(bit))
  }

  /** A byte that cannot be skipped holds a bit sought. */
  lemma HasBit(s: Bytes, bit: nat, j: nat) returns (b: nat)
    requires bit < 2 && j < |s| && s[j] != SkipByte(bit)
    ensures 8 * j <= b < 8 * j + 8 && BitAt(s, b) == bit
  {
    assert Pow2(8) == 256;
    hide Bit, Pow2;
    var x := s[j];
    if forall k: nat :: k < 8 ==> Bit(x, k) == 1 - bit {
      UniformBits(x, 8, 1 - bit);
    }
    var k: nat :| k < 8 && Bit(x, k) != 1 - bit;
    b := 8 * j + 7 - k;
    assert b / 8 == j && 7 - b % 8 == k;
  }

  /** A word with a bit sought is not one to skip. */
  lemma NotSkipped(word: nat, bit: nat, t: nat)
    requires bit < 2 && t < 64 && TopBit(word, t) == bit
    ensures word != SkipWord(bit)
  {
    SkipWordBits(bit);
    hide TopBit;
  }

  /** The last word is worth scanning, unless a one is sought and there is none. */
  lemma WorthScanning(s: Bytes, bit: nat, i: nat)
    requires bit < 2 && Reached(s, bit, i) && Tail(s, i, 8) == SkipWord(bit)
    ensures bit == 1 && forall b: nat :: b < 8 * |s| ==> BitAt(s, b) != bit
  {
    hide Tail, TopBit, BitAt, SkipWord;
    if |s| - i >= 8 {
      var j: nat :| i <= j < i + 8 && s[j] != SkipByte(bit);
      var b := HasBit(s, bit, j);
      TailTop(s, i, b - 8 * i);
      NotSkipped(Tail(s, i, 8), bit, b - 8 * i);
    } else {
      TailTop(s, i, 63);
      if bit == 0 { NotSkipped(Tail(s, i, 8), bit, 63); }
      SkipWordBits(bit);
      forall b: nat | b < 8 * |s| ensures BitAt(s, b) != bit
      {
        if b < 8 * i { SkippedBit(s, bit, b); } else { TailTop(s, i, b - 8 * i); }
      }
    }
  }

  lemma SkipWordBits(bit: nat)
    requires bit < 2
    ensures forall t: nat :: t < 64 ==> TopBit(SkipWord(bit), t) != bit
  {
    Pow2Of64();
    forall t: nat | t < 64 ensures TopBit(SkipWord(bit), t) != bit
    {
      ZeroBits(63 - t);
      AllOnes(64, 63 - t);
    }
  }

  lemma {:induction false} AllOnes(n: nat, k: nat)
    requires k < n
    ensures Bit(Pow2(n) - 1, k) == 1
  {
    if k > 0 {
      AllOnes(n - 1, k - 1);
      assert (Pow2(n) - 1) / 2 == Pow2(n - 1) - 1;
    }
  }

  /** The first bit found in the last word is the first in the string; past the end of the string it is the end. */
  lemma FirstInTail(s: Bytes, bit: nat, i: nat, t: nat)
    requires bit < 2 && Reached(s, bit, i) && t < 64 && TopBit(Tail(s, i, 8), t) == bit
    requires forall u: nat :: u < t ==> TopBit(Tail(s, i, 8), u) != bit
    ensures IsFirst(s, bit, 8 * i + t)
  {
    hide Tail, TopBit, BitAt, SkipWord;
    forall b: nat | b < 8 * |s| && b < 8 * i + t ensures BitAt(s, b) != bit
    {
      if b < 8 * i { SkippedBit(s, bit, b); } else { TailTop(s, i, b - 8 * i); }
    }
    TailTop(s, i, t);
    if 8 * i + t > 8 * |s| {
      TailTop(s, i, 8 * |s| - 8 * i);
    }
  }

  /** redisBitpos, for a string that starts at the given address. */
  method Bitpos(s: Bytes, bit: nat, address: nat) returns (pos: int)
    requires bit < 2
    ensures IsFirst(s, bit, pos)
  {
    hide Tail, TopBit, BitAt, SkipWord;
    var i, found := SkipUnaligned(s, bit, address);
    if !found { i := SkipWords(s, bit, i); }
    assert Reached(s, bit, i);
    var word := LoadTail(s, i);
    if word == SkipWord(bit) { WorthScanning(s, bit, i); }
    if bit == 1 && word == 0 {
      SkipOne();
      return -1;
    }
    SkipOne();
    var t := ScanWord(word, bit);
    FirstInTail(s, bit, i, t);
    pos := 8 * i + t;
  }

  lemma SkipOne()
    ensures SkipWord(1) == 0
  {
  }
}
