/**
 The slot bitmaps of cluster.c: byte pos/8, bit pos&7.
 */
module ClusterBitmap {
  import opened Basics

  type Bitmap = seq<bv8>

  /** A bitmap with one bit for every slot. */
  predicate Whole(b: Bitmap) { |b| == CLUSTER_SLOTS / 8 }

  function Mask(k: nat): bv8
    requires k < 8
  {
    match k
    case 0 => 1
    case 1 => 2
    case 2 => 4
    case 3 => 8
    case 4 => 16
    case 5 => 32
    case 6 => 64
    case _ => 128
  }

  predicate ByteHas(x: bv8, k: nat)
    requires k < 8
  {
    x & Mask(k) != 0
  }

  function ByteWith(x: bv8, k: nat): bv8
    requires k < 8
  {
    x | Mask(k)
  }

  function ByteWithout(x: bv8, k: nat): bv8
    requires k < 8
  {
    x & !Mask(k)
  }

  /** bitmapTestBit */
  predicate TestBit(b: Bitmap, pos: nat)
    requires Whole(b) && pos < CLUSTER_SLOTS
  {
    ByteHas(b[pos / 8], pos % 8)
  }

  /** bitmapSetBit */
  function SetBit(b: Bitmap, pos: nat): (r: Bitmap)
    requires Whole(b) && pos < CLUSTER_SLOTS
    ensures Whole(r)
  {
    b[pos / 8 := ByteWith(b[pos / 8], pos % 8)]
  }

  /** bitmapClearBit */
  function ClearBit(b: Bitmap, pos: nat): (r: Bitmap)
    requires Whole(b) && pos < CLUSTER_SLOTS
    ensures Whole(r)
  {
    b[pos / 8 := ByteWithout(b[pos / 8], pos % 8)]
  }

  /** Bit k of a byte is the one of weight 2^k: bit 0 is the least significant. */
  lemma MaskWeights(k: nat)
    requires k < 8
    ensures Mask(0) == 1 && (k < 7 ==> Mask(k + 1) == Mask(k) + Mask(k))
  {
  }

  lemma MasksApart(i: nat, j: nat)
    requires i < 8 && j < 8
    ensures Mask(i) != 0 && Mask(j) != 0 && (i != j ==> Mask(i) & Mask(j) == 0)
  {
  }

  lemma ByteSet(x: bv8, a: bv8, b: bv8)
    requires b != 0 && (a == b || a & b == 0)
    ensures (x | a) & b != 0 <==> a == b || x & b != 0
  {
  }

  lemma ByteCleared(x: bv8, a: bv8, b: bv8)
    requires b != 0 && (a == b || a & b == 0)
    ensures (x & !a) & b != 0 <==> a != b && x & b != 0
  {
  }

  lemma ByteEffects(x: bv8, i: nat, j: nat)
    requires i < 8 && j < 8
    ensures ByteHas(ByteWith(x, i), j) <==> i == j || ByteHas(x, j)
    ensures ByteHas(ByteWithout(x, i), j) <==> i != j && ByteHas(x, j)
  {
    hide Mask;
    MasksApart(i, j);
    ByteSet(x, Mask(i), Mask(j));
    ByteCleared(x, Mask(i), Mask(j));
  }

  /** Setting or clearing a bit changes that bit and no other. */
  lemma BitEffects(b: Bitmap, pos: nat, q: nat)
    requires Whole(b) && pos < CLUSTER_SLOTS && q < CLUSTER_SLOTS
    ensures TestBit(SetBit(b, pos), q) <==> q == pos || TestBit(b, q)
    ensures TestBit(ClearBit(b, pos), q) <==> q != pos && TestBit(b, q)
  {
    hide ByteHas, ByteWith, ByteWithout;
    ByteEffects(b[pos / 8], pos % 8, q % 8);
  }

  lemma SameByte(x: bv8, y: bv8)
    requires forall k :: 0 <= k < 8 ==> (ByteHas(x, k) <==> ByteHas(y, k))
    ensures x == y
  {
    assert ByteHas(x, 0) <==> ByteHas(y, 0);
    assert ByteHas(x, 1) <==> ByteHas(y, 1);
    assert ByteHas(x, 2) <==> ByteHas(y, 2);
    assert ByteHas(x, 3) <==> ByteHas(y, 3);
    assert ByteHas(x, 4) <==> ByteHas(y, 4);
    assert ByteHas(x, 5) <==> ByteHas(y, 5);
    assert ByteHas(x, 6) <==> ByteHas(y, 6);
    assert ByteHas(x, 7) <==> ByteHas(y, 7);
  }

  /** The slots whose bit is set. */
  function Slots(b: Bitmap): set<nat>
    requires Whole(b)
  {
    set q: nat | q < CLUSTER_SLOTS && TestBit(b, q)
  }

  /** Two bitmaps compare equal exactly when they hold the same slots. */
  lemma SameBitmap(a: Bitmap, b: Bitmap)
    requires Whole(a) && Whole(b)
    ensures a == b <==> Slots(a) == Slots(b)
  {
    hide ByteHas;
    if Slots(a) == Slots(b) {
      forall i | 0 <= i < |a|
        ensures a[i] == b[i]
      {
        forall k | 0 <= k < 8
          ensures ByteHas(a[i], k) <==> ByteHas(b[i], k)
        {
          var q := 8 * i + k;
          assert q in Slots(a) <==> q in Slots(b);
          assert q / 8 == i && q % 8 == k;
        }
        SameByte(a[i], b[i]);
      }
    }
  }

  lemma SlotsChange(b: Bitmap, pos: nat)
    requires Whole(b) && pos < CLUSTER_SLOTS
    ensures Slots(SetBit(b, pos)) == Slots(b) + {pos}
    ensures Slots(ClearBit(b, pos)) == Slots(b) - {pos}
  {
    hide ByteHas, ByteWith, ByteWithout;
    forall q: nat | q < CLUSTER_SLOTS
      ensures TestBit(SetBit(b, pos), q) <==> q == pos || TestBit(b, q)
      ensures TestBit(ClearBit(b, pos), q) <==> q != pos && TestBit(b, q)
    {
      BitEffects(b, pos, q);
    }
  }
}
