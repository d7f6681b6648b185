/**
 The slot index of a cluster node (db.c): keys prefixed with their hash slot, kept
 in byte order, so that the keys of a slot are found next to each other.
 */
module SlotIndex {
  import opened Basics
  import opened ByteStrings

  type Slot = x: nat | x < CLUSTER_SLOTS

  // ---------------------------------------------------------------- byte order

  /** The order of memcmp, shorter strings first among those that agree. */
  predicate Less(a: Bytes, b: Bytes)
  {
    if b == [] then false
    else if a == [] then true
    else a[0] < b[0] || (a[0] == b[0] && Less(a[1..], b[1..]))
  }

  lemma {:induction false} LessTransitive(a: Bytes, b: Bytes, c: Bytes)
    requires Less(a, b) && Less(b, c)
    ensures Less(a, c)
    decreases |a|
  {
    if a != [] && a[0] == c[0] { LessTransitive(a[1..], b[1..], c[1..]); }
  }

  lemma {:induction false} LessIrreflexive(a: Bytes)
    ensures !Less(a, a)
  {
    if a != [] { LessIrreflexive(a[1..]); }
  }

  lemma {:induction false} LessTotal(a: Bytes, b: Bytes)
    ensures Less(a, b) || a == b || Less(b, a)
  {
    if a != [] && b != [] && a[0] == b[0] {
      LessTotal(a[1..], b[1..]);
      if a[1..] == b[1..] { assert a == [a[0]] + a[1..] && b == [b[0]] + b[1..]; }
    }
  }

  predicate Starts(e: Bytes, p: Bytes) { p <= e }

  /** A string that starts with p is not below p. */
  lemma {:induction false} PrefixFirst(p: Bytes, e: Bytes)
    requires Starts(e, p)
    ensures !Less(e, p)
  {
    if p != [] {
      assert e[0] == p[0] && Starts(e[1..], p[1..]);
      PrefixFirst(p[1..], e[1..]);
    }
  }

  /** Strings that start with p are contiguous from p on: what lies between p and one of them starts with p too. */
  lemma {:induction false} PrefixContiguous(p: Bytes, a: Bytes, b: Bytes)
    requires !Less(a, p) && !Less(b, a) && Starts(b, p)
    ensures Starts(a, p)
  {
    if p != [] {
      assert b[0] == p[0] && Starts(b[1..], p[1..]);
      assert a[0] == p[0];
      PrefixContiguous(p[1..], a[1..], b[1..]);
      assert a == [a[0]] + a[1..] && p == [p[0]] + p[1..];
    }
  }

  // ---------------------------------------------------------------- the ordered index

  ghost predicate Sorted(index: seq<Bytes>)
  {
    forall i, j :: 0 <= i < j < |index| ==> Less(index[i], index[j])
  }

  /** raxSeek with ">=": the first entry not below x. */
  function Seek(index: seq<Bytes>, x: Bytes): (i: nat)
    ensures i <= |index|
    ensures forall j :: 0 <= j < i ==> Less(index[j], x)
    ensures i < |index| ==> !Less(index[i], x)
  {
    if index == [] || !Less(index[0], x) then 0 else Seek(index[1..], x) + 1
  }

  /** raxInsert */
  function Inserted(index: seq<Bytes>, x: Bytes): seq<Bytes>
  {
    var i := Seek(index, x);
    if i < |index| && index[i] == x then index else index[..i] + [x] + index[i..]
  }

  /** raxRemove */
  function Removed(index: seq<Bytes>, x: Bytes): seq<Bytes>
  {
    var i := Seek(index, x);
    if i < |index| && index[i] == x then index[..i] + index[i + 1..] else index
  }

  /** Past the place sought, everything is above x, or x itself in the first place. */
  lemma SeekAbove(index: seq<Bytes>, x: Bytes, j: nat)
    requires Sorted(index) && Seek(index, x) <= j < |index|
    ensures index[j] == x || Less(x, index[j])
    ensures index[j] == x ==> j == Seek(index, x)
  {
    hide Seek, Less;
    var i := Seek(index, x);
    LessTotal(x, index[i]);
    LessIrreflexive(x);
    if j > i {
      assert Less(index[i], index[j]);
      if Less(x, index[i]) { LessTransitive(x, index[i], index[j]); }
    }
  }

  lemma InsertedSorted(index: seq<Bytes>, x: Bytes)
    requires Sorted(index)
    ensures Sorted(Inserted(index, x)) && forall e :: e in Inserted(index, x) <==> e == x || e in index
  {
    hide Seek, Less;
    var i := Seek(index, x);
    if i < |index| && index[i] == x { return; }
    var r := index[..i] + [x] + index[i..];
    assert forall k :: 0 <= k < |r| ==> r[k] == if k < i then index[k] else if k == i then x else index[k - 1];
    forall k | i < k < |r| ensures Less(x, r[k]) { SeekAbove(index, x, k - 1); }
    forall k, l | 0 <= k < i && i < l < |r| ensures Less(r[k], r[l]) { assert Less(index[k], index[l - 1]); }
    forall e | e in index ensures e in r
    {
      var k :| 0 <= k < |index| && index[k] == e;
      assert r[if k < i then k else k + 1] == e;
    }
  }

  lemma RemovedSorted(index: seq<Bytes>, x: Bytes)
    requires Sorted(index)
    ensures Sorted(Removed(index, x)) && forall e :: e in Removed(index, x) <==> e != x && e in index
  {
    hide Seek, Less;
    var i := Seek(index, x);
    if i < |index| && index[i] == x {
      var r := index[..i] + index[i + 1..];
      assert forall k :: 0 <= k < |r| ==> r[k] == if k < i then index[k] else index[k + 1];
      LessIrreflexive(x);
      forall e | e != x && e in index ensures e in r
      {
        var k :| 0 <= k < |index| && index[k] == e;
        assert r[if k < i then k else k - 1] == e;
      }
      forall k | 0 <= k < |r| ensures r[k] != x
      {
        if k < i { assert Less(index[k], index[i]); } else { assert Less(index[i], index[k + 1]); }
      }
    } else {
      forall e | e in index ensures e != x
      {
        var k :| 0 <= k < |index| && index[k] == e;
        LessIrreflexive(x);
        if k >= i { SeekAbove(index, x, k); }
      }
    }
  }

  // ---------------------------------------------------------------- entries

  function Prefix(slot: Slot): Bytes { [slot / 256, slot % 256] }

  function Entry(slotOf: Bytes -> Slot, k: Bytes): Bytes { Prefix(slotOf(k)) + k }

  lemma EntryUnique(slotOf: Bytes -> Slot, j: Bytes, k: Bytes)
    ensures Entry(slotOf, j) == Entry(slotOf, k) <==> j == k
  {
    assert Entry(slotOf, j)[2..] == j && Entry(slotOf, k)[2..] == k;
  }

  lemma EntrySlot(slotOf: Bytes -> Slot, k: Bytes, slot: Slot)
    ensures Starts(Entry(slotOf, k), Prefix(slot)) <==> slotOf(k) == slot
    ensures Entry(slotOf, k)[2..] == k
  {
    var e := Entry(slotOf, k);
    assert e[..2] == Prefix(slotOf(k));
    assert Starts(e, Prefix(slot)) <==> e[0] == slot / 256 && e[1] == slot % 256;
  }

  function InSlot(slotOf: Bytes -> Slot, keys: set<Bytes>, slot: Slot): set<Bytes>
  {
    set k | k in keys && slotOf(k) == slot
  }

  /** The index holds exactly the entries of the keys. */
  ghost predicate Indexes(slotOf: Bytes -> Slot, keys: set<Bytes>, index: seq<Bytes>)
  {
    && Sorted(index)
    && (forall k :: k in keys ==> Entry(slotOf, k) in index)
    && forall e :: e in index ==> |e| >= 2 && e[2..] in keys && e == Entry(slotOf, e[2..])
  }

  /** The counters are the numbers of keys in each slot. */
  ghost predicate Counts(slotOf: Bytes -> Slot, keys: set<Bytes>, counts: seq<nat>)
  {
    |counts| == CLUSTER_SLOTS && forall s: Slot :: counts[s] == |InSlot(slotOf, keys, s)|
  }

  ghost predicate Agrees(slotOf: Bytes -> Slot, keys: set<Bytes>, index: seq<Bytes>, counts: seq<nat>)
  {
    Indexes(slotOf, keys, index) && Counts(slotOf, keys, counts)
  }

  lemma AddIndexes(slotOf: Bytes -> Slot, keys: set<Bytes>, index: seq<Bytes>, k: Bytes)
    requires Indexes(slotOf, keys, index)
    ensures Indexes(slotOf, keys + {k}, Inserted(index, Entry(slotOf, k)))
  {
    InsertedSorted(index, Entry(slotOf, k));
    EntrySlot(slotOf, k, slotOf(k));
    hide Inserted, Sorted;
  }

  lemma AddCounts(slotOf: Bytes -> Slot, keys: set<Bytes>, counts: seq<nat>, k: Bytes)
    requires Counts(slotOf, keys, counts) && k !in keys
    ensures Counts(slotOf, keys + {k}, counts[slotOf(k) := counts[slotOf(k)] + 1])
  {
    forall s: Slot ensures |InSlot(slotOf, keys + {k}, s)| == |InSlot(slotOf, keys, s)| + if s == slotOf(k) then 1 else 0
    {
      if s == slotOf(k) {
        assert InSlot(slotOf, keys + {k}, s) == InSlot(slotOf, keys, s) + {k};
      } else {
        assert InSlot(slotOf, keys + {k}, s) == InSlot(slotOf, keys, s);
      }
    }
  }

  lemma DelCounts(slotOf: Bytes -> Slot, keys: set<Bytes>, counts: seq<nat>, k: Bytes)
    requires Counts(slotOf, keys, counts) && k in keys
    ensures counts[slotOf(k)] > 0 && Counts(slotOf, keys - {k}, counts[slotOf(k) := counts[slotOf(k)] - 1])
  {
    assert k in InSlot(slotOf, keys, slotOf(k));
    forall s: Slot ensures |InSlot(slotOf, keys - {k}, s)| + (if s == slotOf(k) then 1 else 0) == |InSlot(slotOf, keys, s)|
    {
      if s == slotOf(k) {
        assert InSlot(slotOf, keys, s) == InSlot(slotOf, keys - {k}, s) + {k};
      } else {
        assert InSlot(slotOf, keys - {k}, s) == InSlot(slotOf, keys, s);
      }
    }
  }

  lemma DelIndexes(slotOf: Bytes -> Slot, keys: set<Bytes>, index: seq<Bytes>, k: Bytes)
    requires Indexes(slotOf, keys, index) && k in keys
    ensures Indexes(slotOf, keys - {k}, Removed(index, Entry(slotOf, k)))
  {
    RemovedSorted(index, Entry(slotOf, k));
    hide Removed, Sorted;
    forall j | j in keys - {k} ensures Entry(slotOf, j) in Removed(index, Entry(slotOf, k))
    {
      EntryUnique(slotOf, j, k);
    }
  }

  lemma EmptyAgrees(slotOf: Bytes -> Slot)
    ensures Agrees(slotOf, {}, [], seq(CLUSTER_SLOTS, _ => 0))
  {
    forall s: Slot ensures InSlot(slotOf, {}, s) == {} {}
  }

  // ---------------------------------------------------------------- the keys of one slot

  /** The first entry of a slot that has keys is the first not below the slot's prefix. */
  lemma SeekFindsSlot(slotOf: Bytes -> Slot, keys: set<Bytes>, index: seq<Bytes>, slot: Slot, k: Bytes, i: nat)
    requires Indexes(slotOf, keys, index) && k in keys && slotOf(k) == slot && i >= Seek(index, Prefix(slot))
    requires forall j :: Seek(index, Prefix(slot)) <= j < i && j < |index| ==> index[j] != Entry(slotOf, k)
    ensures i < |index| && Starts(index[i], Prefix(slot))
  {
    var p := Prefix(slot);
    var e := Entry(slotOf, k);
    EntrySlot(slotOf, k, slot);
    PrefixFirst(p, e);
    hide Entry, Prefix, Less;
    var at: nat :| at < |index| && index[at] == e;
    assert at >= i;
    hide Seek, Starts;
    NotBelow(index, p, i);
    NotAfter(index, i, at);
    PrefixContiguous(p, index[i], e);
  }

  lemma NotBelow(index: seq<Bytes>, p: Bytes, i: nat)
    requires Sorted(index) && Seek(index, p) <= i < |index|
    ensures !Less(index[i], p)
  {
    SeekAbove(index, p, i);
    LessIrreflexive(p);
    if Less(index[i], p) && Less(p, index[i]) { LessTransitive(p, index[i], p); }
  }

  lemma NotAfter(index: seq<Bytes>, i: nat, j: nat)
    requires Sorted(index) && i <= j < |index|
    ensures !Less(index[j], index[i])
  {
    LessIrreflexive(index[i]);
    if i < j && Less(index[j], index[i]) { LessTransitive(index[i], index[j], index[i]); }
  }
}
