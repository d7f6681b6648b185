/**
 The keyspace of a cluster node (db.c): the dictionaries, and the index of keys
 by hash slot that follows the keys of database 0, the only one in use when
 cluster mode is on. The hash slot of a key is left open.
 */
module Keyspace {
  import opened Basics
  import opened ByteStrings
  import opened SlotIndex

  type ClientId = nat
  type Value = Bytes

  datatype Db = Db(dict: map<Bytes, Value>, expires: map<Bytes, int>)

  class Server {
    const slotOf: Bytes -> Slot
    var dbs: seq<Db>
    var slotsToKeys: seq<Bytes>
    var slotsKeysCount: seq<nat>
    var selected: map<ClientId, nat> // the database of each client

    ghost predicate Formed()
      reads this
    {
      |dbs| > 0 && forall d :: 0 <= d < |dbs| ==> dbs[d].expires.Keys <= dbs[d].dict.Keys
    }

    /** The index and the counters say what is in database 0. */
    ghost predicate Valid()
      reads this
    {
      Formed() && Agrees(slotOf, dbs[0].dict.Keys, slotsToKeys, slotsKeysCount)
    }

    /** The state between commands: no client is on a database other than 0. */
    ghost predicate Settled()
      reads this
    {
      Valid() && forall c :: c in selected ==> selected[c] == 0
    }

    constructor (slotOf: Bytes -> Slot, dbnum: nat)
      requires dbnum > 0
      ensures Settled() && selected == map[] && this.slotOf == slotOf && |dbs| == dbnum && fresh(this)
      ensures forall d :: 0 <= d < dbnum ==> dbs[d] == Db(map[], map[])
    {
      EmptyAgrees(slotOf);
      this.slotOf := slotOf;
      dbs := seq(dbnum, _ => Db(map[], map[]));
      slotsToKeys := [];
      slotsKeysCount := seq(CLUSTER_SLOTS, _ => 0);
      selected := map[];
    }

    /** slotToKeyUpdateKey */
    method SlotToKeyUpdateKey(key: Bytes, add: bool, ghost keys: set<Bytes>)
      requires Agrees(slotOf, keys, slotsToKeys, slotsKeysCount) && (key in keys <==> !add)
      modifies this`slotsToKeys, this`slotsKeysCount
      ensures Agrees(slotOf, if add then keys + {key} else keys - {key}, slotsToKeys, slotsKeysCount)
      ensures |slotsKeysCount| == |old(slotsKeysCount)| == CLUSTER_SLOTS
      ensures var n, m := slotsKeysCount[slotOf(key)], old(slotsKeysCount)[slotOf(key)];
              if add then n == m + 1 else n + 1 == m
    {
      var hashslot := slotOf(key);
      if add {
        AddIndexes(slotOf, keys, slotsToKeys, key);
        AddCounts(slotOf, keys, slotsKeysCount, key);
      } else {
        DelIndexes(slotOf, keys, slotsToKeys, key);
        DelCounts(slotOf, keys, slotsKeysCount, key);
      }
      hide Indexes, Inserted, Removed, InSlot;
      slotsKeysCount := slotsKeysCount[hashslot := if add then slotsKeysCount[hashslot] + 1 else slotsKeysCount[hashslot] - 1];
      var indexed := [hashslot / 256, hashslot % 256] + key;
      slotsToKeys := if add then Inserted(slotsToKeys, indexed) else Removed(slotsToKeys, indexed);
    }

    /** dbAdd; the assertion that the key is new is its precondition. */
    method DbAdd(key: Bytes, val: Value)
      requires Valid() && key !in dbs[0].dict
      modifies this`dbs, this`slotsToKeys, this`slotsKeysCount
      ensures Valid() && dbs == old(dbs)[0 := old(dbs)[0].(dict := old(dbs)[0].dict[key := val])]
    {
      hide Agrees;
      var dict := dbs[0].dict[key := val];
      SlotToKeyUpdateKey(key, true, dbs[0].dict.Keys);
      assert dict.Keys == dbs[0].dict.Keys + {key};
      dbs := dbs[0 := dbs[0].(dict := dict)];
    }

    /** dbOverwrite; the assertion that the key is there is its precondition. */
    method DbOverwrite(key: Bytes, val: Value)
      requires Valid() && key in dbs[0].dict
      modifies this`dbs
      ensures Valid() && dbs == old(dbs)[0 := old(dbs)[0].(dict := old(dbs)[0].dict[key := val])]
    {
      hide Agrees;
      var dict := dbs[0].dict[key := val];
      assert dict.Keys == dbs[0].dict.Keys;
      dbs := dbs[0 := dbs[0].(dict := dict)];
    }

    /** dbSyncDelete */
    method DbSyncDelete(key: Bytes) returns (deleted: bool)
      requires Valid()
      modifies this`dbs, this`slotsToKeys, this`slotsKeysCount
      ensures Valid() && deleted == (key in old(dbs)[0].dict)
      ensures dbs == old(dbs)[0 := Db(old(dbs)[0].dict - {key}, old(dbs)[0].expires - {key})]
      ensures |slotsKeysCount| == |old(slotsKeysCount)| == CLUSTER_SLOTS
      ensures deleted ==> slotsKeysCount[slotOf(key)] + 1 == old(slotsKeysCount)[slotOf(key)]
    {
      hide Indexes, InSlot;
      ghost var keys := dbs[0].dict.Keys;
      var expires := dbs[0].expires - {key};
      var dict := dbs[0].dict - {key};
      assert dict.Keys == keys - {key};
      deleted := key in dbs[0].dict;
      if deleted {
        SlotToKeyUpdateKey(key, false, keys);
      } else {
        assert keys - {key} == keys;
      }
      hide Counts;
      dbs := dbs[0 := Db(dict, expires)];
    }

    /** setKey; expired says that the lookup finds the key expired and deletes it. */
    method SetKey(key: Bytes, val: Value, expired: bool)
      requires Valid()
      modifies this`dbs, this`slotsToKeys, this`slotsKeysCount
      ensures Valid()
      ensures dbs == old(dbs)[0 := Db(old(dbs)[0].dict[key := val], old(dbs)[0].expires - {key})]
    {
      hide Agrees;
      if expired { var _ := DbSyncDelete(key); }
      if key !in dbs[0].dict { DbAdd(key, val); } else { DbOverwrite(key, val); }
      dbs := dbs[0 := dbs[0].(expires := dbs[0].expires - {key})];
      assert old(dbs)[0].dict[key := val] == (old(dbs)[0].dict - {key})[key := val];
      assert old(dbs)[0].expires - {key} == old(dbs)[0].expires - {key} - {key};
    }

    /** slotToKeyFlush */
    method SlotToKeyFlush()
      modifies this`slotsToKeys, this`slotsKeysCount
      ensures slotsToKeys == [] && Agrees(slotOf, {}, slotsToKeys, slotsKeysCount)
    {
      EmptyAgrees(slotOf);
      slotsToKeys := [];
      slotsKeysCount := seq(CLUSTER_SLOTS, _ => 0);
    }

    /** The loop of emptyDb. */
    method EmptyRange(startdb: nat, enddb: nat) returns (removed: nat)
      requires startdb <= enddb < |dbs|
      modifies this`dbs
      ensures |dbs| == |old(dbs)| && removed == Sizes(old(dbs), startdb, enddb + 1)
      ensures forall d :: 0 <= d < |dbs| ==> dbs[d] == if startdb <= d <= enddb then Db(map[], map[]) else old(dbs)[d]
    {
      removed := 0;
      var j := startdb;
      while j <= enddb
        invariant startdb <= j <= enddb + 1 && |dbs| == |old(dbs)|
        invariant removed == Sizes(old(dbs), startdb, j)
        invariant forall d :: 0 <= d < |dbs| ==> dbs[d] == if startdb <= d < j then Db(map[], map[]) else old(dbs)[d]
      {
        removed := removed + |dbs[j].dict|;
        dbs := dbs[j := Db(map[], map[])];
        j := j + 1;
      }
    }

    /**
     emptyDb: the databases in range are emptied. The index is flushed whatever
     the range, so it still says what is in database 0 exactly when that
     database was in range, or empty. The commands below call it no other way.
     */
    method EmptyDb(dbnum: int) returns (removed: int)
      requires Valid()
      modifies this`dbs, this`slotsToKeys, this`slotsKeysCount
      ensures Formed() && |dbs| == |old(dbs)|
      ensures dbnum < -1 || dbnum >= |dbs| ==> removed == -1 && Valid() && dbs == old(dbs)
      ensures -1 <= dbnum < |dbs| ==> Emptied(old(dbs), dbs, dbnum, removed)
      ensures -1 <= dbnum < |dbs| ==> (Valid() <==> dbnum == -1 || dbnum == 0 || old(dbs)[0].dict == map[])
    {
      hide Agrees, Sizes;
      removed := 0;
      if dbnum < -1 || dbnum >= |dbs| { return -1; }
      var startdb, enddb;
      if dbnum == -1 { startdb, enddb := 0, |dbs| - 1; } else { startdb, enddb := dbnum, dbnum; }
      removed := EmptyRange(startdb, enddb);
      SlotToKeyFlush();
      FlushedIff(slotOf, dbs[0].dict, slotsToKeys, slotsKeysCount);
    }

    /** selectDb */
    method SelectDb(c: ClientId, id: int) returns (ok: bool)
      modifies this`selected
      ensures ok <==> 0 <= id < |dbs|
      ensures selected == if ok then old(selected)[c := id] else old(selected)
    {
      if id < 0 || id >= |dbs| { return false; }
      selected := selected[c := id];
      return true;
    }

    /** createClient: a client starts on database 0. */
    method CreateClient(c: ClientId)
      requires Settled()
      modifies this`selected
      ensures Settled() && selected == old(selected)[c := 0]
    {
      var _ := SelectDb(c, 0);
    }

    /** selectCommand in cluster mode: only database 0 can be selected. */
    method Select(c: ClientId, id: int) returns (ok: bool)
      requires Settled() && c in selected
      modifies this`selected
      ensures Settled() && selected == old(selected) && (ok <==> id == 0)
    {
      if id != 0 { return false; }
      ok := SelectDb(c, id);
    }

    /** flushdbCommand: the database it empties is the client's, so the index is flushed with the keys it lists. */
    method FlushDb(c: ClientId) returns (removed: int)
      requires Settled() && c in selected
      modifies this`dbs, this`slotsToKeys, this`slotsKeysCount
      ensures Settled() && removed == |old(dbs)[0].dict| && dbs == old(dbs)[0 := Db(map[], map[])]
    {
      removed := EmptyDb(selected[c]);
      assert Sizes(old(dbs), 0, 1) == Sizes(old(dbs), 0, 0) + |old(dbs)[0].dict|;
    }

    /** flushallCommand */
    method FlushAll() returns (removed: int)
      requires Settled()
      modifies this`dbs, this`slotsToKeys, this`slotsKeysCount
      ensures Settled() && removed == Sizes(old(dbs), 0, |old(dbs)|)
      ensures |dbs| == |old(dbs)| && forall d :: 0 <= d < |dbs| ==> dbs[d] == Db(map[], map[])
    {
      removed := EmptyDb(-1);
    }

    /** getKeysInSlot: keys of the slot only, each once, and all of them up to the count asked for. */
    method GetKeysInSlot(hashslot: Slot, count: nat) returns (keys: seq<Bytes>)
      requires Valid()
      ensures |slotsKeysCount| == CLUSTER_SLOTS
      ensures forall k :: k in keys ==> k in dbs[0].dict && slotOf(k) == hashslot
      ensures forall i, j :: 0 <= i < j < |keys| ==> keys[i] != keys[j]
      ensures |keys| == if count < slotsKeysCount[hashslot] then count else slotsKeysCount[hashslot]
      ensures |keys| < count ==> forall k :: k in dbs[0].dict && slotOf(k) == hashslot ==> k in keys
    {
      hide Seek, Starts, Prefix, InSlot, Sorted, Entry, Seen;
      assert |slotsKeysCount| == CLUSTER_SLOTS;
      hide Counts;
      keys := [];
      ghost var live := dbs[0].dict.Keys;
      var first := Seek(slotsToKeys, Prefix(hashslot));
      var i := first;
      while |keys| < count && i < |slotsToKeys| && Starts(slotsToKeys[i], Prefix(hashslot))
        invariant first <= i <= |slotsToKeys| && |keys| == i - first <= count
        invariant forall j: nat :: j < |keys| ==> Seen(slotOf, live, slotsToKeys, hashslot, first, keys, j)
      {
        SeenMore(slotOf, live, slotsToKeys, hashslot, first, keys);
        keys := keys + [slotsToKeys[i][2..]];
        i := i + 1;
      }
      KeysOfSlot(slotOf, live, slotsToKeys, hashslot, first, keys);
      if |keys| < count {
        AllOfSlot(slotOf, live, slotsToKeys, hashslot, first, keys);
      }
      CountOfKeys(slotOf, live, slotsKeysCount, hashslot, keys);
    }

    /** countKeysInSlot */
    method CountKeysInSlot(hashslot: Slot) returns (n: nat)
      requires Valid()
      ensures n == |InSlot(slotOf, dbs[0].dict.Keys, hashslot)|
    {
      n := slotsKeysCount[hashslot];
    }

    /** One turn of the loop of delKeysInSlot: the first key of the slot goes. */
    method DelFirstInSlot(hashslot: Slot) returns (key: Bytes)
      requires Valid() && |slotsKeysCount| == CLUSTER_SLOTS && slotsKeysCount[hashslot] != 0
      modifies this`dbs, this`slotsToKeys, this`slotsKeysCount
      ensures Valid() && key in old(dbs)[0].dict && slotOf(key) == hashslot
      ensures dbs == old(dbs)[0 := Db(old(dbs)[0].dict - {key}, old(dbs)[0].expires - {key})]
      ensures |slotsKeysCount| == CLUSTER_SLOTS && slotsKeysCount[hashslot] < old(slotsKeysCount)[hashslot]
    {
      hide Agrees, Seek, Prefix;
      var i := Seek(slotsToKeys, Prefix(hashslot));
      FirstOfSlot(slotOf, dbs[0].dict.Keys, slotsToKeys, slotsKeysCount, hashslot);
      key := slotsToKeys[i][2..];
      var _ := DbSyncDelete(key);
    }

    /** delKeysInSlot: it ends, and removes exactly the keys of the slot. */
    method DelKeysInSlot(hashslot: Slot) returns (j: nat)
      requires Valid()
      modifies this`dbs, this`slotsToKeys, this`slotsKeysCount
      ensures Valid() && j == |InSlot(slotOf, old(dbs)[0].dict.Keys, hashslot)|
      ensures var gone := InSlot(slotOf, old(dbs)[0].dict.Keys, hashslot);
              dbs == old(dbs)[0 := Db(old(dbs)[0].dict - gone, old(dbs)[0].expires - gone)]
    {
      assert |slotsKeysCount| == CLUSTER_SLOTS;
      hide Agrees;
      j := 0;
      ghost var gone: set<Bytes> := {};
      WithoutMore(dbs, {}, []);
      while slotsKeysCount[hashslot] != 0
        invariant Valid() && |slotsKeysCount| == CLUSTER_SLOTS
        invariant gone <= InSlot(slotOf, old(dbs)[0].dict.Keys, hashslot) && j == |gone|
        invariant dbs == Without(old(dbs), gone)
        decreases slotsKeysCount[hashslot]
      {
        var key := DelFirstInSlot(hashslot);
        WithoutMore(old(dbs), gone, key);
        gone := gone + {key};
        j := j + 1;
      }
      NoneLeft(slotOf, dbs[0].dict.Keys, slotsToKeys, slotsKeysCount, hashslot);
      assert gone == InSlot(slotOf, old(dbs)[0].dict.Keys, hashslot);
    }
  }

  function Without(dbs: seq<Db>, gone: set<Bytes>): seq<Db>
    requires |dbs| > 0
  {
    dbs[0 := Db(dbs[0].dict - gone, dbs[0].expires - gone)]
  }

  lemma WithoutMore(dbs: seq<Db>, gone: set<Bytes>, k: Bytes)
    requires |dbs| > 0
    ensures Without(dbs, {}) == dbs
    ensures Without(Without(dbs, gone), {k}) == Without(dbs, gone + {k})
  {
    assert dbs[0].dict - {} == dbs[0].dict && dbs[0].expires - {} == dbs[0].expires;
    assert dbs[0].dict - gone - {k} == dbs[0].dict - (gone + {k});
    assert dbs[0].expires - gone - {k} == dbs[0].expires - (gone + {k});
  }

  function Sizes(dbs: seq<Db>, lo: nat, hi: nat): nat
    requires lo <= hi <= |dbs|
  {
    if lo == hi then 0 else Sizes(dbs, lo, hi - 1) + |dbs[hi - 1].dict|
  }

  /** The databases that dbnum names (all of them for -1) are empty now, the others as they were. */
  ghost predicate Emptied(was: seq<Db>, now: seq<Db>, dbnum: int, removed: int)
    requires |was| == |now| && -1 <= dbnum < |was|
  {
    var lo, hi := if dbnum == -1 then 0 else dbnum, if dbnum == -1 then |was| else dbnum + 1;
    && removed == Sizes(was, lo, hi)
    && forall d :: 0 <= d < |now| ==> now[d] == if lo <= d < hi then Db(map[], map[]) else was[d]
  }

  /** A flushed index agrees with a dictionary only if that is empty. */
  lemma FlushedIff(slotOf: Bytes -> Slot, dict: map<Bytes, Value>, index: seq<Bytes>, counts: seq<nat>)
    requires index == [] && Agrees(slotOf, {}, index, counts)
    ensures Agrees(slotOf, dict.Keys, index, counts) <==> dict == map[]
  {
    if dict != map[] {
      var k :| k in dict;
      assert Entry(slotOf, k) !in index;
    } else {
      assert dict.Keys == {};
    }
  }

  /** The j-th key found is the key of the j-th entry from the first on, and of the slot. */
  ghost predicate Seen(slotOf: Bytes -> Slot, live: set<Bytes>, index: seq<Bytes>, slot: Slot, first: nat, keys: seq<Bytes>, j: nat)
  {
    && j < |keys| && first + j < |index| && Starts(index[first + j], Prefix(slot))
    && index[first + j] == Entry(slotOf, keys[j]) && keys[j] in live
  }

  lemma SeenMore(slotOf: Bytes -> Slot, live: set<Bytes>, index: seq<Bytes>, slot: Slot, first: nat, keys: seq<Bytes>)
    requires Indexes(slotOf, live, index) && first + |keys| < |index| && Starts(index[first + |keys|], Prefix(slot))
    requires forall j: nat :: j < |keys| ==> Seen(slotOf, live, index, slot, first, keys, j)
    ensures |index[first + |keys|]| >= 2
    ensures var more := keys + [index[first + |keys|][2..]];
            forall j: nat :: j < |more| ==> Seen(slotOf, live, index, slot, first, more, j)
  {
    hide Entry, Starts, Prefix, Sorted;
    var e := index[first + |keys|];
    assert e in index;
    var more := keys + [e[2..]];
    forall j: nat | j < |more| ensures Seen(slotOf, live, index, slot, first, more, j)
    {
      if j < |keys| { assert Seen(slotOf, live, index, slot, first, keys, j); }
    }
  }

  lemma KeysOfSlot(slotOf: Bytes -> Slot, live: set<Bytes>, index: seq<Bytes>, slot: Slot, first: nat, keys: seq<Bytes>)
    requires Sorted(index) && forall j: nat :: j < |keys| ==> Seen(slotOf, live, index, slot, first, keys, j)
    ensures forall k :: k in keys ==> k in live && slotOf(k) == slot
    ensures forall i, j :: 0 <= i < j < |keys| ==> keys[i] != keys[j]
  {
    hide Starts, Entry, Prefix, Less;
    forall k | k in keys ensures k in live && slotOf(k) == slot
    {
      var j: nat :| j < |keys| && keys[j] == k;
      assert Seen(slotOf, live, index, slot, first, keys, j);
      EntrySlot(slotOf, k, slot);
    }
    forall i: nat, j: nat | i < j < |keys| ensures keys[i] != keys[j]
    {
      assert Seen(slotOf, live, index, slot, first, keys, i) && Seen(slotOf, live, index, slot, first, keys, j);
      assert Less(index[first + i], index[first + j]);
      LessIrreflexive(index[first + i]);
    }
  }

  /** When the walk ended before the count was reached, it had seen every key of the slot. */
  lemma AllOfSlot(slotOf: Bytes -> Slot, live: set<Bytes>, index: seq<Bytes>, slot: Slot, first: nat, keys: seq<Bytes>)
    requires Indexes(slotOf, live, index) && first == Seek(index, Prefix(slot)) && first + |keys| <= |index|
    requires forall j: nat :: j < |keys| ==> Seen(slotOf, live, index, slot, first, keys, j)
    requires first + |keys| < |index| ==> !Starts(index[first + |keys|], Prefix(slot))
    ensures forall k :: k in live && slotOf(k) == slot ==> k in keys
  {
    hide Indexes, Seek, Starts, Prefix, Entry, Seen;
    forall k | k in live && slotOf(k) == slot ensures k in keys
    {
      if k !in keys {
        NotYetSeen(slotOf, live, index, slot, first, keys, k);
        SeekFindsSlot(slotOf, live, index, slot, k, first + |keys|);
      }
    }
  }

  lemma NotYetSeen(slotOf: Bytes -> Slot, live: set<Bytes>, index: seq<Bytes>, slot: Slot, first: nat, keys: seq<Bytes>, k: Bytes)
    requires k !in keys && first + |keys| <= |index|
    requires forall j: nat :: j < |keys| ==> Seen(slotOf, live, index, slot, first, keys, j)
    ensures forall j :: first <= j < first + |keys| && j < |index| ==> index[j] != Entry(slotOf, k)
  {
    hide Starts, Prefix, Entry;
    forall j | first <= j < first + |keys| ensures index[j] != Entry(slotOf, k)
    {
      assert Seen(slotOf, live, index, slot, first, keys, j - first);
      EntryUnique(slotOf, keys[j - first], k);
    }
  }

  lemma CountOfKeys(slotOf: Bytes -> Slot, live: set<Bytes>, counts: seq<nat>, slot: Slot, keys: seq<Bytes>)
    requires Counts(slotOf, live, counts)
    requires forall k :: k in keys ==> k in live && slotOf(k) == slot
    requires forall i, j :: 0 <= i < j < |keys| ==> keys[i] != keys[j]
    ensures |counts| == CLUSTER_SLOTS && |keys| <= counts[slot]
    ensures (forall k :: k in live && slotOf(k) == slot ==> k in keys) ==> |keys| == counts[slot]
  {
    var all, some := InSlot(slotOf, live, slot), set k | k in keys;
    SizeOfKeys(keys);
    assert some <= all;
    assert all == some + (all - some);
    if forall k :: k in live && slotOf(k) == slot ==> k in keys { assert all == some; }
  }

  lemma {:induction false} SizeOfKeys(keys: seq<Bytes>)
    requires forall i, j :: 0 <= i < j < |keys| ==> keys[i] != keys[j]
    ensures |set k | k in keys| == |keys|
  {
    if keys != [] {
      var n := |keys| - 1;
      SizeOfKeys(keys[..n]);
      assert (set k | k in keys) == (set k | k in keys[..n]) + {keys[n]};
    }
  }

  lemma FirstOfSlot(slotOf: Bytes -> Slot, live: set<Bytes>, index: seq<Bytes>, counts: seq<nat>, slot: Slot)
    requires Agrees(slotOf, live, index, counts) && counts[slot] != 0
    ensures var i := Seek(index, Prefix(slot));
            i < |index| && |index[i]| >= 2 && index[i][2..] in live && slotOf(index[i][2..]) == slot
  {
    var all := InSlot(slotOf, live, slot);
    assert |all| != 0;
    var k :| k in all;
    var i := Seek(index, Prefix(slot));
    hide Seek, Counts;
    SeekFindsSlot(slotOf, live, index, slot, k, i);
    assert index[i] in index;
    EntrySlot(slotOf, index[i][2..], slot);
  }

  lemma NoneLeft(slotOf: Bytes -> Slot, live: set<Bytes>, index: seq<Bytes>, counts: seq<nat>, slot: Slot)
    requires Agrees(slotOf, live, index, counts) && counts[slot] == 0
    ensures InSlot(slotOf, live, slot) == {}
  {
    assert |InSlot(slotOf, live, slot)| == 0;
  }
}
