/**
 The rewrite of the log (aof.c, rewriteAppendOnlyFileRio and the functions it
 calls): commands in batches that rebuild a dataset from nothing.
 */
module AofRewrite {
  import opened Basics
  import opened ByteStrings
  import opened AofLog
  import AofLoad
  import opened Dataset
  import opened AofFeed

  const AOF_REWRITE_ITEMS_PER_CMD := 64

  // ---------------------------------------------------------------- batches

  function Flatten(items: seq<Argv>): Argv
  {
    if items == [] then [] else items[0] + Flatten(items[1..])
  }

  /** One command per limit items: its name, the key, and the arguments of those items. */
  function Batches(name: Bytes, key: Bytes, items: seq<Argv>, limit: nat): (cmds: seq<Argv>)
    requires limit >= 1
    ensures forall i :: 0 <= i < |cmds| ==> |cmds[i]| >= 2 && cmds[i][0] == name
    decreases |items|
  {
    if items == [] then []
    else
      var n := Min(limit, |items|);
      [[name, key] + Flatten(items[..n])] + Batches(name, key, items[n..], limit)
  }

  /** Every item has the same number of arguments: one element, or a pair. */
  predicate Uniform(items: seq<Argv>, width: nat) { forall i :: 0 <= i < |items| ==> |items[i]| == width }

  lemma {:induction false} FlattenLength(items: seq<Argv>, width: nat)
    requires Uniform(items, width)
    ensures |Flatten(items)| == width * |items|
  {
    if items != [] { FlattenLength(items[1..], width); }
  }

  lemma {:induction false} FlattenAppend(a: seq<Argv>, b: seq<Argv>)
    ensures Flatten(a + b) == Flatten(a) + Flatten(b)
  {
    if a == [] {
      assert a + b == b;
    } else {
      assert (a + b)[1..] == a[1..] + b;
      FlattenAppend(a[1..], b);
    }
  }

  lemma {:induction false} BulksAppend(a: Argv, b: Argv)
    ensures Bulks(a + b) == Bulks(a) + Bulks(b)
  {
    hide Bulk;
    if a == [] {
      assert a + b == b;
    } else {
      assert (a + b)[1..] == a[1..] + b;
      BulksAppend(a[1..], b);
    }
  }

  /** What the loop still owes: left items of the command under way, then whole commands. */
  ghost function Owed(name: Bytes, key: Bytes, items: seq<Argv>, left: nat, limit: nat): Bytes
    requires limit >= 1 && left <= |items|
  {
    Bulks(Flatten(items[..left])) + PrintAll(Batches(name, key, items[left..], limit))
  }

  lemma OwedItem(name: Bytes, key: Bytes, items: seq<Argv>, left: nat, limit: nat)
    requires limit >= 1 && 1 <= left <= |items|
    ensures Owed(name, key, items, left, limit) == Bulks(items[0]) + Owed(name, key, items[1..], left - 1, limit)
  {
    hide Bulks, PrintAll, Batches;
    assert items[..left][1..] == items[1..][..left - 1] && items[left..] == items[1..][left - 1..];
    BulksAppend(items[0], Flatten(items[1..][..left - 1]));
    ConcatAssoc(Bulks(items[0]), Bulks(Flatten(items[1..][..left - 1])), PrintAll(Batches(name, key, items[left..], limit)));
  }

  /** A new command: its header declares exactly the arguments that follow. */
  lemma OwedHeader(name: Bytes, key: Bytes, items: seq<Argv>, width: nat, limit: nat)
    requires limit >= 1 && items != [] && Uniform(items, width)
    ensures var n := Min(limit, |items|);
            Owed(name, key, items, 0, limit)
            == Header(2 + n * width) + Bulk(name) + Bulk(key) + Owed(name, key, items, n, limit)
  {
    hide Bulk, Bulks, Header, PrintAll, Flatten, Batches;
    var n := Min(limit, |items|);
    var args, rest := Flatten(items[..n]), PrintAll(Batches(name, key, items[n..], limit));
    FlattenLength(items[..n], width);
    BulksAppend([name, key], args);
    TwoBulks(name, key);
    OwedCommand(name, key, items, limit);
    var h, f := Header(2 + n * width), Bulk(name) + Bulk(key);
    assert h + (f + Bulks(args)) + rest == h + Bulk(name) + Bulk(key) + (Bulks(args) + rest);
  }

  lemma TwoBulks(name: Bytes, key: Bytes)
    ensures Bulks([name, key]) == Bulk(name) + Bulk(key)
  {
    hide Bulk;
    assert [name, key][1..] == [key];
    assert Bulks([key]) == Bulk(key) + [];
  }

  /** With nothing under way, what is owed starts with the next command. */
  lemma OwedCommand(name: Bytes, key: Bytes, items: seq<Argv>, limit: nat)
    requires limit >= 1 && items != []
    ensures var n := Min(limit, |items|);
            var argv := [name, key] + Flatten(items[..n]);
            Owed(name, key, items, 0, limit)
            == Header(|argv|) + Bulks(argv) + PrintAll(Batches(name, key, items[n..], limit))
  {
    hide Bulk, Header;
    assert items[0..] == items && items[..0] == [];
    var n := Min(limit, |items|);
    var all := Batches(name, key, items, limit);
    assert all[1..] == Batches(name, key, items[n..], limit);
    assert Bulks(Flatten([])) == [];
  }

  /**
   The loop of rewriteListObject, rewriteSetObject, rewriteSortedSetObject and
   rewriteHashObject: a header before every limit items, then the items.
   */
  method RewriteItems(name: Bytes, key: Bytes, items: seq<Argv>, width: nat, limit: nat) returns (out: Bytes)
    requires limit >= 1 && Uniform(items, width)
    ensures out == PrintAll(Batches(name, key, items, limit))
  {
    hide *;
    out := [];
    var count, remaining := 0, |items|;
    ghost var left := 0;
    ghost var target := PrintAll(Batches(name, key, items, limit));
    OwedNothing(name, key, items, limit);
    var i := 0;
    assert items[0..] == items;
    while i < |items|
      invariant 0 <= i <= |items| && remaining == |items| - i
      invariant 0 <= count < limit && left <= |items| - i
      invariant count == 0 ==> left == 0
      invariant count > 0 ==> left == if limit - count < |items| - i then limit - count else |items| - i
      invariant out + Owed(name, key, items[i..], left, limit) == target
    {
      var rest := items[i..];
      if count == 0 {
        var cmdItems := if remaining > limit then limit else remaining;
        assert Uniform(rest, width) by { UniformDrop(items, i, width); }
        OwedHeader(name, key, rest, width, limit);
        MinIs(limit, |rest|);
        ghost var before := out;
        out := out + Header(2 + cmdItems * width);
        out := out + Bulk(name);
        out := out + Bulk(key);
        left := cmdItems;
        Regroup(before, Header(2 + cmdItems * width), Bulk(name), Bulk(key), Owed(name, key, rest, left, limit));
      }
      OwedItem(name, key, rest, left, limit);
      ConcatAssoc(out, Bulks(items[i]), Owed(name, key, rest[1..], left - 1, limit));
      out := out + Bulks(items[i]);
      assert rest[1..] == items[i + 1..];
      left := left - 1;
      count := count + 1;
      if count == limit { count := 0; }
      remaining := remaining - 1;
      i := i + 1;
    }
    assert items[i..] == [];
    OwedNothing(name, key, [], limit);
  }

  lemma Regroup(a: Bytes, b: Bytes, c: Bytes, d: Bytes, e: Bytes)
    ensures a + (b + c + d + e) == a + b + c + d + e
  {
  }

  lemma MinIs(a: nat, b: nat)
    ensures Min(a, b) == if a < b then a else b
  {
  }

  lemma UniformDrop(items: seq<Argv>, i: nat, width: nat)
    requires Uniform(items, width) && i <= |items|
    ensures Uniform(items[i..], width)
  {
  }

  lemma OwedNothing(name: Bytes, key: Bytes, items: seq<Argv>, limit: nat)
    requires limit >= 1
    ensures Owed(name, key, items, 0, limit) == PrintAll(Batches(name, key, items, limit))
    ensures items == [] ==> Owed(name, key, items, 0, limit) == []
  {
    assert items[..0] == [] && items[0..] == items;
  }

  // ---------------------------------------------------------------- replaying batches

  predicate Builds(cmd: Command) { cmd == RPush || cmd == SAdd || cmd == ZAdd || cmd == HMSet }

  function Width(cmd: Command): nat { if cmd == ZAdd || cmd == HMSet then 2 else 1 }

  lemma {:induction false} AddPairsAppend(m: map<Bytes, Bytes>, a: Argv, b: Argv, scoreFirst: bool)
    requires |a| % 2 == 0
    ensures AddPairs(m, a + b, scoreFirst) == AddPairs(AddPairs(m, a, scoreFirst), b, scoreFirst)
    decreases |a|
  {
    if a == [] {
      assert a + b == b;
    } else {
      assert (a + b)[2..] == a[2..] + b;
      var m' := if scoreFirst then m[a[1] := a[0]] else m[a[0] := a[1]];
      AddPairsAppend(m', a[2..], b, scoreFirst);
    }
  }

  /** Two commands on a key do what one command with all the arguments does. */
  lemma ExtendAppend(cmd: Command, v: Option<Value>, a: Argv, b: Argv)
    requires Builds(cmd) && |a| % Width(cmd) == 0 && Extend(cmd, v, a).Some?
    ensures Extend(cmd, Extend(cmd, v, a), b) == Extend(cmd, v, a + b)
  {
    match cmd {
      case RPush => if v.Some? { ConcatAssoc(v.value.items, a, b); }
      case SAdd =>
        assert Elements(a + b) == Elements(a) + Elements(b);
        if v.Some? { assert v.value.members + Elements(a) + Elements(b) == v.value.members + Elements(a + b); }
      case ZAdd => AddPairsAppend(if v.Some? then v.value.scores else map[], a, b, true);
      case HMSet => AddPairsAppend(if v.Some? then v.value.fields else map[], a, b, false);
    }
  }

  function ValueOf(db: Db, key: Bytes): Option<Value> { if key in db then Some(db[key].value) else None }

  lemma ExtendKeyAppend(cmd: Command, db: Db, key: Bytes, a: Argv, b: Argv)
    requires Builds(cmd) && |a| % Width(cmd) == 0 && Extend(cmd, ValueOf(db, key), a).Some?
    requires Extend(cmd, ValueOf(db, key), a + b).Some?
    ensures var db' := ExtendKey(cmd, db, key, a);
            && ValueOf(db', key) == Extend(cmd, ValueOf(db, key), a)
            && Extend(cmd, ValueOf(db', key), b).Some?
            && ExtendKey(cmd, db', key, b) == ExtendKey(cmd, db, key, a + b)
  {
    ExtendAppend(cmd, ValueOf(db, key), a, b);
    hide Extend;
  }

  lemma ReplayBuild(env: Env, s: Session, name: Bytes, key: Bytes, args: Argv)
    requires Selects(s) && Builds(Lookup(env, name)) && args != []
    ensures Replay(env, s, [name, key] + args)
         == WithDb(s, ExtendKey(Lookup(env, name), s.dbs[s.selected], key, args))
  {
    hide Lookup, ExtendKey;
    var argv := [name, key] + args;
    assert argv[0] == name && argv[1] == key && argv[2..] == args;
  }

  lemma ExtendSome(cmd: Command, v: Option<Value>, a: Argv, b: Argv)
    requires Builds(cmd)
    ensures Extend(cmd, v, a).Some? <==> Extend(cmd, v, b).Some?
  {
  }

  /** Replaying the batches does what one command with all the items would do, for every batch limit. */
  lemma {:induction false} ReplayBatches(env: Env, s: Session, name: Bytes, key: Bytes, items: seq<Argv>, limit: nat)
    requires limit >= 1 && items != [] && Selects(s) && Builds(Lookup(env, name))
    requires Uniform(items, Width(Lookup(env, name)))
    requires Extend(Lookup(env, name), ValueOf(s.dbs[s.selected], key), Flatten(items)).Some?
    ensures ReplayAll(env, s, Batches(name, key, items, limit))
         == WithDb(s, ExtendKey(Lookup(env, name), s.dbs[s.selected], key, Flatten(items)))
    decreases |items|
  {
    hide Lookup, Extend, ExtendKey, Flatten, Replay;
    var cmd, db, n := Lookup(env, name), s.dbs[s.selected], Min(limit, |items|);
    var a, b := Flatten(items[..n]), Flatten(items[n..]);
    assert Flatten(items) == a + b by {
      FlattenAppend(items[..n], items[n..]);
      assert items == items[..n] + items[n..];
    }
    assert |a| == Width(cmd) * n by { FlattenLength(items[..n], Width(cmd)); }
    var s' := WithDb(s, ExtendKey(cmd, db, key, a));
    ReplayBuild(env, s, name, key, a);
    var rest := Batches(name, key, items[n..], limit);
    assert Batches(name, key, items, limit)[1..] == rest;
    assert ReplayAll(env, s, Batches(name, key, items, limit)) == ReplayAll(env, s', rest);
    ExtendSome(cmd, ValueOf(db, key), a + b, a);
    if items[n..] == [] {
      FlattenNone();
      assert a + b == a;
    } else {
      ExtendKeyAppend(cmd, db, key, a, b);
      ReplayBatches(env, s', name, key, items[n..], limit);
    }
  }

  lemma FlattenNone()
    ensures Flatten([]) == []
  {
  }

  // ---------------------------------------------------------------- one key

  function Singletons(items: seq<Bytes>): (r: seq<Argv>)
    ensures |r| == |items| && Uniform(r, 1)
  {
    seq(|items|, i requires 0 <= i < |items| => [items[i]])
  }

  function Pairs(m: map<Bytes, Bytes>, order: seq<Bytes>, scoreFirst: bool): (r: seq<Argv>)
    requires forall i :: 0 <= i < |order| ==> order[i] in m
    ensures |r| == |order| && Uniform(r, 2)
  {
    seq(|order|, i requires 0 <= i < |order| => if scoreFirst then [m[order[i]], order[i]] else [order[i], m[order[i]]])
  }

  /** An iteration over a set or over the keys of a map: every element once, in some order. */
  ghost predicate Iterates(order: seq<Bytes>, s: set<Bytes>)
  {
    Elements(order) == s && |order| == |s|
  }

  /** The elements that an iterator over the value must visit; a list has its own order. */
  function Parts(v: Value): set<Bytes>
  {
    match v
    case Set(members) => members
    case ZSet(scores) => scores.Keys
    case Hash(fields) => fields.Keys
    case _ => {}
  }

  /** The commands that rebuild a value under key, iterating in the given order. */
  function ValueCommands(key: Bytes, v: Value, order: seq<Bytes>): (cmds: seq<Argv>)
    requires forall i :: 0 <= i < |order| ==> order[i] in Parts(v)
    ensures forall i :: 0 <= i < |cmds| ==> |cmds[i]| >= 2
  {
    match v
    case Str(text) => [[SET, key, text]]
    case List(items) => Batches(RPUSH, key, Singletons(items), AOF_REWRITE_ITEMS_PER_CMD)
    case Set(members) => Batches(SADD, key, Singletons(order), AOF_REWRITE_ITEMS_PER_CMD)
    case ZSet(scores) => assert Parts(v) == scores.Keys; Batches(ZADD, key, Pairs(scores, order, true), AOF_REWRITE_ITEMS_PER_CMD)
    case Hash(fields) => assert Parts(v) == fields.Keys; Batches(HMSET, key, Pairs(fields, order, false), AOF_REWRITE_ITEMS_PER_CMD)
  }

  lemma MoreItems(width: nat, n: nat, limit: nat)
    requires 1 <= n <= limit
    ensures width <= width * n <= width * limit
  {
  }

  /** Every command but the last holds as many items as the limit allows, and the last one no more. */
  lemma {:induction false} BatchSizes(name: Bytes, key: Bytes, items: seq<Argv>, width: nat, limit: nat)
    requires limit >= 1 && Uniform(items, width)
    ensures var cmds := Batches(name, key, items, limit);
            && (forall i :: 0 <= i < |cmds| - 1 ==> |cmds[i]| == 2 + width * limit)
            && (items != [] ==> cmds != [] && 2 + width <= |cmds[|cmds| - 1]| <= 2 + width * limit)
    decreases |items|
  {
    if items != [] {
      var n := Min(limit, |items|);
      MinIs(limit, |items|);
      hide Flatten, Min;
      UniformDrop(items, n, width);
      FlattenLength(items[..n], width);
      MoreItems(width, n, limit);
      BatchSizes(name, key, items[n..], width, limit);
      var cmds, rest := Batches(name, key, items, limit), Batches(name, key, items[n..], limit);
      assert cmds == [[name, key] + Flatten(items[..n])] + rest;
      assert n < |items| ==> n == limit;
      assert n == |items| ==> items[n..] == [] && rest == [];
    }
  }

  /** A collection is written in commands of 64 elements, or 64 pairs, and one for what is left. */
  lemma ValueCommandSizes(key: Bytes, v: Value, order: seq<Bytes>)
    requires forall i :: 0 <= i < |order| ==> order[i] in Parts(v)
    ensures var cmds, width := ValueCommands(key, v, order), if v.ZSet? || v.Hash? then 2 else 1;
            !v.Str? ==>
              && (forall i :: 0 <= i < |cmds| - 1 ==> |cmds[i]| == 2 + 64 * width)
              && (cmds != [] ==> 2 + width <= |cmds[|cmds| - 1]| <= 2 + 64 * width)
  {
    hide Batches;
    match v
    case Str(_) =>
    case List(items) => SizesOf(RPUSH, key, Singletons(items), 1);
    case Set(_) => SizesOf(SADD, key, Singletons(order), 1);
    case ZSet(scores) =>
      assert Parts(v) == scores.Keys;
      SizesOf(ZADD, key, Pairs(scores, order, true), 2);
    case Hash(fields) =>
      assert Parts(v) == fields.Keys;
      SizesOf(HMSET, key, Pairs(fields, order, false), 2);
  }

  lemma SizesOf(name: Bytes, key: Bytes, items: seq<Argv>, width: nat)
    requires Uniform(items, width)
    ensures var cmds := Batches(name, key, items, AOF_REWRITE_ITEMS_PER_CMD);
            && (forall i :: 0 <= i < |cmds| - 1 ==> |cmds[i]| == 2 + 64 * width)
            && (cmds != [] ==> 2 + width <= |cmds[|cmds| - 1]| <= 2 + 64 * width)
  {
    BatchSizes(name, key, items, width, AOF_REWRITE_ITEMS_PER_CMD);
  }

  /** An empty collection is never stored: its key is deleted. */
  predicate NonEmpty(v: Value)
  {
    match v
    case Str(_) => true
    case List(items) => items != []
    case Set(members) => members != {}
    case ZSet(scores) => scores.Keys != {}
    case Hash(fields) => fields.Keys != {}
  }

  lemma {:induction false} FlattenSingletons(items: seq<Bytes>)
    ensures Flatten(Singletons(items)) == items
  {
    if items != [] {
      assert Singletons(items)[1..] == Singletons(items[1..]);
      FlattenSingletons(items[1..]);
      assert [items[0]] + items[1..] == items;
    }
  }

  function Visited(m: map<Bytes, Bytes>, order: seq<Bytes>): map<Bytes, Bytes>
  {
    map x | x in m && x in order :: m[x]
  }

  lemma PairsFirst(m: map<Bytes, Bytes>, order: seq<Bytes>, scoreFirst: bool)
    requires order != [] && forall i :: 0 <= i < |order| ==> order[i] in m
    ensures forall acc: map<Bytes, Bytes> ::
              AddPairs(acc, Flatten(Pairs(m, order, scoreFirst)), scoreFirst)
              == AddPairs(acc[order[0] := m[order[0]]], Flatten(Pairs(m, order[1..], scoreFirst)), scoreFirst)
  {
    var p := Pairs(m, order, scoreFirst);
    assert p[1..] == Pairs(m, order[1..], scoreFirst);
    assert Flatten(p)[2..] == Flatten(p[1..]);
    assert Flatten(p)[..2] == p[0];
  }

  /** Adding the pairs of an iteration over m adds exactly the entries visited. */
  lemma {:induction false} AddPairsOf(acc: map<Bytes, Bytes>, m: map<Bytes, Bytes>, order: seq<Bytes>, scoreFirst: bool)
    requires forall i :: 0 <= i < |order| ==> order[i] in m
    ensures AddPairs(acc, Flatten(Pairs(m, order, scoreFirst)), scoreFirst) == acc + Visited(m, order)
    decreases |order|
  {
    if order == [] {
      assert Visited(m, order) == map[];
    } else {
      var k, rest := order[0], order[1..];
      PairsFirst(m, order, scoreFirst);
      AddPairsOf(acc[k := m[k]], m, rest, scoreFirst);
      hide Flatten, Pairs, AddPairs;
      assert acc[k := m[k]] + Visited(m, rest) == acc + Visited(m, order);
    }
  }

  lemma WholeMap(m: map<Bytes, Bytes>, order: seq<Bytes>, scoreFirst: bool)
    requires Elements(order) == m.Keys
    ensures forall i :: 0 <= i < |order| ==> order[i] in m
    ensures AddPairs(map[], Flatten(Pairs(m, order, scoreFirst)), scoreFirst) == m
  {
    assert forall x :: x in order <==> x in Elements(order);
    assert forall i :: 0 <= i < |order| ==> order[i] in order;
    AddPairsOf(map[], m, order, scoreFirst);
    assert map[] + Visited(m, order) == m;
  }

  lemma LookupBuilders(env: Env)
    ensures Lookup(env, RPUSH) == RPush && Lookup(env, SADD) == SAdd
    ensures Lookup(env, ZADD) == ZAdd && Lookup(env, HMSET) == HMSet
  {
    assert Lower(RPUSH) == [114, 112, 117, 115, 104];
    assert Lower(SADD) == [115, 97, 100, 100];
    assert Lower(ZADD) == [122, 97, 100, 100];
    assert Lower(HMSET) == [104, 109, 115, 101, 116];
  }

  lemma ReplayCollection(env: Env, s: Session, name: Bytes, key: Bytes, items: seq<Argv>, v: Value)
    requires Selects(s) && key !in s.dbs[s.selected] && items != [] && Builds(Lookup(env, name))
    requires Uniform(items, Width(Lookup(env, name)))
    requires Extend(Lookup(env, name), None, Flatten(items)) == Some(v)
    ensures ReplayAll(env, s, Batches(name, key, items, AOF_REWRITE_ITEMS_PER_CMD))
         == WithDb(s, s.dbs[s.selected][key := Entry(v, None)])
  {
    hide Lookup, Extend, ReplayAll, Batches, Flatten;
    ReplayBatches(env, s, name, key, items, AOF_REWRITE_ITEMS_PER_CMD);
  }

  lemma ReplaySetValue(env: Env, s: Session, key: Bytes, text: Bytes)
    requires Selects(s)
    ensures ReplayAll(env, s, [[SET, key, text]]) == WithDb(s, s.dbs[s.selected][key := Entry(Str(text), None)])
  {
    LookupKeyCommands(env);
    hide Lookup, Replay, ReplayAll;
    var c := [SET, key, text];
    ReplaySet(env, s, c);
    ReplayTwo(env, s, c, c);
  }

  lemma ReplayList(env: Env, s: Session, key: Bytes, items: seq<Bytes>, set': bool, v: Value)
    requires Selects(s) && key !in s.dbs[s.selected] && items != []
    requires v == if set' then Set(Elements(items)) else List(items)
    ensures ReplayAll(env, s, Batches(if set' then SADD else RPUSH, key, Singletons(items), AOF_REWRITE_ITEMS_PER_CMD))
            == WithDb(s, s.dbs[s.selected][key := Entry(v, None)])
  {
    LookupBuilders(env);
    FlattenSingletons(items);
    hide Lookup, ReplayAll, Batches, Flatten, Selects;
    ReplayCollection(env, s, if set' then SADD else RPUSH, key, Singletons(items), v);
  }

  lemma ReplayMap(env: Env, s: Session, key: Bytes, m: map<Bytes, Bytes>, order: seq<Bytes>, zset: bool, v: Value)
    requires Selects(s) && key !in s.dbs[s.selected] && Elements(order) == m.Keys && order != []
    requires v == if zset then ZSet(m) else Hash(m)
    ensures forall i :: 0 <= i < |order| ==> order[i] in m
    ensures ReplayAll(env, s, Batches(if zset then ZADD else HMSET, key, Pairs(m, order, zset), AOF_REWRITE_ITEMS_PER_CMD))
            == WithDb(s, s.dbs[s.selected][key := Entry(v, None)])
  {
    LookupBuilders(env);
    WholeMap(m, order, zset);
    hide Lookup, ReplayAll, Batches, Flatten, Selects;
    ReplayCollection(env, s, if zset then ZADD else HMSET, key, Pairs(m, order, zset), v);
  }

  /** Replaying the commands of a value rebuilds exactly that value, whatever the iteration order. */
  lemma ReplayValue(env: Env, s: Session, key: Bytes, v: Value, order: seq<Bytes>)
    requires Selects(s) && key !in s.dbs[s.selected] && NonEmpty(v) && Iterates(order, Parts(v))
    ensures forall i :: 0 <= i < |order| ==> order[i] in Parts(v)
    ensures ReplayAll(env, s, ValueCommands(key, v, order)) == WithDb(s, s.dbs[s.selected][key := Entry(v, None)])
  {
    hide Lookup, ReplayAll, Batches, Flatten, Selects, WithDb, Elements, Singletons, Pairs;
    IteratesWithin(order, Parts(v));
    match v {
      case Str(text) => ReplaySetValue(env, s, key, text);
      case List(items) => ReplayList(env, s, key, items, false, v);
      case Set(members) => ReplayList(env, s, key, order, true, v);
      case ZSet(scores) => ReplayMap(env, s, key, scores, order, true, v);
      case Hash(fields) => ReplayMap(env, s, key, fields, order, false, v);
    }
  }

  lemma IteratesWithin(order: seq<Bytes>, s: set<Bytes>)
    requires Iterates(order, s)
    ensures forall i :: 0 <= i < |order| ==> order[i] in s
    ensures s != {} ==> order != []
  {
    assert forall i :: 0 <= i < |order| ==> order[i] in Elements(order);
  }

  function ExpireCommands(key: Bytes, expire: Option<int>): (cmds: seq<Argv>)
    ensures forall i :: 0 <= i < |cmds| ==> |cmds[i]| == 3
  {
    if expire.None? then []
    else [[PEXPIREAT, key, if expire.value >= 0 then Digits(expire.value) else [45] + Digits(-expire.value)]]
  }

  function EntryCommands(key: Bytes, e: Entry, order: seq<Bytes>): (cmds: seq<Argv>)
    requires forall i :: 0 <= i < |order| ==> order[i] in Parts(e.value)
    ensures forall i :: 0 <= i < |cmds| ==> |cmds[i]| >= 2
  {
    ValueCommands(key, e.value, order) + ExpireCommands(key, e.expire)
  }

  /** Expire times are non-negative long longs. */
  predicate LegalExpire(e: Option<int>) { e.Some? ==> 0 <= e.value <= LONG_MAX }

  lemma ReplayExpireTime(env: Env, s: Session, key: Bytes, e: Entry)
    requires Selects(s) && s.dbs[s.selected].Keys >= {key} && LegalExpire(e.expire)
    requires s.dbs[s.selected][key] == Entry(e.value, None)
    ensures ReplayAll(env, s, ExpireCommands(key, e.expire)) == WithDb(s, s.dbs[s.selected][key := e])
  {
    hide ReplayAll, Replay, Lookup;
    if e.expire.None? {
      ReplayNothing(env, s);
      assert s.dbs[s.selected][key := e] == s.dbs[s.selected];
    } else {
      var text := Digits(e.expire.value);
      var c := [PEXPIREAT, key, text];
      ReplayTwo(env, s, c, c);
      LookupKeyCommands(env);
      ReplayPExpireAt(env, s, c);
      assert Strtol(text) == e.expire.value by {
        StrtolOfDigits(e.expire.value, []);
        assert text + [] == text;
      }
    }
  }

  /** Replaying the commands of a key rebuilds its value and its expire time. */
  lemma ReplayEntry(env: Env, s: Session, key: Bytes, e: Entry, order: seq<Bytes>)
    requires Selects(s) && key !in s.dbs[s.selected] && NonEmpty(e.value) && Iterates(order, Parts(e.value))
    requires LegalExpire(e.expire)
    ensures forall i :: 0 <= i < |order| ==> order[i] in Parts(e.value)
    ensures ReplayAll(env, s, EntryCommands(key, e, order)) == WithDb(s, s.dbs[s.selected][key := e])
  {
    hide ReplayAll, ValueCommands, ExpireCommands, Iterates, NonEmpty;
    ReplayValue(env, s, key, e.value, order);
    var db := s.dbs[s.selected];
    var s' := WithDb(s, db[key := Entry(e.value, None)]);
    ReplayAllAppend(env, s, ValueCommands(key, e.value, order), ExpireCommands(key, e.expire));
    ReplayExpireTime(env, s', key, e);
    assert db[key := Entry(e.value, None)][key := e] == db[key := e];
  }

  lemma ReplayNothing(env: Env, s: Session)
    ensures ReplayAll(env, s, []) == s
  {
  }

  // ---------------------------------------------------------------- what is written can be read

  /** Commands that print and that the loader executes at once: known, and neither MULTI nor EXEC. */
  ghost predicate Loggable(env: Env, cmds: seq<Argv>)
  {
    AllPrintable(cmds) && forall i :: 0 <= i < |cmds| ==> Table(env)(cmds[i][0]) == AofLoad.Plain
  }

  lemma LoggableAppend(env: Env, a: seq<Argv>, b: seq<Argv>)
    requires Loggable(env, a) && Loggable(env, b)
    ensures Loggable(env, a + b)
  {
    hide Table, Printable;
  }

  predicate Short(a: Argv) { forall i :: 0 <= i < |a| ==> |a[i]| <= LONG_MAX }

  lemma {:induction false} FlattenShort(items: seq<Argv>)
    requires forall i :: 0 <= i < |items| ==> Short(items[i])
    ensures Short(Flatten(items))
  {
    if items != [] { FlattenShort(items[1..]); }
  }

  lemma BatchLoggable(env: Env, name: Bytes, key: Bytes, args: Argv)
    requires Builds(Lookup(env, name)) && |name| <= LONG_MAX && |key| <= LONG_MAX && Short(args) && |args| <= 128
    ensures Loggable(env, [[name, key] + args])
  {
    hide Lookup;
    var c := [name, key] + args;
    assert c[0] == name;
    assert Printable(c);
  }

  lemma {:induction false} BatchesLoggable(env: Env, name: Bytes, key: Bytes, items: seq<Argv>)
    requires Builds(Lookup(env, name)) && |name| <= LONG_MAX && |key| <= LONG_MAX
    requires Uniform(items, Width(Lookup(env, name))) && forall i :: 0 <= i < |items| ==> Short(items[i])
    ensures Loggable(env, Batches(name, key, items, AOF_REWRITE_ITEMS_PER_CMD))
    decreases |items|
  {
    hide Lookup, Loggable, Short;
    if items == [] {
      NoneLoggable(env);
    } else {
      var n := Min(AOF_REWRITE_ITEMS_PER_CMD, |items|);
      var args := Flatten(items[..n]);
      FlattenShort(items[..n]);
      FlattenLength(items[..n], Width(Lookup(env, name)));
      BatchLoggable(env, name, key, args);
      BatchesLoggable(env, name, key, items[n..]);
      LoggableAppend(env, [[name, key] + args], Batches(name, key, items[n..], AOF_REWRITE_ITEMS_PER_CMD));
    }
  }

  lemma NoneLoggable(env: Env)
    ensures Loggable(env, [])
  {
  }

  /** Every string of a key and its value has a length that fits a long. */
  ghost predicate Fits(key: Bytes, v: Value)
  {
    && |key| <= LONG_MAX
    && (match v
        case Str(text) => |text| <= LONG_MAX
        case List(items) => Short(items)
        case Set(members) => forall x :: x in members ==> |x| <= LONG_MAX
        case ZSet(scores) => forall x :: x in scores ==> |x| <= LONG_MAX && |scores[x]| <= LONG_MAX
        case Hash(fields) => forall x :: x in fields ==> |x| <= LONG_MAX && |fields[x]| <= LONG_MAX)
  }

  lemma ValueLoggable(env: Env, key: Bytes, v: Value, order: seq<Bytes>)
    requires Fits(key, v) && forall i :: 0 <= i < |order| ==> order[i] in Parts(v)
    ensures Loggable(env, ValueCommands(key, v, order))
  {
    LookupBuilders(env);
    LookupKeyCommands(env);
    hide Lookup, Batches;
    match v {
      case Str(text) =>
        assert Printable([SET, key, text]);
      case List(items) => BatchesLoggable(env, RPUSH, key, Singletons(items));
      case Set(members) => BatchesLoggable(env, SADD, key, Singletons(order));
      case ZSet(scores) =>
        assert Parts(v) == scores.Keys;
        BatchesLoggable(env, ZADD, key, Pairs(scores, order, true));
      case Hash(fields) =>
        assert Parts(v) == fields.Keys;
        BatchesLoggable(env, HMSET, key, Pairs(fields, order, false));
    }
  }

  lemma EntryLoggable(env: Env, key: Bytes, e: Entry, order: seq<Bytes>)
    requires Fits(key, e.value) && LegalExpire(e.expire)
    requires forall i :: 0 <= i < |order| ==> order[i] in Parts(e.value)
    ensures Loggable(env, EntryCommands(key, e, order))
  {
    ValueLoggable(env, key, e.value, order);
    assert Loggable(env, ExpireCommands(key, e.expire)) by {
      LookupKeyCommands(env);
      hide Lookup;
      if e.expire.Some? {
        DigitsOfLong(e.expire.value);
        assert Printable([PEXPIREAT, key, Digits(e.expire.value)]);
      }
    }
    hide Loggable, ValueCommands, ExpireCommands;
    LoggableAppend(env, ValueCommands(key, e.value, order), ExpireCommands(key, e.expire));
  }

  lemma SelectLoggable(env: Env, j: nat)
    requires j <= LONG_MAX
    ensures Loggable(env, [[SELECT, Digits(j)]])
  {
    LookupControl(env);
    hide Lookup;
    DigitsOfLong(j);
    assert Printable([SELECT, Digits(j)]);
  }

  lemma ReplaySelect(env: Env, s: Session, j: nat)
    requires j < |s.dbs| && j <= LONG_MAX
    ensures Replay(env, s, [SELECT, Digits(j)]) == s.(selected := j)
  {
    LookupControl(env);
    hide Lookup;
    StrtolOfDigits(j, []);
    assert Digits(j) + [] == Digits(j);
  }
}
