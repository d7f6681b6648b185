/**
 The child's rewrite of the whole dataset (aof.c, rewriteAppendOnlyFileRio):
 its output is a log that rebuilds the dataset, whatever order the iterators follow.
 */
module AofRewriter {
  import opened ByteStrings
  import opened AofLog
  import AofLoad
  import opened Dataset
  import opened AofFeed
  import opened AofRewrite

  /** A dictionary iterator: every element once, in an arbitrary order. */
  method Iterate(s: set<Bytes>) returns (order: seq<Bytes>)
    ensures Iterates(order, s)
  {
    order := [];
    var todo := s;
    while todo != {}
      invariant todo <= s && Iterates(order, s - todo)
      decreases |todo|
    {
      var x :| x in todo;
      ghost var before := order;
      order := order + [x];
      assert Elements(order) == Elements(before) + {x};
      assert s - (todo - {x}) == (s - todo) + {x};
      todo := todo - {x};
    }
    assert s - {} == s;
  }

  method RewriteValue(key: Bytes, v: Value) returns (out: Bytes, ghost order: seq<Bytes>)
    ensures Iterates(order, Parts(v))
    ensures forall i :: 0 <= i < |order| ==> order[i] in Parts(v)
    ensures out == PrintAll(ValueCommands(key, v, order))
  {
    hide Batches, Print;
    var visit := Iterate(Parts(v));
    order := visit;
    IteratesWithin(order, Parts(v));
    match v {
      case Str(text) =>
        out := Print([SET, key, text]);
        assert PrintAll([[SET, key, text]]) == out + PrintAll([]);
      case List(items) =>
        out := RewriteItems(RPUSH, key, Singletons(items), 1, AOF_REWRITE_ITEMS_PER_CMD);
      case Set(members) =>
        out := RewriteItems(SADD, key, Singletons(visit), 1, AOF_REWRITE_ITEMS_PER_CMD);
      case ZSet(scores) =>
        assert Parts(v) == scores.Keys;
        out := RewriteItems(ZADD, key, Pairs(scores, visit, true), 2, AOF_REWRITE_ITEMS_PER_CMD);
      case Hash(fields) =>
        assert Parts(v) == fields.Keys;
        out := RewriteItems(HMSET, key, Pairs(fields, visit, false), 2, AOF_REWRITE_ITEMS_PER_CMD);
    }
  }

  method RewriteEntry(key: Bytes, e: Entry) returns (out: Bytes, ghost order: seq<Bytes>)
    ensures Iterates(order, Parts(e.value))
    ensures forall i :: 0 <= i < |order| ==> order[i] in Parts(e.value)
    ensures out == PrintAll(EntryCommands(key, e, order))
  {
    hide ValueCommands, Print, Iterates;
    out, order := RewriteValue(key, e.value);
    AofLoad.PrintAllAppend(ValueCommands(key, e.value, order), ExpireCommands(key, e.expire));
    if e.expire.Some? {
      var text := if e.expire.value >= 0 then Digits(e.expire.value) else [45] + Digits(-e.expire.value);
      assert PrintAll([[PEXPIREAT, key, text]]) == Print([PEXPIREAT, key, text]) + PrintAll([]);
      out := out + Print([PEXPIREAT, key, text]);
    }
  }

  /** A dataset as the server keeps it: no empty collection, expire times and lengths within a long long. */
  ghost predicate StorableDb(db: Db)
  {
    forall key :: key in db ==> NonEmpty(db[key].value) && LegalExpire(db[key].expire) && Fits(key, db[key].value)
  }

  ghost predicate Storable(dbs: seq<Db>)
  {
    1 <= |dbs| <= INT_MAX && forall j :: 0 <= j < |dbs| ==> StorableDb(dbs[j])
  }

  function Part(db: Db, keys: set<Bytes>): Db { map k | k in db && k in keys :: db[k] }

  lemma PartGrows(db: Db, keys: set<Bytes>, key: Bytes)
    requires key in db && key !in keys
    ensures Part(db, keys + {key}) == Part(db, keys)[key := db[key]]
    ensures key !in Part(db, keys)
  {
  }

  lemma PrintMore(cmds: seq<Argv>, more: seq<Argv>)
    ensures PrintAll(cmds + more) == PrintAll(cmds) + PrintAll(more)
  {
    AofLoad.PrintAllAppend(cmds, more);
  }

  /** One more key: the log so far and the commands of the key. */
  lemma RewriteStep(env: Env, s: Session, cmds: seq<Argv>, db: Db, keys: set<Bytes>, key: Bytes, order: seq<Bytes>)
    requires Selects(s) && StorableDb(db) && key in db && key !in keys
    requires Loggable(env, cmds) && ReplayAll(env, s, cmds) == WithDb(s, Part(db, keys))
    requires Iterates(order, Parts(db[key].value))
    ensures forall i :: 0 <= i < |order| ==> order[i] in Parts(db[key].value)
    ensures var more := EntryCommands(key, db[key], order);
            && Loggable(env, cmds + more)
            && ReplayAll(env, s, cmds + more) == WithDb(s, Part(db, keys + {key}))
  {
    var e := db[key];
    var s' := WithDb(s, Part(db, keys));
    assert NonEmpty(e.value) && LegalExpire(e.expire) && Fits(key, e.value);
    PartGrows(db, keys, key);
    hide Part, NonEmpty, Fits, Iterates, EntryCommands, ReplayAll;
    ReplayEntry(env, s', key, e, order);
    EntryLoggable(env, key, e, order);
    ReplayAllAppend(env, s, cmds, EntryCommands(key, e, order));
    LoggableAppend(env, cmds, EntryCommands(key, e, order));
  }

  /** The inner loop: every key of the selected database. */
  method RewriteDb(ghost env: Env, db: Db, ghost s: Session) returns (out: Bytes, ghost cmds: seq<Argv>)
    requires Selects(s) && s.dbs[s.selected] == map[] && StorableDb(db)
    ensures out == PrintAll(cmds) && Loggable(env, cmds)
    ensures ReplayAll(env, s, cmds) == WithDb(s, db)
  {
    out, cmds := [], [];
    var todo := db.Keys;
    RewriteStart(env, s, db);
    hide Loggable, ReplayAll, PrintAll, EntryCommands, StorableDb;
    while todo != {}
      invariant todo <= db.Keys
      invariant out == PrintAll(cmds) && Loggable(env, cmds)
      invariant ReplayAll(env, s, cmds) == WithDb(s, Part(db, db.Keys - todo))
      decreases |todo|
    {
      var key :| key in todo;
      var text, order := RewriteEntry(key, db[key]);
      RewriteStep(env, s, cmds, db, db.Keys - todo, key, order);
      PrintMore(cmds, EntryCommands(key, db[key], order));
      assert db.Keys - (todo - {key}) == (db.Keys - todo) + {key};
      cmds := cmds + EntryCommands(key, db[key], order);
      out := out + text;
      todo := todo - {key};
    }
    assert Part(db, db.Keys - {}) == db;
  }

  lemma RewriteStart(env: Env, s: Session, db: Db)
    requires Selects(s) && s.dbs[s.selected] == map[]
    ensures PrintAll([]) == [] && Loggable(env, [])
    ensures ReplayAll(env, s, []) == WithDb(s, Part(db, db.Keys - db.Keys))
  {
    assert Part(db, db.Keys - db.Keys) == map[];
  }

  /** The databases of a server that has loaded nothing yet. */
  function Blank(n: nat): (dbs: seq<Db>)
    ensures |dbs| == n && forall j :: 0 <= j < n ==> dbs[j] == map[]
  {
    seq(n, j => map[])
  }

  /** The first j databases rebuilt, the others still empty. */
  function Rebuilt(dbs: seq<Db>, j: nat): (r: seq<Db>)
    requires j <= |dbs|
    ensures |r| == |dbs|
  {
    dbs[..j] + Blank(|dbs| - j)
  }

  /** The log so far, SELECT, and the commands of database j. */
  lemma RewriteDbStep(env: Env, dbs: seq<Db>, j: nat, cmds: seq<Argv>, more: seq<Argv>)
    requires j < |dbs| <= INT_MAX && Loggable(env, cmds) && Loggable(env, more)
    requires ReplayAll(env, Session(0, Blank(|dbs|)), cmds).dbs == Rebuilt(dbs, j)
    requires var s := Session(j, Rebuilt(dbs, j)); ReplayAll(env, s, more) == WithDb(s, dbs[j])
    ensures var all := cmds + [[SELECT, Digits(j)]] + more;
            Loggable(env, all) && ReplayAll(env, Session(0, Blank(|dbs|)), all).dbs == Rebuilt(dbs, j + 1)
  {
    hide Replay, Digits, ReplayAll, Blank;
    var start, select := Session(0, Blank(|dbs|)), [[SELECT, Digits(j)]];
    var s1 := ReplayAll(env, start, cmds);
    SelectLoggable(env, j);
    LoggableAppend(env, cmds, select);
    LoggableAppend(env, cmds + select, more);
    ReplayAllAppend(env, start, cmds, select);
    ReplayAllAppend(env, start, cmds + select, more);
    ReplayTwo(env, s1, select[0], select[0]);
    ReplaySelect(env, s1, j);
    RebuiltGrows(dbs, j);
  }

  lemma RebuiltGrows(dbs: seq<Db>, j: nat)
    requires j < |dbs|
    ensures Rebuilt(dbs, j)[j := dbs[j]] == Rebuilt(dbs, j + 1)
    ensures Rebuilt(dbs, j)[j] == map[]
    ensures dbs[j] == map[] ==> Rebuilt(dbs, j + 1) == Rebuilt(dbs, j)
  {
  }

  /** Does this log, loaded into empty databases, rebuild dbs? */
  ghost predicate Rebuilds(env: Env, cmds: seq<Argv>, dbs: seq<Db>)
  {
    Loggable(env, cmds) && ReplayAll(env, Session(0, Blank(|dbs|)), cmds).dbs == dbs
  }

  /** rewriteAppendOnlyFileRio */
  method RewriteAppendOnlyFileRio(ghost env: Env, dbs: seq<Db>) returns (out: Bytes, ghost cmds: seq<Argv>)
    requires Storable(dbs)
    ensures out == PrintAll(cmds) && Rebuilds(env, cmds, dbs)
  {
    out, cmds := [], [];
    RebuildStart(env, dbs);
    var j := 0;
    hide ReplayAll, PrintAll, Rebuilt, StorableDb, Digits, Print, WithDb;
    while j < |dbs|
      invariant 0 <= j <= |dbs|
      invariant out == PrintAll(cmds) && Loggable(env, cmds)
      invariant ReplayAll(env, Session(0, Blank(|dbs|)), cmds).dbs == Rebuilt(dbs, j)
    {
      RebuiltGrows(dbs, j);
      if |dbs[j]| != 0 {
        var text, more := RewriteDb(env, dbs[j], Session(j, Rebuilt(dbs, j)));
        RewriteDbStep(env, dbs, j, cmds, more);
        PrintSelected(cmds, [SELECT, Digits(j)], more);
        cmds := cmds + [[SELECT, Digits(j)]] + more;
        out := out + Print([SELECT, Digits(j)]);
        out := out + text;
      }
      j := j + 1;
    }
    RebuildEnd(dbs);
  }

  lemma PrintSelected(cmds: seq<Argv>, c: Argv, more: seq<Argv>)
    ensures PrintAll(cmds + [c] + more) == PrintAll(cmds) + Print(c) + PrintAll(more)
  {
    assert PrintAll([c]) == Print(c) by { assert PrintAll([c]) == Print(c) + []; }
    hide PrintAll, Print;
    PrintMore(cmds, [c]);
    PrintMore(cmds + [c], more);
  }

  lemma RebuildStart(env: Env, dbs: seq<Db>)
    ensures PrintAll([]) == [] && Loggable(env, [])
    ensures ReplayAll(env, Session(0, Blank(|dbs|)), []).dbs == Rebuilt(dbs, 0)
  {
    assert Rebuilt(dbs, 0) == Blank(|dbs|);
  }

  lemma RebuildEnd(dbs: seq<Db>)
    ensures Rebuilt(dbs, |dbs|) == dbs
  {
  }
}
