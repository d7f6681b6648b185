/**
 What a crash leaves of the last command or transaction: the file ends anywhere
 in the bytes it wrote, and the server starts again from what is there.
 */
module AofCrash {
  import opened Basics
  import opened ByteStrings
  import opened AofLog
  import opened AofLoad
  import opened Dataset
  import opened AofFeed
  import opened AofRewrite
  import opened AofRewriter
  import opened AofServer
  import opened AofBatch
  import opened AofProtocol
  import AofCommands

  // ---------------------------------------------------------------- what a transaction writes

  lemma ItemWritten(env: Env, now: nat, b: Batch, item: Item) returns (more: seq<Argv>)
    requires Lawful(env) && |b.dbs| <= INT_MAX && DoItem(env, now, b, item).Some?
    ensures Loggable(env, more)
    ensures var b' := DoItem(env, now, b, item).value; b'.written == b.written + more && |b'.dbs| == |b.dbs|
  {
    hide Perform, Translate, FeedAssertion, Lookup, Loggable, Digits, Lawful;
    var here := Session(item.dictid, b.dbs);
    PerformedLoggable(env, now, here, item.argv);
    PerformKeepsCount(env, now, here, item.argv);
    var logged := Perform(env, now, here, item.argv).value.1;
    SelectsLoggable(env, item.dictid, b.selected);
    var select := if item.dictid != b.selected then [[SELECT, Digits(item.dictid)]] else [];
    LoggableAppend(env, select, Translate(env, now, logged));
    more := select + Translate(env, now, logged);
  }

  lemma {:induction false} ItemsWritten(env: Env, now: nat, b: Batch, items: seq<Item>) returns (more: seq<Argv>)
    requires Lawful(env) && |b.dbs| <= INT_MAX && DoItems(env, now, b, items).Some?
    ensures Loggable(env, more)
    ensures var b' := DoItems(env, now, b, items).value; b'.written == b.written + more && |b'.dbs| == |b.dbs|
    decreases |items|
  {
    hide DoItem, Loggable, Lawful;
    if items == [] {
      NoneLoggable(env);
      more := [];
      assert b.written + [] == b.written;
    } else {
      var first := ItemWritten(env, now, b, items[0]);
      var rest := ItemsWritten(env, now, DoItem(env, now, b, items[0]).value, items[1..]);
      LoggableAppend(env, first, rest);
      ConcatAssoc(b.written, first, rest);
      more := first + rest;
    }
  }

  function Selecting(dictid: nat, selected: int): seq<Argv>
  {
    if dictid != selected then [[SELECT, Digits(dictid)]] else []
  }

  /** MULTI first, EXEC last, and in between nothing the loader takes for either. */
  lemma TransactionWritten(env: Env, now: nat, dbs: seq<Db>, selected: int, multiDb: nat, items: seq<Item>, execDb: nat)
    returns (more: seq<Argv>)
    requires Lawful(env) && |dbs| <= INT_MAX && DoTransaction(env, now, Start(dbs, selected), multiDb, items, execDb).Some?
    ensures Loggable(env, more)
    ensures DoTransaction(env, now, Start(dbs, selected), multiDb, items, execDb).value.written
            == Selecting(multiDb, selected) + [[MULTI]] + more + [[EXEC]]
  {
    hide Loggable, Lawful, DoItems, Digits;
    var b1 := DoMark(Start(dbs, selected), multiDb, MULTI).value;
    var first := ItemsWritten(env, now, b1, items);
    var b2 := DoItems(env, now, b1, items).value;
    SelectsLoggable(env, execDb, b2.selected);
    var last := if execDb != b2.selected then [[SELECT, Digits(execDb)]] else [];
    LoggableAppend(env, first, last);
    more := first + last;
    assert b1.written == Selecting(multiDb, selected) + [[MULTI]];
    assert b1.written + first + last + [[EXEC]] == b1.written + (first + last) + [[EXEC]];
  }

  // ---------------------------------------------------------------- all or nothing

  lemma LoggablePrefix(env: Env, cmds: seq<Argv>, k: nat)
    requires Loggable(env, cmds) && k <= |cmds|
    ensures Loggable(env, cmds[..k]) && AllKnown(Table(env), cmds[..k])
  {
    hide Table;
  }

  /** The loader has run nothing of a transaction before it has read its EXEC. */
  lemma CutTransactionRuns(env: Env, done: seq<Argv>, select: seq<Argv>, more: seq<Argv>, k: nat)
    requires Loggable(env, select) && Loggable(env, more)
    requires k < |select + [[MULTI]] + more + [[EXEC]]|
    ensures AllKnown(Table(env), (select + [[MULTI]] + more + [[EXEC]])[..k])
    ensures RunAll(Table(env), Client(false, [], done), (select + [[MULTI]] + more + [[EXEC]])[..k]).executed
            == done + if k <= |select| then select[..k] else select
  {
    var written, c := select + [[MULTI]] + more + [[EXEC]], Client(false, [], done);
    hide Table, RunAll, Loggable, AllKnown;
    if k <= |select| {
      LoggablePrefix(env, select, k);
      assert written[..k] == select[..k];
      RunLoggable(env, c, select[..k]);
    } else {
      var j := k - |select| - 1;
      LoggablePrefix(env, select, |select|);
      LoggablePrefix(env, more, j);
      assert select[..|select|] == select;
      assert written[..k] == select + [[MULTI]] + more[..j];
      RunLoggable(env, c, select);
      MultiRuns(env, c, select);
      RunMore(env, c, select + [[MULTI]], more[..j]);
    }
  }

  lemma MultiRuns(env: Env, c: Client, select: seq<Argv>)
    requires Loggable(env, select) && AllKnown(Table(env), select) && !c.inMulti
    ensures AllKnown(Table(env), select + [[MULTI]])
    ensures RunAll(Table(env), c, select + [[MULTI]]) == Client(true, [], c.executed + select)
  {
    LookupControl(env);
    assert Table(env)(MULTI) == AofLoad.Multi && Printable([MULTI]);
    hide Lookup, Table, RunAll;
    KnownAppend(env, select, [[MULTI]]);
    RunAllAppend(Table(env), c, select, [[MULTI]]);
    RunLoggable(env, c, select);
    RunOne(Table(env), RunAll(Table(env), c, select), [MULTI]);
  }

  /** A SELECT, whole or missing, changes no database. */
  lemma SelectChangesNothing(env: Env, s: Session, dbs: seq<Db>, selected: int, dictid: nat, k: nat)
    requires InStep(s, dbs, selected) && dictid < |dbs| <= INT_MAX && k <= |Selecting(dictid, selected)|
    ensures forall i :: 0 <= i < k ==> |Selecting(dictid, selected)[i]| >= 1
    ensures ReplayAll(env, s, Selecting(dictid, selected)[..k]).dbs == dbs
  {
    hide ReplayAll, Digits;
    SelectLeads(env, s, dbs, selected, dictid);
    ReplayNothing(env, s);
    var select := Selecting(dictid, selected);
    assert select[..|select|] == select && select[..0] == [];
  }

  /**
   A transaction is restored wholly or not at all: what the loader runs of any
   number of its commands, short of all of them, leaves the databases as they
   were before it.
   */
  lemma TransactionAllOrNothing(env: Env, now: nat, dbs: seq<Db>, selected: int, multiDb: nat, items: seq<Item>, execDb: nat,
                                done: seq<Argv>, s: Session, k: nat) returns (ran: seq<Argv>)
    requires Lawful(env) && |dbs| <= INT_MAX && InStep(s, dbs, selected)
    requires DoTransaction(env, now, Start(dbs, selected), multiDb, items, execDb).Some?
    requires k <= |DoTransaction(env, now, Start(dbs, selected), multiDb, items, execDb).value.written|
    ensures forall i :: 0 <= i < |ran| ==> |ran[i]| >= 1
    ensures var b := DoTransaction(env, now, Start(dbs, selected), multiDb, items, execDb).value;
            && AllKnown(Table(env), b.written[..k])
            && RunAll(Table(env), Client(false, [], done), b.written[..k]).executed == done + ran
            && ReplayAll(env, s, ran).dbs == if k < |b.written| then dbs else b.dbs
  {
    var b := DoTransaction(env, now, Start(dbs, selected), multiDb, items, execDb).value;
    assert multiDb < |dbs|;
    hide DoTransaction, Lawful, Table, RunAll, ReplayAll, Digits, Loggable, AllKnown;
    if k < |b.written| {
      var more := TransactionWritten(env, now, dbs, selected, multiDb, items, execDb);
      var select := Selecting(multiDb, selected);
      SelectsLoggable(env, multiDb, selected);
      CutTransactionRuns(env, done, select, more, k);
      var j := if k <= |select| then k else |select|;
      assert select[..|select|] == select;
      SelectChangesNothing(env, s, dbs, selected, multiDb, j);
      ran := select[..j];
    } else {
      TransactionLeads(env, now, dbs, selected, multiDb, items, execDb);
      assert b.written[..k] == b.written;
      assert LoadsFrom(env, b, false, done);
      ran := b.executed;
      var c := RunAll(Table(env), Client(false, [], done), b.written);
      assert c.executed + [] == c.executed;
      assert InStep(ReplayAll(env, s, b.executed), b.dbs, b.selected);
    }
  }

  // ---------------------------------------------------------------- one command

  /** A key set to a string, with or without an expire time. */
  function WithString(s: Session, key: Bytes, v: Bytes, expire: Option<nat>): Session
    requires Selects(s)
  {
    WithDb(s, s.dbs[s.selected][key := Entry(Str(v), expire)])
  }

  /** The two commands SETEX, PSETEX and SET with a time to live are written as: the string, then the expire time. */
  ghost predicate InTwoParts(env: Env, s: Session, key: Bytes, v: Bytes, when: nat, cmds: seq<Argv>, s': Session)
    requires Selects(s)
  {
    && |cmds| == 2 && |cmds[0]| >= 1
    && Replay(env, s, cmds[0]) == WithString(s, key, v, None) && s' == WithString(s, key, v, Some(when))
  }

  lemma SetInParts(env: Env, now: nat, s: Session, argv: Argv) returns (v: Bytes, when: nat)
    requires Selects(s) && |argv| >= 1 && Lookup(env, argv[0]) == SetKey
    requires PerformSet(now, s.dbs[s.selected], argv).Some? && FeedAssertion(env, argv)
    ensures var r := PerformSet(now, s.dbs[s.selected], argv).value;
            && |argv| >= 2 && r.logged == argv
            && var cmds := Translate(env, now, argv);
               |cmds| == 1 || InTwoParts(env, s, argv[1], v, when, cmds, WithDb(s, r.db))
  {
    hide Lookup, ParseSet, ScanUnit, MixedUnits, Replay, ReplayAll, ExpireAtCommand, PositiveText;
    var set3 := argv[..3];
    var o := ParseSet(argv, 3, NoOptions).value;
    ScansOfSet(now, s.dbs[s.selected], argv);
    v, when := argv[2], 0;
    if o.ttl.None? {
      assert Translate(env, now, argv) == [set3] by { assert |argv| == 3 ==> argv == set3; }
    } else {
      when := Deadline(TtlCommand(o), now, o.ttl.value);
      assert Translate(env, now, argv) == [set3, ExpireAtCommand(TtlCommand(o), now, argv[1], o.ttl.value)];
      ReplaySet(env, s, set3);
    }
  }

  lemma SetExInParts(env: Env, now: nat, s: Session, argv: Argv) returns (v: Bytes, when: nat)
    requires Selects(s) && |argv| >= 1 && Lookup(env, argv[0]) in {SetEx, PSetEx}
    requires PerformSetEx(Lookup(env, argv[0]), now, s.dbs[s.selected], argv).Some?
    ensures var r := PerformSetEx(Lookup(env, argv[0]), now, s.dbs[s.selected], argv).value;
            && |argv| >= 2 && r.logged == argv
            && InTwoParts(env, s, argv[1], v, when, Translate(env, now, argv), WithDb(s, r.db))
  {
    LookupKeyCommands(env);
    hide Lookup, Strtol, Replay, ExpireAtCommand;
    v, when := argv[3], Deadline(Lookup(env, argv[0]), now, argv[2]);
    ReplaySet(env, s, [SET, argv[1], argv[3]]);
  }

  lemma ExpireInOnePart(env: Env, now: nat, s: Session, argv: Argv)
    requires Selects(s) && |argv| >= 1 && Lookup(env, argv[0]) in {Expire, PExpire, ExpireAt, PExpireAt}
    requires PerformExpire(Lookup(env, argv[0]), now, s.dbs[s.selected], argv).Some?
    ensures var r := PerformExpire(Lookup(env, argv[0]), now, s.dbs[s.selected], argv).value;
            |r.logged| >= 1 && |Translate(env, now, r.logged)| == 1
  {
    LookupKeyCommands(env);
    hide Lookup, Deadline, ExpireAtCommand;
  }

  /** Every command is written as one command or in these two parts. */
  lemma InParts(env: Env, now: nat, s: Session, argv: Argv) returns (v: Bytes, when: nat)
    requires Selects(s) && |argv| >= 1 && Perform(env, now, s, argv).Some? && FeedAssertion(env, argv)
    ensures var (s', logged) := Perform(env, now, s, argv).value;
            && |logged| >= 1
            && var cmds := Translate(env, now, logged);
               |cmds| == 1 || (|argv| >= 2 && InTwoParts(env, s, argv[1], v, when, cmds, s'))
  {
    hide Lookup, PerformSet, PerformSetEx, PerformExpire, Replay, InTwoParts, FeedAssertion;
    var cmd := Lookup(env, argv[0]);
    v, when := [], 0;
    if cmd == SetKey {
      v, when := SetInParts(env, now, s, argv);
    } else if cmd == SetEx || cmd == PSetEx {
      v, when := SetExInParts(env, now, s, argv);
    } else if cmd == Expire || cmd == PExpire || cmd == ExpireAt || cmd == PExpireAt {
      ExpireInOnePart(env, now, s, argv);
    }
  }

  /** What one command writes, and what of it the loader runs: whole commands are run as they are read. */
  lemma CommandWritten(env: Env, now: nat, dbs: seq<Db>, selected: int, item: Item, done: seq<Argv>, k: nat)
    requires Lawful(env) && |dbs| <= INT_MAX && DoItem(env, now, Start(dbs, selected), item).Some?
    requires k <= |DoItem(env, now, Start(dbs, selected), item).value.written|
    ensures var b := DoItem(env, now, Start(dbs, selected), item).value;
            && AllKnown(Table(env), b.written[..k])
            && RunAll(Table(env), Client(false, [], done), b.written[..k]).executed == done + b.written[..k]
  {
    hide DoItem, Lawful, Table, RunAll, Loggable, AllKnown;
    var b := DoItem(env, now, Start(dbs, selected), item).value;
    var more := ItemWritten(env, now, Start(dbs, selected), item);
    assert [] + more == more;
    LoggablePrefix(env, more, k);
    RunLoggable(env, Client(false, [], done), more[..k]);
  }

  /** SELECT and the first part. */
  lemma FirstPart(env: Env, s: Session, dbs: seq<Db>, selected: int, dictid: nat, c: Argv)
    requires InStep(s, dbs, selected) && dictid < |dbs| <= INT_MAX && |c| >= 1
    ensures forall i :: 0 <= i < |Selecting(dictid, selected)| ==> |Selecting(dictid, selected)[i]| >= 1
    ensures ReplayAll(env, s, Selecting(dictid, selected) + [c]) == Replay(env, Session(dictid, dbs), c)
  {
    hide Replay, ReplayAll, Digits;
    SelectLeads(env, s, dbs, selected, dictid);
    ReplayTwo(env, Session(dictid, dbs), c, c);
    ReplayAllAppend(env, s, Selecting(dictid, selected), [c]);
  }

  /** What replaying the first k commands of select + cmds leaves: the databases before, those after, or a key without its expire time. */
  ghost predicate Leaves(dbs: seq<Db>, after: seq<Db>, dictid: nat, argv: Argv, v: Bytes, when: nat, k: nat, n: nat, parts: nat, left: seq<Db>)
    requires dictid < |dbs|
  {
    if k == n then left == after
    else if parts == 1 || k < n - 1 then left == dbs
    else
      && |argv| >= 2
      && var db, key := dbs[dictid], argv[1];
         && left == dbs[dictid := db[key := Entry(Str(v), None)]]
         && after == dbs[dictid := db[key := Entry(Str(v), Some(when))]] != left
         && (left == dbs <==> key in db && db[key] == Entry(Str(v), None))
  }

  lemma CommandLeaves(env: Env, s: Session, dbs: seq<Db>, selected: int, dictid: nat, argv: Argv, v: Bytes, when: nat,
                      cmds: seq<Argv>, after: seq<Db>, k: nat)
    requires InStep(s, dbs, selected) && dictid < |dbs| <= INT_MAX && k <= |Selecting(dictid, selected) + cmds|
    requires |cmds| == 1 || (|argv| >= 2 && InTwoParts(env, Session(dictid, dbs), argv[1], v, when, cmds, Session(dictid, after)))
    requires forall i :: 0 <= i < |cmds| ==> |cmds[i]| >= 1
    requires ReplayAll(env, s, Selecting(dictid, selected) + cmds).dbs == after
    ensures Leaves(dbs, after, dictid, argv, v, when, k, |Selecting(dictid, selected) + cmds|, |cmds|,
                   ReplayAll(env, s, (Selecting(dictid, selected) + cmds)[..k]).dbs)
  {
    hide ReplayAll, Replay, Digits, InTwoParts, InStep;
    var here, select := Session(dictid, dbs), Selecting(dictid, selected);
    var written := select + cmds;
    if |cmds| != 1 { SecondMissing(env, here, argv, v, when, cmds, after); }
    if k == |written| {
      assert written[..k] == written;
    } else if k <= |select| {
      SelectChangesNothing(env, s, dbs, selected, dictid, k);
      assert written[..k] == select[..k];
    } else {
      FirstPart(env, s, dbs, selected, dictid, cmds[0]);
      assert written[..k] == select + [cmds[0]];
    }
  }

  /**
   One command is restored wholly or not at all, if and only if the file does not
   end between the two parts it is written in, or the key already held the
   string without an expire time. Where it does, the key is left with the new
   value and without its expire time.
   */
  lemma CommandAllOrNothing(env: Env, now: nat, dbs: seq<Db>, selected: int, item: Item, done: seq<Argv>, s: Session, k: nat)
    returns (v: Bytes, when: nat)
    requires Lawful(env) && |dbs| <= INT_MAX && InStep(s, dbs, selected)
    requires DoItem(env, now, Start(dbs, selected), item).Some?
    requires k <= |DoItem(env, now, Start(dbs, selected), item).value.written|
    ensures var b := DoItem(env, now, Start(dbs, selected), item).value;
            && item.dictid < |dbs| && |Selecting(item.dictid, selected)| < |b.written| <= |Selecting(item.dictid, selected)| + 2
            && AllKnown(Table(env), b.written[..k])
            && RunAll(Table(env), Client(false, [], done), b.written[..k]).executed == done + b.written[..k]
            && Leaves(dbs, b.dbs, item.dictid, item.argv, v, when, k, |b.written|, |b.written| - |Selecting(item.dictid, selected)|,
                      ReplayAll(env, s, b.written[..k]).dbs)
  {
    CommandWritten(env, now, dbs, selected, item, done, k);
    var cmds := ItemIs(env, now, dbs, selected, item);
    var here := Session(item.dictid, dbs);
    hide *;
    v, when := InParts(env, now, here, item.argv);
    FedLeads(env, now, s, dbs, selected, item);
    CommandLeaves(env, s, dbs, selected, item.dictid, item.argv, v, when, cmds, DoItem(env, now, Start(dbs, selected), item).value.dbs, k);
  }

  lemma ItemIs(env: Env, now: nat, dbs: seq<Db>, selected: int, item: Item) returns (cmds: seq<Argv>)
    requires DoItem(env, now, Start(dbs, selected), item).Some?
    ensures item.dictid < |dbs| && Printable(item.argv) && FeedAssertion(env, item.argv)
    ensures Perform(env, now, Session(item.dictid, dbs), item.argv).Some?
    ensures var b, (s', logged) := DoItem(env, now, Start(dbs, selected), item).value, Perform(env, now, Session(item.dictid, dbs), item.argv).value;
            && |logged| >= 1 && cmds == Translate(env, now, logged) && b.dbs == s'.dbs
            && b.written == Selecting(item.dictid, selected) + cmds == FedCommands(env, now, selected, item.dictid, logged)
    ensures Lawful(env) && |dbs| <= INT_MAX ==>
              Perform(env, now, Session(item.dictid, dbs), item.argv).value.0 == Session(item.dictid, DoItem(env, now, Start(dbs, selected), item).value.dbs)
  {
    hide Lawful, Perform, Translate, FeedAssertion, Lookup, Digits;
    cmds := Translate(env, now, Perform(env, now, Session(item.dictid, dbs), item.argv).value.1);
    var select := Selecting(item.dictid, selected);
    assert [] + (select + cmds) == select + cmds;
    PerformSelects(env, now, Session(item.dictid, dbs), item.argv);
  }

  lemma PerformSelects(env: Env, now: nat, s: Session, argv: Argv)
    requires Selects(s) && |argv| >= 1 && Perform(env, now, s, argv).Some?
    ensures Perform(env, now, s, argv).value.0.selected == s.selected
  {
    hide Lookup, PerformSet, PerformSetEx, PerformExpire;
  }

  lemma SecondMissing(env: Env, here: Session, argv: Argv, v: Bytes, when: nat, cmds: seq<Argv>, dbs: seq<Db>)
    requires Selects(here) && |argv| >= 2 && InTwoParts(env, here, argv[1], v, when, cmds, Session(here.selected, dbs))
    ensures |cmds| == 2 && |cmds[0]| >= 1
    ensures var db, key, left := here.dbs[here.selected], argv[1], Replay(env, here, cmds[0]).dbs;
            && left == here.dbs[here.selected := db[key := Entry(Str(v), None)]]
            && dbs == here.dbs[here.selected := db[key := Entry(Str(v), Some(when))]] != left
            && (left == here.dbs <==> key in db && db[key] == Entry(Str(v), None))
  {
    hide Replay;
    var db, key := here.dbs[here.selected], argv[1];
    var left := here.dbs[here.selected := db[key := Entry(Str(v), None)]];
    assert left[here.selected][key] == Entry(Str(v), None);
    assert here.dbs[here.selected := db[key := Entry(Str(v), Some(when))]][here.selected][key].expire == Some(when);
    if key in db && db[key] == Entry(Str(v), None) { assert db[key := Entry(Str(v), None)] == db; }
  }

  const SETEX := AofCommands.SETEX

  /** The failing input: SETEX k 10 v on an empty database, of which only the first part is in the file, leaves a key that never expires. */
  lemma HalfSetEx(env: Env, now: nat, k: Bytes, v: Bytes)
    requires now + 10000 <= LONG_MAX && |k| <= LONG_MAX && |v| <= LONG_MAX
    ensures var cmds := [[SET, k, v], [PEXPIREAT, k, Digits(now + 10000)]];
            DoItem(env, now, Start([map[]], 0), Item(0, [SETEX, k, Digits(10), v]))
            == Some(Batch([map[k := Entry(Str(v), Some(now + 10000))]], cmds, cmds, 0))
    ensures ReplayAll(env, Session(0, [map[]]), [[SET, k, v]]) == Session(0, [map[k := Entry(Str(v), None)]])
  {
    hide Lookup, Digits, Replay, ReplayAll, Perform, Translate;
    var argv, empty := [SETEX, k, Digits(10), v], Session(0, [map[]]);
    assert Printable(argv) && FeedAssertion(env, argv) by {
      DigitsOfLong(10);
      AofCommands.SetExNames(env);
      assert |SETEX| == 5;
    }
    AofCommands.SetExMeans(env, now, empty, k, v, 10);
    var cmds: seq<Argv> := [[SET, k, v], [PEXPIREAT, k, Digits(now + 10000)]];
    assert [] + cmds == cmds;
    assert empty.dbs[0 := map[][k := Entry(Str(v), Some(now + 10000))]] == [map[k := Entry(Str(v), Some(now + 10000))]];
    LookupKeyCommands(env);
    ReplaySet(env, empty, [SET, k, v]);
    ReplayTwo(env, empty, [SET, k, v], [SET, k, v]);
    assert WithDb(empty, map[][k := Entry(Str(v), None)]).dbs == [map[k := Entry(Str(v), None)]];
  }

  // ---------------------------------------------------------------- crashes of a run

  lemma PrintedMore(all: seq<Argv>, i: nat, j: nat)
    requires i <= j <= |all|
    ensures |PrintAll(all[..i])| <= |PrintAll(all[..j])|
  {
    hide PrintAll;
    PrintedPrefix(all[..j], i);
    assert all[..j][..i] == all[..i];
  }

  /** A file that ends inside the bytes of the commands from a to b: the loader runs the first k commands, k among them. */
  lemma CutBetween(table: CommandTable, all: seq<Argv>, a: nat, b: nat, m: nat) returns (k: nat)
    requires AllKnown(table, all) && a <= b <= |all| && 0 < m && |PrintAll(all[..a])| <= m < |PrintAll(all[..b])|
    ensures a <= k < b && |PrintAll(all[..k])| <= m < |PrintAll(all[..k + 1])| && m <= |PrintAll(all)|
    ensures var r := Load(table, Truncating, PrintAll(all)[..m]);
            r.Loaded? && r.executed == RunAll(table, FreshClient, all[..k]).executed
  {
    hide PrintAll, Load, RunAll, HoldsMulti;
    PrintedMore(all, b, |all|);
    assert all[..|all|] == all;
    var k', _ := EveryPrefix(table, Truncating, all, m);
    k := k';
    if k < a { PrintedMore(all, k + 1, a); }
    if k >= b { PrintedMore(all, b, k); }
  }

  lemma Slices(log: seq<Argv>, w: seq<Argv>, all: seq<Argv>, j: nat)
    requires log + w <= all && j <= |w|
    ensures |log| + |w| <= |all| && all[..|log|] == log && all[..|log| + |w|] == log + w && all[..|log| + j] == log + w[..j]
  {
    assert all[..|log + w|] == log + w;
    assert (log + w)[..|log| + j] == log + w[..j];
    assert all[..|log| + j] == all[..|log + w|][..|log| + j];
  }

  /** The databases a server has after it loaded these bytes, cutting off a damaged end. */
  ghost predicate Restores(env: Env, bytes: Bytes, dbs: seq<Db>)
  {
    match Load(Table(env), Truncating, bytes)
    case EmptyLog => dbs == Blank(|dbs|)
    case Loaded(executed, _) =>
      (forall i :: 0 <= i < |executed| ==> |executed[i]| >= 1) && ReplayAll(env, Session(0, Blank(|dbs|)), executed).dbs == dbs
    case _ => false
  }

  /** The log before, and what the loader runs of the commands behind it. */
  lemma RunBehind(env: Env, log: seq<Argv>, live: seq<Db>, selected: int, w: seq<Argv>, ran: seq<Argv>, left: seq<Db>)
    requires Describes(env, log, live, selected) && AllKnown(Table(env), w) && |left| == |live|
    requires forall i :: 0 <= i < |ran| ==> |ran[i]| >= 1
    requires RunAll(Table(env), RunAll(Table(env), FreshClient, log), w).executed == RunAll(Table(env), FreshClient, log).executed + ran
    requires ReplayAll(env, ReplayAll(env, Session(0, Blank(|live|)), RunAll(Table(env), FreshClient, log).executed), ran).dbs == left
    ensures AllKnown(Table(env), log + w)
    ensures var executed := RunAll(Table(env), FreshClient, log + w).executed;
            (forall i :: 0 <= i < |executed| ==> |executed[i]| >= 1) && ReplayAll(env, Session(0, Blank(|left|)), executed).dbs == left
  {
    hide Table, RunAll, ReplayAll, InStep;
    var done := RunAll(Table(env), FreshClient, log).executed;
    KnownAppend(env, log, w);
    RunAllAppend(Table(env), FreshClient, log, w);
    ReplayAllAppend(env, Session(0, Blank(|live|)), done, ran);
  }

  /** Where the log before is and how the loader stands behind it. */
  lemma Behind(env: Env, s: System) returns (c: Client)
    requires Inv(env, s)
    ensures AllKnown(Table(env), s.log) && |s.live| <= INT_MAX && Describes(env, s.log, s.live, s.p.selected)
    ensures c == RunAll(Table(env), FreshClient, s.log) == Client(false, [], c.executed)
    ensures forall i :: 0 <= i < |c.executed| ==> |c.executed[i]| >= 1
    ensures InStep(ReplayAll(env, Session(0, Blank(|s.live|)), c.executed), s.live, s.p.selected)
  {
    hide Table, RunAll, ReplayAll, ChildInv, PrintAll, InStep;
    c := RunAll(Table(env), FreshClient, s.log);
  }

  /** The server stopped while its file held some but not all of the bytes of w, written behind the log of s. */
  ghost predicate StoppedIn(s: System, w: seq<Argv>, stopped: System)
  {
    s.log + w <= stopped.log && |PrintAll(s.log)| <= |stopped.p.file| < |PrintAll(s.log + w)|
  }

  /** The file is a prefix of the log. */
  lemma FileIs(env: Env, s: System)
    requires Inv(env, s)
    ensures AllKnown(Table(env), s.log) && |s.p.file| <= |PrintAll(s.log)| && s.p.file == PrintAll(s.log)[..|s.p.file|]
  {
    hide Table, PrintAll, RunAll, ReplayAll, ChildInv, InStep;
    assert s.p.file == (s.p.file + s.p.buf)[..|s.p.file|];
  }

  lemma RestoresNothing(env: Env, left: seq<Db>)
    requires ReplayAll(env, Session(0, Blank(|left|)), []).dbs == left
    ensures Restores(env, [], left)
  {
  }

  lemma NothingRun(table: CommandTable)
    ensures RunAll(table, FreshClient, []).executed == []
  {
  }

  lemma RestoresLoaded(env: Env, bytes: Bytes, left: seq<Db>)
    requires var r := Load(Table(env), Truncating, bytes);
             && r.Loaded? && (forall i :: 0 <= i < |r.executed| ==> |r.executed[i]| >= 1)
             && ReplayAll(env, Session(0, Blank(|left|)), r.executed).dbs == left
    ensures Restores(env, bytes, left)
  {
    hide Load, ReplayAll, Table;
  }

  /** These bytes load to whatever these commands, run from nothing, lead to. */
  ghost predicate RestoresWhat(env: Env, bytes: Bytes, executed: seq<Argv>)
  {
    (forall i :: 0 <= i < |executed| ==> |executed[i]| >= 1) ==>
      forall left :: ReplayAll(env, Session(0, Blank(|left|)), executed).dbs == left ==> Restores(env, bytes, left)
  }

  lemma LoadedWhat(env: Env, bytes: Bytes, executed: seq<Argv>)
    requires var r := Load(Table(env), Truncating, bytes); r.Loaded? && r.executed == executed
    ensures RestoresWhat(env, bytes, executed)
  {
    hide ReplayAll, Table, Restores, Load;
    if forall i :: 0 <= i < |executed| ==> |executed[i]| >= 1 {
      forall left | ReplayAll(env, Session(0, Blank(|left|)), executed).dbs == left ensures Restores(env, bytes, left)
      {
        RestoresLoaded(env, bytes, left);
      }
    }
  }

  lemma FileHolds(env: Env, log: seq<Argv>, w: seq<Argv>, all: seq<Argv>, m: nat) returns (j: nat)
    requires AllKnown(Table(env), all) && log + w <= all && 0 < m && |PrintAll(log)| <= m < |PrintAll(log + w)|
    ensures j < |w| && m <= |PrintAll(all)| && AllKnown(Table(env), log + w[..j])
    ensures |PrintAll(log + w[..j])| <= m < |PrintAll(log + w[..j + 1])|
    ensures RestoresWhat(env, PrintAll(all)[..m], RunAll(Table(env), FreshClient, log + w[..j]).executed)
  {
    hide RunAll, ReplayAll, PrintAll, Table, RestoresWhat, Load;
    Slices(log, w, all, 0);
    var k := CutBetween(Table(env), all, |log|, |log| + |w|, m);
    j := k - |log|;
    Slices(log, w, all, j);
    Slices(log, w, all, j + 1);
    assert AllKnown(Table(env), all[..k]);
    LoadedWhat(env, PrintAll(all)[..m], RunAll(Table(env), FreshClient, all[..k]).executed);
  }

  /** It comes back with what the log of s and the first j commands of w lead to. */
  lemma FileCut(env: Env, s: System, w: seq<Argv>, stopped: System) returns (j: nat)
    requires Inv(env, stopped) && StoppedIn(s, w, stopped)
    ensures j < |w| && AllKnown(Table(env), s.log + w[..j])
    ensures |PrintAll(s.log + w[..j])| <= |stopped.p.file| < |PrintAll(s.log + w[..j + 1])|
    ensures RestoresWhat(env, stopped.p.file, RunAll(Table(env), FreshClient, s.log + w[..j]).executed)
  {
    hide Inv, RunAll, PrintAll, Table, RestoresWhat, AllKnown;
    FileIs(env, stopped);
    if |stopped.p.file| == 0 {
      FileEmpty(env, s.log, w);
      j := 0;
      assert stopped.p.file == [];
    } else {
      j := FileHolds(env, s.log, w, stopped.log, |stopped.p.file|);
    }
  }

  lemma FileEmpty(env: Env, log: seq<Argv>, w: seq<Argv>)
    requires |PrintAll(log)| == 0 < |PrintAll(log + w)|
    ensures |w| >= 1 && log + w[..0] == [] && |PrintAll(log + w[..0])| == 0 < |PrintAll(log + w[..1])|
    ensures AllKnown(Table(env), []) && RestoresWhat(env, [], RunAll(Table(env), FreshClient, []).executed)
  {
    EmptyPrint(log);
    EmptyPrint(w);
    EmptyPrint(w[..1]);
    assert log + w == w && log + w[..0] == [] && log + w[..1] == w[..1];
    NothingRun(Table(env));
    hide PrintAll, RunAll, ReplayAll, Table, Restores;
    forall left | ReplayAll(env, Session(0, Blank(|left|)), []).dbs == left ensures Restores(env, [], left)
    {
      RestoresNothing(env, left);
    }
  }

  lemma EmptyPrint(log: seq<Argv>)
    ensures |PrintAll(log)| == 0 <==> log == []
  {
  }

  /**
   In every run: if the server stops while its file holds some but not all of the
   bytes of a transaction, it comes back with the databases as they were before
   the transaction.
   */
  lemma CrashInTransaction(env: Env, states: seq<System>, steps: seq<Step>, i: nat, n: nat, b: Batch)
    requires Lawful(env) && IsRun(env, states, steps) && i < |steps| && n < |states|
    requires steps[i].Transaction?
    requires DoTransaction(env, steps[i].now, Start(states[i].live, states[i].p.selected), steps[i].multiDb, steps[i].items, steps[i].execDb) == Some(b)
    requires StoppedIn(states[i], b.written, states[n])
    ensures Restores(env, states[n].p.file, states[i].live)
  {
    hide Next, Init, Lawful, DoTransaction, RunAll, ReplayAll, Table, Restores, StoppedIn, Inv, PrintAll, Describes, AllKnown, InStep;
    RunInv(env, states, steps, i);
    RunInv(env, states, steps, n);
    var s, step := states[i], steps[i];
    var c := Behind(env, s);
    var j := FileCut(env, s, b.written, states[n]);
    var here := ReplayAll(env, Session(0, Blank(|s.live|)), c.executed);
    var ran := TransactionAllOrNothing(env, step.now, s.live, s.p.selected, step.multiDb, step.items, step.execDb, c.executed, here, j);
    RunBehind(env, s.log, s.live, s.p.selected, b.written[..j], ran, s.live);
  }

  /**
   If it stops while its file holds some but not all of the bytes of one command,
   it comes back with the databases as they were before the command, unless the
   file ends behind the first of the two parts the command is written in.
   */
  lemma CrashInCommand(env: Env, states: seq<System>, steps: seq<Step>, i: nat, n: nat, item: Item, b: Batch)
    returns (k: nat, v: Bytes, when: nat, left: seq<Db>)
    requires Lawful(env) && IsRun(env, states, steps) && i < |steps| && n < |states|
    requires steps[i].Commands? && steps[i].items == [item]
    requires DoItem(env, steps[i].now, Start(states[i].live, states[i].p.selected), item) == Some(b)
    requires StoppedIn(states[i], b.written, states[n])
    ensures Restores(env, states[n].p.file, left)
    ensures k < |b.written| && item.dictid < |states[i].live|
    ensures |PrintAll(states[i].log + b.written[..k])| <= |states[n].p.file| < |PrintAll(states[i].log + b.written[..k + 1])|
    ensures var parts := |b.written| - |Selecting(item.dictid, states[i].p.selected)|;
            1 <= parts <= 2 && Leaves(states[i].live, b.dbs, item.dictid, item.argv, v, when, k, |b.written|, parts, left)
  {
    hide Next, Init, Lawful, DoItem, RunAll, ReplayAll, Table, Restores, StoppedIn, Inv, PrintAll, Leaves, Selecting, Describes, InStep;
    RunInv(env, states, steps, i);
    RunInv(env, states, steps, n);
    var s, step := states[i], steps[i];
    var c := Behind(env, s);
    k := FileCut(env, s, b.written, states[n]);
    var here := ReplayAll(env, Session(0, Blank(|s.live|)), c.executed);
    v, when := CommandAllOrNothing(env, step.now, s.live, s.p.selected, item, c.executed, here, k);
    left := ReplayAll(env, here, b.written[..k]).dbs;
    LeavesCount(s.live, b.dbs, item.dictid, item.argv, v, when, k, |b.written|, |b.written| - |Selecting(item.dictid, s.p.selected)|, left);
    RunBehind(env, s.log, s.live, s.p.selected, b.written[..k], b.written[..k], left);
  }

  lemma LeavesCount(dbs: seq<Db>, after: seq<Db>, dictid: nat, argv: Argv, v: Bytes, when: nat, k: nat, n: nat, parts: nat, left: seq<Db>)
    requires dictid < |dbs| && k < n && Leaves(dbs, after, dictid, argv, v, when, k, n, parts, left)
    ensures |left| == |dbs|
  {
  }
}
