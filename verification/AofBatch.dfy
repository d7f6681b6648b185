/**
 What one client command or transaction appends to the log, and what the loader
 makes of it: the bridge between the dataset and the bytes of the log.
 */
module AofBatch {
  import opened Basics
  import opened ByteStrings
  import opened AofLog
  import opened AofLoad
  import opened Dataset
  import opened AofFeed
  import opened AofRewrite
  import opened AofServer

  // ---------------------------------------------------------------- what is logged can be loaded

  lemma OneLoggable(env: Env, c: Argv)
    requires Printable(c) && Table(env)(c[0]) == Plain
    ensures Loggable(env, [c])
  {
    hide Printable, Table;
  }

  lemma ExpireAtLoggable(env: Env, cmd: Command, now: nat, key: Bytes, text: Bytes)
    requires |key| <= LONG_MAX && 0 <= Deadline(cmd, now, text) <= LONG_MAX
    ensures Loggable(env, [ExpireAtCommand(cmd, now, key, text)])
  {
    var c := ExpireAtCommand(cmd, now, key, text);
    LookupKeyCommands(env);
    DigitsOfLong(Deadline(cmd, now, text));
    hide Lookup, Deadline;
    assert c[0] == PEXPIREAT;
    OneLoggable(env, c);
  }

  lemma SetLoggable(env: Env, c: Argv)
    requires |c| == 3 && Printable(c) && Lookup(env, c[0]) == SetKey
    ensures Loggable(env, [c])
  {
    hide Lookup;
    OneLoggable(env, c);
  }

  lemma LoggableTwo(env: Env, a: Argv, b: Argv)
    requires Loggable(env, [a]) && Loggable(env, [b])
    ensures Loggable(env, [a, b])
  {
    hide Loggable;
    LoggableAppend(env, [a], [b]);
    assert [a] + [b] == [a, b];
  }

  lemma ExpireLoggable(env: Env, now: nat, db: Db, argv: Argv)
    requires Printable(argv) && Lookup(env, argv[0]) in {Expire, PExpire, ExpireAt, PExpireAt}
    requires PerformExpire(Lookup(env, argv[0]), now, db, argv).Some?
    ensures var r := PerformExpire(Lookup(env, argv[0]), now, db, argv).value;
            |r.logged| >= 1 && Loggable(env, Translate(env, now, r.logged))
  {
    LookupKeyCommands(env);
    hide Lookup, ExpireAtCommand, Loggable;
    var cmd := Lookup(env, argv[0]);
    if Deadline(cmd, now, argv[2]) <= now {
      OneLoggable(env, [DEL, argv[1]]);
    } else if cmd == PExpireAt {
      OneLoggable(env, argv);
    } else {
      ExpireAtLoggable(env, cmd, now, argv[1], argv[2]);
    }
  }

  lemma SetExLoggable(env: Env, now: nat, db: Db, argv: Argv)
    requires Printable(argv) && Lookup(env, argv[0]) in {SetEx, PSetEx}
    requires PerformSetEx(Lookup(env, argv[0]), now, db, argv).Some?
    ensures Loggable(env, Translate(env, now, argv))
  {
    LookupKeyCommands(env);
    hide Lookup, ExpireAtCommand, Loggable;
    SetLoggable(env, [SET, argv[1], argv[3]]);
    ExpireAtLoggable(env, Lookup(env, argv[0]), now, argv[1], argv[2]);
    LoggableTwo(env, [SET, argv[1], argv[3]], ExpireAtCommand(Lookup(env, argv[0]), now, argv[1], argv[2]));
  }

  lemma SetOptionsLoggable(env: Env, now: nat, db: Db, argv: Argv)
    requires Printable(argv) && Lookup(env, argv[0]) == SetKey
    requires PerformSet(now, db, argv).Some? && FeedAssertion(env, argv)
    ensures Loggable(env, Translate(env, now, argv))
  {
    hide Lookup, ExpireAtCommand, Loggable, ParseSet, ScanUnit, MixedUnits, PositiveText;
    var o := ParseSet(argv, 3, NoOptions).value;
    ScansOfSet(now, db, argv);
    SetLoggable(env, argv[..3]);
    if o.ttl.None? {
      assert |argv| == 3 ==> argv == argv[..3];
      assert Translate(env, now, argv) == [argv[..3]];
    } else {
      var e := ExpireAtCommand(TtlCommand(o), now, argv[1], o.ttl.value);
      ExpireAtLoggable(env, TtlCommand(o), now, argv[1], o.ttl.value);
      LoggableTwo(env, argv[..3], e);
      assert Translate(env, now, argv) == [argv[..3], e];
    }
  }

  /** Everything written for a performed command prints, and the loader knows it and runs it at once. */
  lemma PerformedLoggable(env: Env, now: nat, s: Session, argv: Argv)
    requires Selects(s) && Printable(argv) && Perform(env, now, s, argv).Some? && FeedAssertion(env, argv)
    ensures var (s', logged) := Perform(env, now, s, argv).value;
            |logged| >= 1 && s'.selected == s.selected && Loggable(env, Translate(env, now, logged))
  {
    var cmd := Lookup(env, argv[0]);
    var db := s.dbs[s.selected];
    hide Lookup, PerformSet, PerformSetEx, PerformExpire, Loggable, FeedAssertion;
    if cmd == SetKey {
      SetOptionsLoggable(env, now, db, argv);
      SetLogsItself(now, db, argv);
    } else if cmd == SetEx || cmd == PSetEx {
      SetExLoggable(env, now, db, argv);
      SetExLogsItself(cmd, now, db, argv);
    } else if cmd == Expire || cmd == PExpire || cmd == ExpireAt || cmd == PExpireAt {
      ExpireLoggable(env, now, db, argv);
    } else {
      OneLoggable(env, argv);
    }
  }

  lemma SetLogsItself(now: nat, db: Db, argv: Argv)
    requires PerformSet(now, db, argv).Some?
    ensures PerformSet(now, db, argv).value.logged == argv
  {
  }

  lemma SetExLogsItself(cmd: Command, now: nat, db: Db, argv: Argv)
    requires PerformSetEx(cmd, now, db, argv).Some?
    ensures PerformSetEx(cmd, now, db, argv).value.logged == argv
  {
  }

  // ---------------------------------------------------------------- commands and transactions

  /** A command of a client connected to database dictid. */
  datatype Item = Item(dictid: nat, argv: Argv)

  /** The databases, what was written to the log, what of it the loader will execute, and aof_selected_db. */
  datatype Batch = Batch(dbs: seq<Db>, written: seq<Argv>, executed: seq<Argv>, selected: int)

  /** One command: performed at time now, and fed to the log. */
  function DoItem(env: Env, now: nat, b: Batch, item: Item): Option<Batch>
  {
    if item.dictid >= |b.dbs| || !Printable(item.argv) || !FeedAssertion(env, item.argv) then None
    else match Perform(env, now, Session(item.dictid, b.dbs), item.argv)
      case None => None
      case Some((s, logged)) =>
        if |logged| < 1 then None
        else
          var cmds := FedCommands(env, now, b.selected, item.dictid, logged);
          Some(Batch(s.dbs, b.written + cmds, b.executed + cmds, item.dictid))
  }

  function DoItems(env: Env, now: nat, b: Batch, items: seq<Item>): Option<Batch>
    decreases |items|
  {
    if items == [] then Some(b)
    else match DoItem(env, now, b, items[0])
      case None => None
      case Some(b') => DoItems(env, now, b', items[1..])
  }

  /** MULTI or EXEC, fed for database dictid: written, but not itself executed. */
  function DoMark(b: Batch, dictid: nat, mark: Bytes): Option<Batch>
  {
    if dictid >= |b.dbs| then None
    else
      var select := if dictid != b.selected then [[SELECT, Digits(dictid)]] else [];
      Some(Batch(b.dbs, b.written + select + [[mark]], b.executed + select, dictid))
  }

  /** A transaction: MULTI, the commands, EXEC. */
  function DoTransaction(env: Env, now: nat, b: Batch, multiDb: nat, items: seq<Item>, execDb: nat): Option<Batch>
  {
    match DoMark(b, multiDb, MULTI)
    case None => None
    case Some(b1) =>
      match DoItems(env, now, b1, items)
      case None => None
      case Some(b2) => DoMark(b2, execDb, EXEC)
  }

  /** aof_selected_db is -1, or the database that replaying the log selects. */
  predicate InStep(s: Session, dbs: seq<Db>, selected: int)
  {
    s.dbs == dbs && selected < |dbs| && (selected == -1 || selected == s.selected)
  }

  /** The batch's commands, replayed from a session in step with the start, lead to its end. */
  ghost predicate Leads(env: Env, dbs: seq<Db>, selected: int, b: Batch)
  {
    && (forall i :: 0 <= i < |b.executed| ==> |b.executed[i]| >= 1)
    && |b.dbs| == |dbs|
    && forall s: Session :: InStep(s, dbs, selected) ==> InStep(ReplayAll(env, s, b.executed), b.dbs, b.selected)
  }

  /** How env.other may behave: it keeps the number of databases. */
  ghost predicate Lawful(env: Env)
  {
    forall dbs: seq<Db>, i: nat, argv: Argv :: |env.other(dbs, i, argv)| == |dbs|
  }

  lemma PerformKeepsCount(env: Env, now: nat, s: Session, argv: Argv)
    requires Lawful(env) && Selects(s) && |argv| >= 1 && Perform(env, now, s, argv).Some?
    ensures |Perform(env, now, s, argv).value.0.dbs| == |s.dbs|
  {
    hide Lookup, PerformSet, PerformSetEx, PerformExpire;
  }

  /** SELECT, when it is written, brings any session in step with the database wanted. */
  lemma SelectLeads(env: Env, s: Session, dbs: seq<Db>, selected: int, dictid: nat)
    requires InStep(s, dbs, selected) && dictid < |dbs| <= INT_MAX
    ensures var select := if dictid != selected then [[SELECT, Digits(dictid)]] else [];
            ReplayAll(env, s, select) == Session(dictid, dbs)
  {
    hide Replay, ReplayAll;
    if dictid != selected {
      ReplayTwo(env, s, [SELECT, Digits(dictid)], [SELECT, Digits(dictid)]);
      ReplaySelect(env, s, dictid);
    } else {
      ReplayNothing(env, s);
    }
  }

  lemma FedLeads(env: Env, now: nat, s: Session, dbs: seq<Db>, selected: int, item: Item)
    requires Lawful(env) && InStep(s, dbs, selected) && item.dictid < |dbs| <= INT_MAX && Printable(item.argv)
    requires Perform(env, now, Session(item.dictid, dbs), item.argv).Some? && FeedAssertion(env, item.argv)
    ensures var (s', logged) := Perform(env, now, Session(item.dictid, dbs), item.argv).value;
            && |logged| >= 1 && |s'.dbs| == |dbs|
            && ReplayAll(env, s, FedCommands(env, now, selected, item.dictid, logged)) == Session(item.dictid, s'.dbs)
  {
    hide Replay, ReplayAll, Perform, Translate, FeedAssertion, Lookup;
    var here := Session(item.dictid, dbs);
    SelectLeads(env, s, dbs, selected, item.dictid);
    TranslateCorrect(env, now, here, item.argv);
    PerformedLoggable(env, now, here, item.argv);
    PerformKeepsCount(env, now, here, item.argv);
    var select := if item.dictid != selected then [[SELECT, Digits(item.dictid)]] else [];
    ReplayAllAppend(env, s, select, Translate(env, now, Perform(env, now, here, item.argv).value.1));
  }

  lemma LeadsMore(env: Env, dbs: seq<Db>, selected: int, b: Batch, more: seq<Argv>, b': Batch)
    requires Leads(env, dbs, selected, b) && forall i :: 0 <= i < |more| ==> |more[i]| >= 1
    requires b'.executed == b.executed + more && |b'.dbs| == |b.dbs| && b'.selected < |b'.dbs|
    requires forall s: Session :: InStep(s, b.dbs, b.selected) ==>
               ReplayAll(env, s, more).dbs == b'.dbs && ReplayAll(env, s, more).selected == b'.selected
    ensures Leads(env, dbs, selected, b')
  {
    forall s: Session | InStep(s, dbs, selected)
      ensures InStep(ReplayAll(env, s, b'.executed), b'.dbs, b'.selected)
    {
      ReplayAllAppend(env, s, b.executed, more);
    }
  }

  lemma ItemLeads(env: Env, now: nat, dbs: seq<Db>, selected: int, b: Batch, item: Item)
    requires Lawful(env) && |dbs| <= INT_MAX && Leads(env, dbs, selected, b) && DoItem(env, now, b, item).Some?
    ensures Leads(env, dbs, selected, DoItem(env, now, b, item).value)
  {
    hide Replay, ReplayAll, Perform, Translate, FeedAssertion, Lookup;
    var here := Session(item.dictid, b.dbs);
    var (s', logged) := Perform(env, now, here, item.argv).value;
    var cmds := FedCommands(env, now, b.selected, item.dictid, logged);
    PerformKeepsCount(env, now, here, item.argv);
    forall s: Session | InStep(s, b.dbs, b.selected)
      ensures ReplayAll(env, s, cmds).dbs == s'.dbs && ReplayAll(env, s, cmds).selected == item.dictid
    {
      FedLeads(env, now, s, b.dbs, b.selected, item);
    }
    LeadsMore(env, dbs, selected, b, cmds, DoItem(env, now, b, item).value);
  }

  lemma MarkLeads(env: Env, dbs: seq<Db>, selected: int, b: Batch, dictid: nat, mark: Bytes)
    requires |dbs| <= INT_MAX && Leads(env, dbs, selected, b) && DoMark(b, dictid, mark).Some?
    ensures Leads(env, dbs, selected, DoMark(b, dictid, mark).value)
  {
    hide ReplayAll, Digits;
    var select := if dictid != b.selected then [[SELECT, Digits(dictid)]] else [];
    forall s: Session | InStep(s, b.dbs, b.selected)
      ensures ReplayAll(env, s, select).dbs == b.dbs && ReplayAll(env, s, select).selected == dictid
    {
      SelectLeads(env, s, b.dbs, b.selected, dictid);
    }
    LeadsMore(env, dbs, selected, b, select, DoMark(b, dictid, mark).value);
  }

  // ---------------------------------------------------------------- what the loader makes of a batch

  /** Loggable commands run at once, or are queued inside a transaction. */
  lemma {:induction false} RunLoggable(env: Env, c: Client, cmds: seq<Argv>)
    requires Loggable(env, cmds)
    ensures RunAll(Table(env), c, cmds)
         == if c.inMulti then c.(queued := c.queued + cmds) else c.(executed := c.executed + cmds)
    decreases |cmds|
  {
    hide Table, Printable;
    if cmds == [] {
      assert c.queued + [] == c.queued && c.executed + [] == c.executed;
    } else {
      var c' := RunCommand(c, Plain, cmds[0]);
      RunLoggable(env, c', cmds[1..]);
      assert [cmds[0]] + cmds[1..] == cmds;
      ConcatAssoc(c.queued, [cmds[0]], cmds[1..]);
      ConcatAssoc(c.executed, [cmds[0]], cmds[1..]);
    }
  }

  /** The loader, run over the batch after having executed done: what it executed and still queues. */
  ghost predicate LoadsFrom(env: Env, b: Batch, open: bool, done: seq<Argv>)
    requires AllKnown(Table(env), b.written)
  {
    var c := RunAll(Table(env), Client(false, [], done), b.written);
    c.inMulti == open && c.executed + c.queued == done + b.executed && (!open ==> c.queued == [])
  }

  ghost predicate LoadsAs(env: Env, b: Batch, open: bool)
  {
    AllKnown(Table(env), b.written) && forall done: seq<Argv> :: LoadsFrom(env, b, open, done)
  }

  lemma KnownAppend(env: Env, a: seq<Argv>, b: seq<Argv>)
    requires AllKnown(Table(env), a) && AllKnown(Table(env), b)
    ensures AllKnown(Table(env), a + b)
  {
    hide Table, Printable;
  }

  lemma RunMore(env: Env, c0: Client, written: seq<Argv>, more: seq<Argv>)
    requires AllKnown(Table(env), written) && Loggable(env, more)
    ensures AllKnown(Table(env), written + more)
    ensures var c := RunAll(Table(env), c0, written);
            RunAll(Table(env), c0, written + more)
            == if c.inMulti then c.(queued := c.queued + more) else c.(executed := c.executed + more)
  {
    hide Table, RunAll;
    KnownAppend(env, written, more);
    RunAllAppend(Table(env), c0, written, more);
    RunLoggable(env, RunAll(Table(env), c0, written), more);
  }

  lemma LoadsMoreFrom(env: Env, b: Batch, open: bool, more: seq<Argv>, b': Batch, done: seq<Argv>)
    requires AllKnown(Table(env), b.written) && LoadsFrom(env, b, open, done) && Loggable(env, more)
    requires b'.written == b.written + more && b'.executed == b.executed + more
    ensures AllKnown(Table(env), b'.written) && LoadsFrom(env, b', open, done)
  {
    hide Table, RunAll, Loggable;
    var c := RunAll(Table(env), Client(false, [], done), b.written);
    RunMore(env, Client(false, [], done), b.written, more);
    ConcatAssoc(done, b.executed, more);
    ConcatAssoc(c.executed, c.queued, more);
    if !open { assert c.executed + [] == c.executed && c.executed + more + [] == c.executed + more; }
  }

  lemma LoadsMore(env: Env, b: Batch, open: bool, more: seq<Argv>, b': Batch)
    requires LoadsAs(env, b, open) && Loggable(env, more)
    requires b'.written == b.written + more && b'.executed == b.executed + more
    ensures LoadsAs(env, b', open)
  {
    hide Table, LoadsFrom, Loggable, AllKnown;
    LoadsMoreFrom(env, b, open, more, b', []);
    forall done: seq<Argv>
      ensures LoadsFrom(env, b', open, done)
    {
      LoadsMoreFrom(env, b, open, more, b', done);
    }
  }

  lemma SelectsLoggable(env: Env, dictid: nat, selected: int)
    requires dictid <= INT_MAX
    ensures Loggable(env, if dictid != selected then [[SELECT, Digits(dictid)]] else [])
  {
    hide Loggable;
    if dictid != selected { SelectLoggable(env, dictid); } else { NoneLoggable(env); }
  }

  lemma ItemLoads(env: Env, now: nat, b: Batch, open: bool, item: Item)
    requires |b.dbs| <= INT_MAX && LoadsAs(env, b, open) && DoItem(env, now, b, item).Some?
    ensures LoadsAs(env, DoItem(env, now, b, item).value, open)
  {
    hide LoadsAs, Perform, Translate, FeedAssertion, Lookup, Loggable, Digits;
    var here := Session(item.dictid, b.dbs);
    PerformedLoggable(env, now, here, item.argv);
    var logged := Perform(env, now, here, item.argv).value.1;
    SelectsLoggable(env, item.dictid, b.selected);
    var select := if item.dictid != b.selected then [[SELECT, Digits(item.dictid)]] else [];
    LoggableAppend(env, select, Translate(env, now, logged));
    LoadsMore(env, b, open, select + Translate(env, now, logged), DoItem(env, now, b, item).value);
  }

  /** MULTI opens a transaction; EXEC runs what it queued, and without MULTI is refused. */
  lemma MarkLoads(env: Env, b: Batch, open: bool, dictid: nat, mark: Bytes)
    requires |b.dbs| <= INT_MAX && DoMark(b, dictid, mark).Some?
    requires LoadsAs(env, b, open) && ((mark == MULTI && !open) || mark == EXEC)
    ensures LoadsAs(env, DoMark(b, dictid, mark).value, mark == MULTI)
  {
    var select := if dictid != b.selected then [[SELECT, Digits(dictid)]] else [];
    var mid := b.(written := b.written + select, executed := b.executed + select);
    SelectsLoggable(env, dictid, b.selected);
    hide Digits;
    LoadsMore(env, b, open, select, mid);
    MarkRuns(env, mid, open, mark, DoMark(b, dictid, mark).value);
  }

  lemma MarkRunsFrom(env: Env, b: Batch, open: bool, mark: Bytes, b': Batch, done: seq<Argv>)
    requires (mark == MULTI && !open) || mark == EXEC
    requires AllKnown(Table(env), b.written) && LoadsFrom(env, b, open, done)
    requires b'.written == b.written + [[mark]] && b'.executed == b.executed
    ensures AllKnown(Table(env), b'.written) && LoadsFrom(env, b', mark == MULTI, done)
  {
    LookupControl(env);
    assert Table(env)(mark) == if mark == MULTI then AofLoad.Multi else AofLoad.Exec;
    assert Printable([mark]);
    hide Lookup, Table, RunAll;
    KnownAppend(env, b.written, [[mark]]);
    var c := RunAll(Table(env), Client(false, [], done), b.written);
    RunAllAppend(Table(env), Client(false, [], done), b.written, [[mark]]);
    RunOne(Table(env), c, [mark]);
    assert c.executed + c.queued + [] == c.executed + c.queued;
  }

  lemma MarkRuns(env: Env, b: Batch, open: bool, mark: Bytes, b': Batch)
    requires LoadsAs(env, b, open) && ((mark == MULTI && !open) || mark == EXEC)
    requires b'.written == b.written + [[mark]] && b'.executed == b.executed
    ensures LoadsAs(env, b', mark == MULTI)
  {
    hide Table, LoadsFrom, AllKnown;
    MarkRunsFrom(env, b, open, mark, b', []);
    var open' := mark == MULTI;
    forall done: seq<Argv>
      ensures LoadsFrom(env, b', open', done)
    {
      MarkRunsFrom(env, b, open, mark, b', done);
    }
  }

  lemma RunOne(table: CommandTable, c: Client, x: Argv)
    requires |x| >= 1
    ensures RunAll(table, c, [x]) == RunCommand(c, table(x[0]), x)
  {
    assert RunAll(table, c, [x]) == RunAll(table, RunCommand(c, table(x[0]), x), [x][1..]);
  }

  // ---------------------------------------------------------------- whole batches

  lemma {:induction false} ItemsLead(env: Env, now: nat, dbs: seq<Db>, selected: int, b: Batch, open: bool, items: seq<Item>)
    requires Lawful(env) && |dbs| <= INT_MAX && DoItems(env, now, b, items).Some?
    requires Leads(env, dbs, selected, b) && LoadsAs(env, b, open)
    ensures var b' := DoItems(env, now, b, items).value;
            Leads(env, dbs, selected, b') && LoadsAs(env, b', open)
    decreases |items|
  {
    hide Lawful, Leads, LoadsAs, DoItem;
    if items != [] {
      LeadsCount(env, dbs, selected, b);
      ItemLeads(env, now, dbs, selected, b, items[0]);
      ItemLoads(env, now, b, open, items[0]);
      ItemsLead(env, now, dbs, selected, DoItem(env, now, b, items[0]).value, open, items[1..]);
    }
  }

  lemma LeadsCount(env: Env, dbs: seq<Db>, selected: int, b: Batch)
    requires Leads(env, dbs, selected, b)
    ensures |b.dbs| == |dbs|
  {
  }

  /** Nothing done yet. */
  function Start(dbs: seq<Db>, selected: int): Batch { Batch(dbs, [], [], selected) }

  lemma StartLeads(env: Env, dbs: seq<Db>, selected: int)
    requires selected < |dbs|
    ensures Leads(env, dbs, selected, Start(dbs, selected)) && LoadsAs(env, Start(dbs, selected), false)
  {
    forall done: seq<Argv>
      ensures LoadsFrom(env, Start(dbs, selected), false, done)
    {
      assert done + [] == done;
    }
  }

  /**
   A command list or a transaction: what is written reads back as a closed run
   of the loader, and replaying what that run executes, from any session in
   step with the log so far, gives the databases the clients see.
   */
  lemma TransactionLeads(env: Env, now: nat, dbs: seq<Db>, selected: int, multiDb: nat, items: seq<Item>, execDb: nat)
    requires Lawful(env) && |dbs| <= INT_MAX && selected < |dbs|
    requires DoTransaction(env, now, Start(dbs, selected), multiDb, items, execDb).Some?
    ensures var b := DoTransaction(env, now, Start(dbs, selected), multiDb, items, execDb).value;
            Leads(env, dbs, selected, b) && LoadsAs(env, b, false)
  {
    hide Lawful, Leads, LoadsAs, DoItems, DoMark;
    var b0 := Start(dbs, selected);
    StartLeads(env, dbs, selected);
    var b1 := DoMark(b0, multiDb, MULTI).value;
    var b2 := DoItems(env, now, b1, items).value;
    MarkLeads(env, dbs, selected, b0, multiDb, MULTI);
    MarkLoads(env, b0, false, multiDb, MULTI);
    ItemsLead(env, now, dbs, selected, b1, true, items);
    LeadsCount(env, dbs, selected, b2);
    MarkLeads(env, dbs, selected, b2, execDb, EXEC);
    MarkLoads(env, b2, true, execDb, EXEC);
  }

  // ---------------------------------------------------------------- a transaction in two parts

  /** The transaction up to a point between two of its commands: MULTI and the commands before. */
  function Opening(env: Env, now: nat, b: Batch, multiDb: nat, items: seq<Item>): Option<Batch>
  {
    match DoMark(b, multiDb, MULTI)
    case None => None
    case Some(b1) => DoItems(env, now, b1, items)
  }

  /** From there on: the commands after, and EXEC. */
  function Closing(env: Env, now: nat, b: Batch, items: seq<Item>, execDb: nat): Option<Batch>
  {
    match DoItems(env, now, b, items)
    case None => None
    case Some(b1) => DoMark(b1, execDb, EXEC)
  }

  function Behind(a: Batch, b: Batch): Batch
  {
    Batch(b.dbs, a.written + b.written, a.executed + b.executed, b.selected)
  }

  /** What is written does not depend on what was written before. */
  lemma ItemBehind(env: Env, now: nat, a: Batch, b: Batch, item: Item)
    requires DoItem(env, now, b, item).Some?
    ensures DoItem(env, now, Behind(a, b), item) == Some(Behind(a, DoItem(env, now, b, item).value))
  {
    hide Perform, FeedAssertion, FedCommands;
    var logged := Perform(env, now, Session(item.dictid, b.dbs), item.argv).value.1;
    var cmds := FedCommands(env, now, b.selected, item.dictid, logged);
    assert a.written + (b.written + cmds) == a.written + b.written + cmds;
    assert a.executed + (b.executed + cmds) == a.executed + b.executed + cmds;
  }

  lemma {:induction false} ItemsBehind(env: Env, now: nat, a: Batch, b: Batch, items: seq<Item>)
    requires DoItems(env, now, b, items).Some?
    ensures DoItems(env, now, Behind(a, b), items) == Some(Behind(a, DoItems(env, now, b, items).value))
    decreases |items|
  {
    hide DoItem, Behind;
    if items != [] {
      ItemBehind(env, now, a, b, items[0]);
      ItemsBehind(env, now, a, DoItem(env, now, b, items[0]).value, items[1..]);
    }
  }

  lemma ClosingBehind(env: Env, now: nat, a: Batch, b: Batch, items: seq<Item>, execDb: nat)
    requires Closing(env, now, b, items, execDb).Some?
    ensures Closing(env, now, Behind(a, b), items, execDb) == Some(Behind(a, Closing(env, now, b, items, execDb).value))
  {
    hide DoItems, Digits;
    ItemsBehind(env, now, a, b, items);
    var b1 := DoItems(env, now, b, items).value;
    var select := if execDb != b1.selected then [[SELECT, Digits(execDb)]] else [];
    assert a.written + (b1.written + select + [[EXEC]]) == a.written + b1.written + select + [[EXEC]];
    assert a.executed + (b1.executed + select) == a.executed + b1.executed + select;
  }

  lemma OpeningLeads(env: Env, now: nat, dbs: seq<Db>, selected: int, multiDb: nat, items: seq<Item>)
    requires Lawful(env) && |dbs| <= INT_MAX && selected < |dbs|
    requires Opening(env, now, Start(dbs, selected), multiDb, items).Some?
    ensures var b := Opening(env, now, Start(dbs, selected), multiDb, items).value;
            Leads(env, dbs, selected, b) && LoadsAs(env, b, true)
  {
    hide Lawful, Leads, LoadsAs, DoItems, DoMark;
    var b0 := Start(dbs, selected);
    StartLeads(env, dbs, selected);
    MarkLeads(env, dbs, selected, b0, multiDb, MULTI);
    MarkLoads(env, b0, false, multiDb, MULTI);
    ItemsLead(env, now, dbs, selected, DoMark(b0, multiDb, MULTI).value, true, items);
  }

  /** The rest of a transaction, in front of which the loader may or may not have seen its MULTI. */
  lemma ClosingLeads(env: Env, now: nat, dbs: seq<Db>, selected: int, b: Batch, open: bool, items: seq<Item>, execDb: nat)
    requires Lawful(env) && |dbs| <= INT_MAX && Leads(env, dbs, selected, b) && LoadsAs(env, b, open)
    requires Closing(env, now, b, items, execDb).Some?
    ensures var b' := Closing(env, now, b, items, execDb).value;
            Leads(env, dbs, selected, b') && LoadsAs(env, b', false)
  {
    hide Lawful, Leads, LoadsAs, DoItems, DoMark;
    ItemsLead(env, now, dbs, selected, b, open, items);
    var b1 := DoItems(env, now, b, items).value;
    LeadsCount(env, dbs, selected, b1);
    MarkLeads(env, dbs, selected, b1, execDb, EXEC);
    MarkLoads(env, b1, open, execDb, EXEC);
  }

  /** Forgetting which database is selected costs a SELECT and nothing else. */
  lemma Unselected(env: Env, dbs: seq<Db>, selected: int, b: Batch, open: bool)
    requires Leads(env, dbs, selected, b) && LoadsAs(env, b, open)
    ensures Leads(env, dbs, selected, b.(selected := -1)) && LoadsAs(env, b.(selected := -1), open)
  {
    var b' := b.(selected := -1);
    hide ReplayAll, RunAll;
    forall s: Session | InStep(s, dbs, selected)
      ensures InStep(ReplayAll(env, s, b'.executed), b'.dbs, b'.selected)
    {
      assert InStep(ReplayAll(env, s, b.executed), b.dbs, b.selected);
    }
    forall done: seq<Argv> ensures LoadsFrom(env, b', open, done)
    {
      assert LoadsFrom(env, b, open, done);
    }
  }

  /**
   A transaction during which the rewrite forked: the log goes on behind its
   MULTI, and what was written since the fork, which ends with an EXEC that has
   no MULTI, leads on its own from the databases at the fork.
   */
  lemma DividedLeads(env: Env, now: nat, dbs: seq<Db>, selected: int, multiDb: nat, before: seq<Item>, after: seq<Item>, execDb: nat)
    requires Lawful(env) && |dbs| <= INT_MAX && selected < |dbs|
    requires Opening(env, now, Start(dbs, selected), multiDb, before).Some?
    requires Closing(env, now, Start(Opening(env, now, Start(dbs, selected), multiDb, before).value.dbs, -1), after, execDb).Some?
    ensures var a := Opening(env, now, Start(dbs, selected), multiDb, before).value;
            var b := Closing(env, now, Start(a.dbs, -1), after, execDb).value;
            && Leads(env, dbs, selected, Behind(a, b)) && LoadsAs(env, Behind(a, b), false)
            && |a.dbs| == |dbs| && Leads(env, a.dbs, -1, b) && LoadsAs(env, b, false)
  {
    hide Lawful, Leads, LoadsAs, Opening, Closing;
    var a := Opening(env, now, Start(dbs, selected), multiDb, before).value;
    OpeningLeads(env, now, dbs, selected, multiDb, before);
    LeadsCount(env, dbs, selected, a);
    Unselected(env, dbs, selected, a, true);
    ClosingBehind(env, now, a, Start(a.dbs, -1), after, execDb);
    assert Behind(a, Start(a.dbs, -1)) == a.(selected := -1) by {
      assert a.written + [] == a.written && a.executed + [] == a.executed;
    }
    ClosingLeads(env, now, dbs, selected, a.(selected := -1), true, after, execDb);
    StartLeads(env, a.dbs, -1);
    ClosingLeads(env, now, a.dbs, -1, Start(a.dbs, -1), false, after, execDb);
  }

  lemma CommandsLead(env: Env, now: nat, dbs: seq<Db>, selected: int, items: seq<Item>)
    requires Lawful(env) && |dbs| <= INT_MAX && selected < |dbs|
    requires DoItems(env, now, Start(dbs, selected), items).Some?
    ensures var b := DoItems(env, now, Start(dbs, selected), items).value;
            Leads(env, dbs, selected, b) && LoadsAs(env, b, false)
  {
    hide Lawful, Leads, LoadsAs, DoItems;
    StartLeads(env, dbs, selected);
    ItemsLead(env, now, dbs, selected, Start(dbs, selected), false, items);
  }
}
