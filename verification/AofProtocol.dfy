/**
 The background rewrite as a protocol of two processes (aof.c): the parent, the
 forked child, the data pipe and the two acknowledgement pipes.  In every
 interleaving the log on disk and in the buffer replays to the live dataset.
 */
module AofProtocol {
  import opened Basics
  import opened ByteStrings
  import opened AofLog
  import opened AofLoad
  import opened Dataset
  import opened AofFeed
  import opened AofRewrite
  import opened AofRewriter
  import opened AofServer
  import opened AofBatch

  /** The child rewrites and reads diffs, then asks the parent to stop, then is done. */
  datatype Phase = Rewriting | Asked | Finished(ok: bool)

  /** snapshot is the dataset at the fork, rewritten the commands the child writes for it, tmp its file. */
  datatype Child = Child(phase: Phase, snapshot: seq<Db>, rewritten: seq<Argv>, tmp: Bytes, diff: Bytes)

  /** log and since are history: the commands of file and buffer, and those fed since the fork. */
  datatype System = System(
    p: Parent, live: seq<Db>, child: Option<Child>,
    pipe: Bytes, askPending: bool, ackPending: bool,
    log: seq<Argv>, since: seq<Argv>)

  datatype Step =
    | Commands(now: nat, items: seq<Item>)
    | Transaction(now: nat, multiDb: nat, items: seq<Item>, execDb: nat)
    | Flush(k: nat)
    | Fork(rewritten: seq<Argv>)
    | TransactionForks(now: nat, multiDb: nat, before: seq<Item>, rewritten: seq<Argv>, after: seq<Item>, execDb: nat)
    | Send(k: nat)
    | ChildReads(k: nat)
    | ChildAsks
    | ParentAcks(works: bool)
    | ChildFinishes
    | ChildFails
    | ChildReaped(switched: bool)

  /** A batch was performed and fed. */
  ghost predicate FedBatch(s: System, s': System, b: Batch)
  {
    && Fed(s.p, s'.p, PrintAll(b.written), b.selected)
    && s' == s.(p := s'.p, live := b.dbs, log := s.log + b.written,
                since := if s.p.hasChild then s.since + b.written else s.since)
  }

  ghost predicate ForkStep(env: Env, s: System, s': System, rewritten: seq<Argv>)
  {
    && Storable(s.live) && Rebuilds(env, rewritten, s.live)
    && Started(s.p, s'.p)
    && s' == s.(p := s'.p, child := Some(Child(Rewriting, s.live, rewritten, [], [])),
                pipe := [], askPending := false, ackPending := false, since := [])
  }

  /** BGREWRITEAOF queued in a transaction: the fork falls between two of its commands. */
  ghost predicate ForkInside(env: Env, s: System, m: System, m': System, s': System, step: Step)
    requires step.TransactionForks?
  {
    var a := Opening(env, step.now, Start(s.live, s.p.selected), step.multiDb, step.before);
    a.Some? && FedBatch(s, m, a.value) && ForkStep(env, m, m', step.rewritten) &&
    var b := Closing(env, step.now, Start(a.value.dbs, -1), step.after, step.execDb);
    b.Some? && FedBatch(m', s', b.value)
  }

  ghost predicate ChildStep(s: System, s': System, step: Step)
  {
    s.child.Some? &&
    var c := s.child.value;
    match step
    case ChildReads(k) =>
      c.phase == Rewriting && k <= |s.pipe| &&
      s' == s.(child := Some(c.(diff := c.diff + s.pipe[..k])), pipe := s.pipe[k..])
    case ChildAsks =>
      c.phase == Rewriting && s' == s.(child := Some(c.(phase := Asked)), askPending := true)
    case ChildFinishes =>
      // the acknowledgement arrived: read the pipe to its end, append the diff to the rewritten log
      c.phase == Asked && s.ackPending &&
      s' == s.(child := Some(c.(phase := Finished(true), diff := c.diff + s.pipe,
                                tmp := PrintAll(c.rewritten) + (c.diff + s.pipe))),
               pipe := [], ackPending := false)
    case ChildFails =>
      !c.phase.Finished? && s' == s.(child := Some(c.(phase := Finished(false))))
    case _ => false
  }

  ghost predicate ReapStep(s: System, s': System, switched: bool)
  {
    && s.child.Some? && s.child.value.phase.Finished?
    && (if switched
        then s.child.value.phase.ok && Switched(s.p, s'.p, s.child.value.tmp)
        else GivenUp(s.p, s'.p))
    && s' == s.(p := s'.p, child := None, log := if switched then s.child.value.rewritten + s.since else s.log)
  }

  ghost predicate Next(env: Env, s: System, s': System, step: Step)
  {
    match step
    case Commands(now, items) =>
      var b := DoItems(env, now, Start(s.live, s.p.selected), items);
      b.Some? && FedBatch(s, s', b.value)
    case Transaction(now, multiDb, items, execDb) =>
      var b := DoTransaction(env, now, Start(s.live, s.p.selected), multiDb, items, execDb);
      b.Some? && FedBatch(s, s', b.value)
    case Flush(k) => Flushed(s.p, s'.p, k) && s' == s.(p := s'.p)
    case Fork(rewritten) => ForkStep(env, s, s', rewritten)
    case TransactionForks(_, _, _, _, _, _) => exists m, m' :: ForkInside(env, s, m, m', s', step)
    case Send(k) =>
      s.child.Some? && Sent(s.p, s'.p, k) && s' == s.(p := s'.p, pipe := s.pipe + s.p.blocks[..k])
    case ParentAcks(works) =>
      s.askPending && s.child.Some? &&
      s' == s.(p := s.p.(stopSending := true), askPending := false, ackPending := works)
    case ChildReaped(switched) => ReapStep(s, s', switched)
    case _ => ChildStep(s, s', step)
  }

  // ---------------------------------------------------------------- the invariant

  /** Loading this log, from any options, ends in step with the live dataset. */
  ghost predicate Describes(env: Env, log: seq<Argv>, live: seq<Db>, selected: int)
  {
    && AllKnown(Table(env), log)
    && var c := RunAll(Table(env), FreshClient, log);
       && !c.inMulti && c.queued == []
       && (forall i :: 0 <= i < |c.executed| ==> |c.executed[i]| >= 1)
       && InStep(ReplayAll(env, Session(0, Blank(|live|)), c.executed), live, selected)
  }

  /** The commands fed since the fork lead from the snapshot, with any database selected, to the live dataset. */
  ghost predicate CatchesUp(env: Env, snapshot: seq<Db>, since: seq<Argv>, live: seq<Db>, selected: int)
  {
    && |snapshot| == |live|
    && exists executed: seq<Argv> ::
         && LoadsAs(env, Batch(live, since, executed, selected), false)
         && Leads(env, snapshot, -1, Batch(live, since, executed, selected))
  }

  /** The two processes and the pipe between them hold exactly the bytes fed since the fork. */
  ghost predicate ChildInv(env: Env, s: System)
    requires s.child.Some?
  {
    var c := s.child.value;
    && Rebuilds(env, c.rewritten, c.snapshot)
    && CatchesUp(env, c.snapshot, s.since, s.live, s.p.selected)
    && c.diff + s.pipe + s.p.blocks == PrintAll(s.since)
    && (s.ackPending ==> s.p.stopSending)
    && (c.phase == Finished(true) ==> s.pipe == [] && s.p.stopSending && c.tmp == PrintAll(c.rewritten) + c.diff)
  }

  ghost predicate Inv(env: Env, s: System)
  {
    && 1 <= |s.live| <= INT_MAX && s.p.size == |s.p.file|
    && s.p.file + s.p.buf == PrintAll(s.log)
    && Describes(env, s.log, s.live, s.p.selected)
    && s.child.Some? == s.p.hasChild
    && (s.child.Some? ==> ChildInv(env, s))
    && (s.child.None? ==> s.p.blocks == [])
  }

  /** A server that has just loaded its log, or that starts with none. */
  ghost predicate Init(env: Env, s: System)
  {
    && 1 <= |s.live| <= INT_MAX && s.child.None?
    && s.p == Parent(PrintAll(s.log), [], |PrintAll(s.log)|, -1, false, [], false)
    && Describes(env, s.log, s.live, -1)
  }

  // ---------------------------------------------------------------- composing logs

  /** A run of the loader and one more batch. */
  lemma LoadsBoth(env: Env, a: Batch, b: Batch, done: seq<Argv>)
    requires AllKnown(Table(env), a.written) && LoadsFrom(env, a, false, done) && LoadsAs(env, b, false)
    ensures AllKnown(Table(env), a.written + b.written)
    ensures LoadsFrom(env, Batch(b.dbs, a.written + b.written, a.executed + b.executed, b.selected), false, done)
  {
    hide Table, RunAll;
    KnownAppend(env, a.written, b.written);
    var c0 := Client(false, [], done);
    var c := RunAll(Table(env), c0, a.written);
    RunAllAppend(Table(env), c0, a.written, b.written);
    assert c.executed + [] == c.executed;
    assert c == Client(false, [], done + a.executed);
    assert LoadsFrom(env, b, false, done + a.executed);
    ConcatAssoc(done, a.executed, b.executed);
  }

  lemma LoadsBothAs(env: Env, a: Batch, b: Batch)
    requires LoadsAs(env, a, false) && LoadsAs(env, b, false)
    ensures LoadsAs(env, Batch(b.dbs, a.written + b.written, a.executed + b.executed, b.selected), false)
  {
    var both := Batch(b.dbs, a.written + b.written, a.executed + b.executed, b.selected);
    hide Table, LoadsFrom, AllKnown;
    LoadsBoth(env, a, b, []);
    forall done: seq<Argv>
      ensures LoadsFrom(env, both, false, done)
    {
      LoadsBoth(env, a, b, done);
    }
  }

  lemma LeadsBoth(env: Env, dbs: seq<Db>, selected: int, a: Batch, b: Batch)
    requires Leads(env, dbs, selected, a) && Leads(env, a.dbs, a.selected, b)
    ensures Leads(env, dbs, selected, Batch(b.dbs, a.written + b.written, a.executed + b.executed, b.selected))
  {
    hide ReplayAll;
    forall s: Session | InStep(s, dbs, selected)
      ensures InStep(ReplayAll(env, s, a.executed + b.executed), b.dbs, b.selected)
    {
      ReplayAllAppend(env, s, a.executed, b.executed);
    }
  }

  lemma CatchesUpMore(env: Env, snapshot: seq<Db>, since: seq<Argv>, live: seq<Db>, selected: int, b: Batch)
    requires CatchesUp(env, snapshot, since, live, selected)
    requires Leads(env, live, selected, b) && LoadsAs(env, b, false)
    ensures CatchesUp(env, snapshot, since + b.written, b.dbs, b.selected)
  {
    var executed: seq<Argv> :|
      && LoadsAs(env, Batch(live, since, executed, selected), false)
      && Leads(env, snapshot, -1, Batch(live, since, executed, selected));
    var a := Batch(live, since, executed, selected);
    LeadsCount(env, live, selected, b);
    hide LoadsAs, Leads;
    LoadsBothAs(env, a, b);
    LeadsBoth(env, snapshot, -1, a, b);
  }

  lemma CatchesUpStart(env: Env, live: seq<Db>)
    ensures CatchesUp(env, live, [], live, -1)
  {
    StartLeads(env, live, -1);
    hide LoadsAs, Leads;
    assert Start(live, -1) == Batch(live, [], [], -1);
  }

  /** A described log in the form of a batch. */
  lemma DescribesAs(env: Env, log: seq<Argv>, live: seq<Db>, selected: int) returns (executed: seq<Argv>)
    requires Describes(env, log, live, selected)
    ensures executed == RunAll(Table(env), FreshClient, log).executed
    ensures forall i :: 0 <= i < |executed| ==> |executed[i]| >= 1
    ensures LoadsFrom(env, Batch(live, log, executed, selected), false, [])
    ensures InStep(ReplayAll(env, Session(0, Blank(|live|)), executed), live, selected)
  {
    hide Table, RunAll, ReplayAll;
    executed := RunAll(Table(env), FreshClient, log).executed;
    assert executed + [] == executed && [] + executed == executed;
  }

  /** A log and the batch that follows it. */
  lemma DescribesMore(env: Env, log: seq<Argv>, live: seq<Db>, selected: int, executed: seq<Argv>, b: Batch)
    requires AllKnown(Table(env), log) && LoadsFrom(env, Batch(live, log, executed, selected), false, [])
    requires forall i :: 0 <= i < |executed| ==> |executed[i]| >= 1
    requires InStep(ReplayAll(env, Session(0, Blank(|live|)), executed), live, selected)
    requires Leads(env, live, selected, b) && LoadsAs(env, b, false)
    ensures Describes(env, log + b.written, b.dbs, b.selected)
  {
    hide Table, RunAll, ReplayAll, LoadsAs;
    LoadsBoth(env, Batch(live, log, executed, selected), b, []);
    var c := RunAll(Table(env), FreshClient, log + b.written);
    assert c.executed + [] == c.executed && [] + (executed + b.executed) == executed + b.executed;
    ReplayAllAppend(env, Session(0, Blank(|live|)), executed, b.executed);
  }

  /** A log of the rewrite is loaded as it is, and ends in step with its snapshot. */
  lemma RebuiltLoads(env: Env, snapshot: seq<Db>, rewritten: seq<Argv>)
    requires Rebuilds(env, rewritten, snapshot)
    ensures AllKnown(Table(env), rewritten) && LoadsFrom(env, Batch(snapshot, rewritten, rewritten, -1), false, [])
    ensures forall i :: 0 <= i < |rewritten| ==> |rewritten[i]| >= 1
    ensures InStep(ReplayAll(env, Session(0, Blank(|snapshot|)), rewritten), snapshot, -1)
  {
    RunLoggable(env, FreshClient, rewritten);
    hide Table, RunAll, ReplayAll;
    assert [] + rewritten == rewritten && rewritten + [] == rewritten;
  }

  lemma CatchUpBatch(env: Env, snapshot: seq<Db>, since: seq<Argv>, live: seq<Db>, selected: int) returns (b: Batch)
    requires CatchesUp(env, snapshot, since, live, selected)
    ensures b.dbs == live && b.written == since && b.selected == selected
    ensures LoadsAs(env, b, false) && Leads(env, snapshot, -1, b)
  {
    hide LoadsAs, Leads;
    var executed: seq<Argv> :|
      && LoadsAs(env, Batch(live, since, executed, selected), false)
      && Leads(env, snapshot, -1, Batch(live, since, executed, selected));
    b := Batch(live, since, executed, selected);
  }

  lemma AnySelected(env: Env, log: seq<Argv>, live: seq<Db>, selected: int)
    requires Describes(env, log, live, selected)
    ensures Describes(env, log, live, -1)
  {
    hide RunAll, ReplayAll;
  }

  /** The rewritten log and what was fed since the fork describe the live dataset. */
  lemma RewrittenDescribes(env: Env, snapshot: seq<Db>, rewritten: seq<Argv>, since: seq<Argv>, live: seq<Db>, selected: int)
    requires Rebuilds(env, rewritten, snapshot) && CatchesUp(env, snapshot, since, live, selected) && |live| >= 1
    ensures Describes(env, rewritten + since, live, -1)
  {
    hide Rebuilds, CatchesUp, Describes, LoadsAs, LoadsFrom, Leads, InStep, ReplayAll, RunAll;
    RebuiltLoads(env, snapshot, rewritten);
    var b := CatchUpBatch(env, snapshot, since, live, selected);
    DescribesMore(env, rewritten, snapshot, -1, rewritten, b);
    AnySelected(env, rewritten + since, live, selected);
  }

  // ---------------------------------------------------------------- every step keeps the invariant

  lemma FeedKeepsInv(env: Env, s: System, s': System, b: Batch)
    requires Inv(env, s) && FedBatch(s, s', b)
    requires Leads(env, s.live, s.p.selected, b) && LoadsAs(env, b, false)
    ensures Inv(env, s')
  {
    hide Describes, CatchesUp, Rebuilds, PrintAll, Leads, LoadsAs;
    var bytes := PrintAll(b.written);
    LeadsCount(env, s.live, s.p.selected, b);
    PrintAllAppend(s.log, b.written);
    ConcatAssoc(s.p.file, s.p.buf, bytes);
    DescribesBatch(env, s.log, s.live, s.p.selected, b);
    if s.child.Some? {
      var c := s.child.value;
      PrintAllAppend(s.since, b.written);
      ConcatAssoc(c.diff + s.pipe, s.p.blocks, bytes);
      CatchesUpMore(env, c.snapshot, s.since, s.live, s.p.selected, b);
    }
  }

  lemma DescribesBatch(env: Env, log: seq<Argv>, live: seq<Db>, selected: int, b: Batch)
    requires Describes(env, log, live, selected) && Leads(env, live, selected, b) && LoadsAs(env, b, false)
    ensures Describes(env, log + b.written, b.dbs, b.selected)
  {
    var executed := DescribesAs(env, log, live, selected);
    hide RunAll, ReplayAll, LoadsAs, LoadsFrom, Leads;
    DescribesMore(env, log, live, selected, executed, b);
  }

  lemma SelectedInRange(env: Env, s: System)
    requires Inv(env, s)
    ensures s.p.selected < |s.live| <= INT_MAX
  {
    hide ReplayAll, RunAll, CatchesUp, Rebuilds, PrintAll;
  }

  lemma FlushKeepsInv(env: Env, s: System, s': System, k: nat)
    requires Inv(env, s) && Flushed(s.p, s'.p, k) && s' == s.(p := s'.p)
    ensures Inv(env, s')
  {
    hide Describes, CatchesUp, Rebuilds, PrintAll;
    assert s.p.buf == s.p.buf[..k] + s.p.buf[k..];
    ConcatAssoc(s.p.file, s.p.buf[..k], s.p.buf[k..]);
  }

  lemma ForkKeepsInv(env: Env, s: System, s': System, rewritten: seq<Argv>)
    requires Inv(env, s) && ForkStep(env, s, s', rewritten)
    ensures Inv(env, s')
  {
    hide CatchesUp, Rebuilds, ReplayAll, RunAll;
    CatchesUpStart(env, s.live);
  }

  lemma CatchesUpOnce(env: Env, snapshot: seq<Db>, b: Batch)
    requires Leads(env, snapshot, -1, b) && LoadsAs(env, b, false)
    ensures CatchesUp(env, snapshot, b.written, b.dbs, b.selected)
  {
    LeadsCount(env, snapshot, -1, b);
    hide Leads, LoadsAs;
    assert b == Batch(b.dbs, b.written, b.executed, b.selected);
  }

  /** The state after a transaction with the fork inside. */
  lemma ForkedInside(env: Env, s: System, m: System, m': System, s': System, step: Step) returns (a: Batch, b: Batch)
    requires step.TransactionForks? && ForkInside(env, s, m, m', s', step) && s.p.blocks == []
    ensures Opening(env, step.now, Start(s.live, s.p.selected), step.multiDb, step.before) == Some(a)
    ensures Closing(env, step.now, Start(a.dbs, -1), step.after, step.execDb) == Some(b)
    ensures s' == System(Parent(s.p.file, s.p.buf + PrintAll(a.written) + PrintAll(b.written), s.p.size, b.selected,
                                true, PrintAll(b.written), false),
                         b.dbs, Some(Child(Rewriting, a.dbs, step.rewritten, [], [])), [], false, false,
                         s.log + a.written + b.written, b.written)
    ensures Rebuilds(env, step.rewritten, a.dbs)
  {
    hide Opening, Closing, Rebuilds, PrintAll, Storable;
    a := Opening(env, step.now, Start(s.live, s.p.selected), step.multiDb, step.before).value;
    b := Closing(env, step.now, Start(a.dbs, -1), step.after, step.execDb).value;
    assert [] + b.written == b.written && [] + PrintAll(b.written) == PrintAll(b.written);
  }

  lemma ForkInsideKeepsInv(env: Env, s: System, m: System, m': System, s': System, step: Step)
    requires Lawful(env) && Inv(env, s) && step.TransactionForks? && ForkInside(env, s, m, m', s', step)
    ensures Inv(env, s')
  {
    hide *;
    SelectedInRange(env, s);
    NoChildBefore(env, s, m, m', s', step);
    var a, b := ForkedInside(env, s, m, m', s', step);
    DividedLeads(env, step.now, s.live, s.p.selected, step.multiDb, step.before, step.after, step.execDb);
    ForkedInv(env, s, s', step.rewritten, a, b);
  }

  lemma ForkedInv(env: Env, s: System, s': System, rewritten: seq<Argv>, a: Batch, b: Batch)
    requires Inv(env, s) && Rebuilds(env, rewritten, a.dbs)
    requires Leads(env, s.live, s.p.selected, Behind(a, b)) && LoadsAs(env, Behind(a, b), false)
    requires |a.dbs| == |s.live| && Leads(env, a.dbs, -1, b) && LoadsAs(env, b, false)
    requires s' == System(Parent(s.p.file, s.p.buf + PrintAll(a.written) + PrintAll(b.written), s.p.size, b.selected,
                                 true, PrintAll(b.written), false),
                          b.dbs, Some(Child(Rewriting, a.dbs, rewritten, [], [])), [], false, false,
                          s.log + a.written + b.written, b.written)
    ensures Inv(env, s')
  {
    hide Describes, CatchesUp, Rebuilds, PrintAll, Leads, LoadsAs;
    LeadsCount(env, a.dbs, -1, b);
    DescribesBatch(env, s.log, s.live, s.p.selected, Behind(a, b));
    CatchesUpOnce(env, a.dbs, b);
    LogBytes(s, a, b);
  }

  lemma NoChildBefore(env: Env, s: System, m: System, m': System, s': System, step: Step)
    requires Inv(env, s) && step.TransactionForks? && ForkInside(env, s, m, m', s', step)
    ensures s.p.blocks == []
  {
    hide Describes, ChildInv, Rebuilds, PrintAll, Opening, Closing, Storable;
  }

  lemma LogBytes(s: System, a: Batch, b: Batch)
    requires s.p.file + s.p.buf == PrintAll(s.log)
    ensures s.p.file + (s.p.buf + PrintAll(a.written) + PrintAll(b.written)) == PrintAll(s.log + a.written + b.written)
    ensures s.log + (a.written + b.written) == s.log + a.written + b.written
    ensures [] + [] + PrintAll(b.written) == PrintAll(b.written)
  {
    hide PrintAll;
    PrintAllAppend(s.log, a.written);
    PrintAllAppend(s.log + a.written, b.written);
    ConcatAssoc(s.p.file, s.p.buf, PrintAll(a.written));
    ConcatAssoc(s.p.file, s.p.buf + PrintAll(a.written), PrintAll(b.written));
  }

  lemma SendKeepsInv(env: Env, s: System, s': System, k: nat)
    requires Inv(env, s) && s.child.Some? && Sent(s.p, s'.p, k)
    requires s' == s.(p := s'.p, pipe := s.pipe + s.p.blocks[..k])
    ensures Inv(env, s')
  {
    hide Describes, CatchesUp, Rebuilds, PrintAll;
    var c, blocks := s.child.value, s.p.blocks;
    assert blocks == blocks[..k] + blocks[k..];
    Interleave(c.diff, s.pipe, blocks[..k], blocks[k..]);
    if s.p.stopSending { assert blocks[..0] == [] && s.pipe + [] == s.pipe; }
  }

  lemma Interleave(a: Bytes, b: Bytes, c: Bytes, d: Bytes)
    ensures a + b + (c + d) == a + (b + c) + d
    ensures a + b + (c + d) == (a + b) + c + d
  {
  }

  lemma ChildKeepsInv(env: Env, s: System, s': System, step: Step)
    requires Inv(env, s) && ChildStep(s, s', step)
    ensures Inv(env, s')
  {
    hide Describes, CatchesUp, Rebuilds, PrintAll;
    var c := s.child.value;
    match step {
      case ChildReads(k) =>
        assert s.pipe == s.pipe[..k] + s.pipe[k..];
        Interleave(c.diff, [], s.pipe[..k], s.pipe[k..]);
        assert c.diff + [] == c.diff;
      case ChildFinishes =>
        assert c.diff + s.pipe + [] == c.diff + s.pipe;
      case _ =>
    }
  }

  lemma ReapKeepsInv(env: Env, s: System, s': System, switched: bool)
    requires Inv(env, s) && ReapStep(s, s', switched)
    ensures Inv(env, s')
  {
    hide Describes, CatchesUp, Rebuilds, PrintAll;
    if switched {
      var c := s.child.value;
      PrintAllAppend(c.rewritten, s.since);
      assert c.diff + [] == c.diff;
      ConcatAssoc(PrintAll(c.rewritten), c.diff, s.p.blocks);
      assert s'.p.file + [] == s'.p.file;
      RewrittenDescribes(env, c.snapshot, c.rewritten, s.since, s.live, s.p.selected);
    }
  }

  lemma AckKeepsInv(env: Env, s: System, s': System, works: bool)
    requires Inv(env, s) && s.child.Some?
    requires s' == s.(p := s.p.(stopSending := true), askPending := false, ackPending := works)
    ensures Inv(env, s')
  {
    hide Describes, CatchesUp, Rebuilds, PrintAll;
  }

  /** Every step of the two processes keeps the invariant. */
  lemma NextKeepsInv(env: Env, s: System, s': System, step: Step)
    requires Lawful(env) && Inv(env, s) && Next(env, s, s', step)
    ensures Inv(env, s')
  {
    hide Inv, Lawful, DoItems, DoTransaction, FedBatch, Leads, LoadsAs, ForkInside;
    SelectedInRange(env, s);
    match step {
      case Commands(now, items) =>
        CommandsLead(env, now, s.live, s.p.selected, items);
        FeedKeepsInv(env, s, s', DoItems(env, now, Start(s.live, s.p.selected), items).value);
      case Transaction(now, multiDb, items, execDb) =>
        TransactionLeads(env, now, s.live, s.p.selected, multiDb, items, execDb);
        FeedKeepsInv(env, s, s', DoTransaction(env, now, Start(s.live, s.p.selected), multiDb, items, execDb).value);
      case Flush(k) => FlushKeepsInv(env, s, s', k);
      case Fork(rewritten) => ForkKeepsInv(env, s, s', rewritten);
      case TransactionForks(_, _, _, _, _, _) =>
        var m, m' :| ForkInside(env, s, m, m', s', step);
        ForkInsideKeepsInv(env, s, m, m', s', step);
      case Send(k) => SendKeepsInv(env, s, s', k);
      case ParentAcks(works) => AckKeepsInv(env, s, s', works);
      case ChildReaped(switched) => ReapKeepsInv(env, s, s', switched);
      case _ => ChildKeepsInv(env, s, s', step);
    }
  }

  // ---------------------------------------------------------------- runs

  /** A run: states linked by steps, from a server that has just loaded its log. */
  ghost predicate IsRun(env: Env, states: seq<System>, steps: seq<Step>)
  {
    && |states| == |steps| + 1 && Init(env, states[0])
    && forall i :: 0 <= i < |steps| ==> Next(env, states[i], states[i + 1], steps[i])
  }

  lemma InitInv(env: Env, s: System)
    requires Init(env, s)
    ensures Inv(env, s)
  {
    hide Describes, PrintAll;
    assert PrintAll(s.log) + [] == PrintAll(s.log);
  }

  lemma {:induction false} RunInv(env: Env, states: seq<System>, steps: seq<Step>, n: nat)
    requires Lawful(env) && IsRun(env, states, steps) && n < |states|
    ensures Inv(env, states[n])
  {
    hide Lawful, Inv, Init, Next;
    if n == 0 {
      InitInv(env, states[0]);
    } else {
      RunInv(env, states, steps, n - 1);
      NextKeepsInv(env, states[n - 1], states[n], steps[n - 1]);
    }
  }

  /** Loading bytes into empty databases, with these options, gives exactly these databases. */
  ghost predicate LoadsTo(env: Env, o: Options, bytes: Bytes, dbs: seq<Db>)
  {
    match Load(Table(env), o, bytes)
    case EmptyLog => dbs == Blank(|dbs|)
    case Loaded(executed, size) =>
      && size == |bytes| && (forall i :: 0 <= i < |executed| ==> |executed[i]| >= 1)
      && ReplayAll(env, Session(0, Blank(|dbs|)), executed).dbs == dbs
    case _ => false
  }

  lemma DescribedLoads(env: Env, o: Options, log: seq<Argv>, live: seq<Db>, selected: int)
    requires Describes(env, log, live, selected)
    ensures LoadsTo(env, o, PrintAll(log), live)
  {
    var executed := DescribesAs(env, log, live, selected);
    if log == [] {
      assert executed == [];
    } else {
      hide RunAll, ReplayAll, PrintAll, Load, BeforeMulti, Table;
      LoadOfLog(Table(env), o, log);
    }
  }

  /** A rewritten log loads to exactly the dataset it was written from, under any loading options. */
  lemma RewrittenLoads(env: Env, o: Options, rewritten: seq<Argv>, dbs: seq<Db>)
    requires Rebuilds(env, rewritten, dbs) && |dbs| >= 1
    ensures LoadsTo(env, o, PrintAll(rewritten), dbs)
  {
    hide Rebuilds, Describes, LoadsTo, PrintAll, CatchesUp;
    CatchesUpStart(env, dbs);
    assert rewritten + [] == rewritten;
    RewrittenDescribes(env, dbs, rewritten, [], dbs, -1);
    DescribedLoads(env, o, rewritten, dbs, -1);
  }

  /**
   In every reachable state of every interleaving, the append-only file together
   with the buffer not yet flushed loads to the live dataset, byte for byte, under
   any loading options; and the recorded size is the size of the file.
   */
  lemma LogReplaysToLive(env: Env, o: Options, states: seq<System>, steps: seq<Step>, n: nat)
    requires Lawful(env) && IsRun(env, states, steps) && n < |states|
    ensures var s := states[n];
            LoadsTo(env, o, s.p.file + s.p.buf, s.live) && s.p.size == |s.p.file|
  {
    RunInv(env, states, steps, n);
    hide IsRun, Describes, LoadsTo, PrintAll, ChildInv;
    var s := states[n];
    DescribedLoads(env, o, s.log, s.live, s.p.selected);
  }

  /** While a child is rewriting, its diff, the pipe and the parent's blocks are the bytes fed since the fork. */
  lemma NothingLostInTransit(env: Env, states: seq<System>, steps: seq<Step>, n: nat)
    requires Lawful(env) && IsRun(env, states, steps) && n < |states| && states[n].child.Some?
    ensures var s := states[n];
            s.child.value.diff + s.pipe + s.p.blocks == PrintAll(s.since)
  {
    RunInv(env, states, steps, n);
    hide IsRun, Describes, PrintAll, CatchesUp, Rebuilds;
  }

  /**
   A crash at any moment leaves the file alone.  What it holds of the log is
   then loaded: the commands it wholly contains, less an open transaction.
   */
  lemma CrashKeepsPrefix(env: Env, o: Options, states: seq<System>, steps: seq<Step>, n: nat)
    requires Lawful(env) && IsRun(env, states, steps) && n < |states|
    ensures var s := states[n];
            && AllKnown(Table(env), s.log) && |s.p.file| <= |PrintAll(s.log)|
            && Load(Table(env), o, s.p.file) == PrefixOutcome(Table(env), o, s.log, |s.p.file|)
  {
    RunInv(env, states, steps, n);
    hide IsRun, PrintAll, ChildInv, RunAll, ReplayAll, Load, PrefixOutcome;
    var s := states[n];
    assert s.p.file == PrintAll(s.log)[..|s.p.file|];
    LoadOfPrefix(Table(env), o, s.log, |s.p.file|);
  }
}
