/**
 Loading the append-only file (aof.c, loadAppendOnlyFile): what is executed,
 where the file is cut when its tail is damaged, and when the loader gives up.
 */
module AofLoad {
  import opened ByteStrings
  import opened AofLog

  /** What lookupCommand finds for a command name. */
  datatype Kind = Unknown | Multi | Exec | Plain

  type CommandTable = Bytes -> Kind

  /**
   The fake client: commands are queued inside MULTI and run by EXEC. A MULTI
   that was queued is run like the rest, and refused because it is nested.
   */
  datatype Client = Client(inMulti: bool, queued: seq<Argv>, executed: seq<Argv>)

  const FreshClient := Client(false, [], [])

  function RunCommand(c: Client, kind: Kind, argv: Argv): Client
  {
    if c.inMulti && kind != Exec then c.(queued := c.queued + [argv])
    else match kind
      case Multi => c.(inMulti := true, queued := [])
      case Exec => if c.inMulti then Client(false, [], c.executed + c.queued) else c
      case _ => c.(executed := c.executed + [argv])
  }

  ghost predicate AllKnown(table: CommandTable, cmds: seq<Argv>)
  {
    AllPrintable(cmds) && forall i :: 0 <= i < |cmds| ==> table(cmds[i][0]) != Unknown
  }

  function RunAll(table: CommandTable, c: Client, cmds: seq<Argv>): Client
    requires forall i :: 0 <= i < |cmds| ==> |cmds[i]| >= 1
    decreases |cmds|
  {
    if cmds == [] then c
    else RunAll(table, RunCommand(c, table(cmds[0][0]), cmds[0]), cmds[1..])
  }

  datatype ExitReason = FormatError | ReadError | UnexpectedEof | UnknownCommand

  /**
   The end of a load: an empty file, a file that starts with an RDB preamble,
   a loaded log left with the given size, or an exit of the server.
   */
  datatype Outcome = EmptyLog | RdbPreamble | Loaded(executed: seq<Argv>, size: nat) | Exited(reason: ExitReason)

  /** aof-load-truncated, and whether truncate(2) and lseek(2) succeed. */
  datatype Options = Options(loadTruncated: bool, truncateWorks: bool)

  const Truncating := Options(true, true)

  const PREAMBLE: Bytes := [82, 69, 68, 73, 83]

  lemma PreambleText()
    ensures PREAMBLE == Text("REDIS")
  {
  }

  /** The label uxeof: cut the file at size, or give up. */
  function CutAt(o: Options, c: Client, size: nat): Outcome
  {
    if o.loadTruncated && o.truncateWorks then Loaded(c.executed, size) else Exited(UnexpectedEof)
  }

  /** The state of the loader between two commands; s is what is left to read of a file of size total. */
  function LoadFrom(table: CommandTable, o: Options, total: nat, s: Bytes, c: Client,
                    validUpTo: nat, validBeforeMulti: nat): Outcome
    requires |s| <= total
    decreases |s|
  {
    if s == [] then
      if c.inMulti then CutAt(o, c, validBeforeMulti) else Loaded(c.executed, total)
    else match ReadCommand(s)
      case Short => CutAt(o, c, validUpTo)
      case Unreadable => Exited(ReadError)
      case Malformed => Exited(FormatError)
      case Got(argv, rest) =>
        var kind := table(argv[0]);
        if kind == Unknown then Exited(UnknownCommand)
        else
          LoadFrom(table, o, total, rest, RunCommand(c, kind, argv),
                   if o.loadTruncated then total - |rest| else validUpTo,
                   if kind == Multi then validUpTo else validBeforeMulti)
  }

  function Load(table: CommandTable, o: Options, file: Bytes): Outcome
  {
    if file == [] then EmptyLog
    else if PREAMBLE <= file then RdbPreamble
    else LoadFrom(table, o, |file|, file, FreshClient, 0, 0)
  }

  /**
   Whatever the file: an unexpected end stops the server only where the file may
   not or cannot be cut, and only a file that may and can be cut gets shorter.
   */
  lemma {:induction false} CutOnlyIfAllowed(table: CommandTable, o: Options, total: nat, s: Bytes, c: Client, at: nat, before: nat)
    requires |s| <= total
    ensures var r := LoadFrom(table, o, total, s, c, at, before);
            && (r == Exited(UnexpectedEof) ==> !(o.loadTruncated && o.truncateWorks))
            && (r.Loaded? && r.size != total ==> o.loadTruncated && o.truncateWorks)
    decreases |s|
  {
    hide ReadCommand, RunCommand;
    if s != [] {
      var r := ReadCommand(s);
      if r.Got? && table(r.value[0]) != Unknown {
        LoadStep(table, o, total, s, r.value, r.rest, c, at, before);
        CutOnlyIfAllowed(table, o, total, r.rest, RunCommand(c, table(r.value[0]), r.value),
                         if o.loadTruncated then total - |r.rest| else at,
                         if table(r.value[0]) == Multi then at else before);
      }
    }
  }

  // ---------------------------------------------------------------- loading printed commands

  /** The offset of the end of a run of commands printed from offset at. */
  function EndOf(cmds: seq<Argv>, at: nat): nat { at + |PrintAll(cmds)| }

  /** The offset recorded at the last MULTI of cmds. */
  function BeforeMulti(table: CommandTable, cmds: seq<Argv>, at: nat, before: nat): nat
    requires forall i :: 0 <= i < |cmds| ==> |cmds[i]| >= 1
    decreases |cmds|
  {
    if cmds == [] then before
    else BeforeMulti(table, cmds[1..], at + |Print(cmds[0])|, if table(cmds[0][0]) == Multi then at else before)
  }

  lemma LoadStep(table: CommandTable, o: Options, total: nat, s: Bytes, argv: Argv, rest: Bytes, c: Client, at: nat, before: nat)
    requires s != [] && |s| <= total && ReadCommand(s) == Got(argv, rest) && table(argv[0]) != Unknown
    ensures LoadFrom(table, o, total, s, c, at, before)
         == LoadFrom(table, o, total, rest, RunCommand(c, table(argv[0]), argv),
                     if o.loadTruncated then total - |rest| else at,
                     if table(argv[0]) == Multi then at else before)
  {
    hide ReadCommand;
  }

  lemma LoadStart(table: CommandTable, o: Options, file: Bytes)
    ensures file == [] ==> Load(table, o, file) == EmptyLog
    ensures file != [] && PREAMBLE <= file ==> Load(table, o, file) == RdbPreamble
    ensures file != [] && !(PREAMBLE <= file) ==>
              Load(table, o, file) == LoadFrom(table, o, |file|, file, FreshClient, 0, 0)
  {
    hide LoadFrom;
  }

  lemma LoadStop(table: CommandTable, o: Options, total: nat, s: Bytes, c: Client, at: nat, before: nat)
    requires s != [] && |s| <= total
    requires var r := ReadCommand(s); r.Got? ==> table(r.value[0]) == Unknown
    ensures LoadFrom(table, o, total, s, c, at, before)
         == match ReadCommand(s)
            case Short => CutAt(o, c, at)
            case Unreadable => Exited(ReadError)
            case Malformed => Exited(FormatError)
            case Got(_, _) => Exited(UnknownCommand)
  {
    hide ReadCommand;
  }

  lemma LoadEnd(table: CommandTable, o: Options, total: nat, c: Client, at: nat, before: nat)
    ensures LoadFrom(table, o, total, [], c, at, before)
         == if c.inMulti then CutAt(o, c, before) else Loaded(c.executed, total)
  {
  }

  lemma LoadOne(table: CommandTable, o: Options, total: nat, argv: Argv, rest: Bytes, c: Client, at: nat, before: nat)
    requires Printable(argv) && table(argv[0]) != Unknown
    requires |Print(argv) + rest| <= total
    ensures LoadFrom(table, o, total, Print(argv) + rest, c, at, before)
         == LoadFrom(table, o, total, rest, RunCommand(c, table(argv[0]), argv),
                     if o.loadTruncated then total - |rest| else at,
                     if table(argv[0]) == Multi then at else before)
  {
    ReadPrinted(argv, rest);
    LoadStep(table, o, total, Print(argv) + rest, argv, rest, c, at, before);
  }

  /** Whole printed commands are run in order, and the valid offset advances over them. */
  lemma {:induction false} LoadWhole(table: CommandTable, o: Options, total: nat, cmds: seq<Argv>, tail: Bytes, c: Client, at: nat, before: nat)
    requires AllKnown(table, cmds) && o.loadTruncated
    requires total == at + |PrintAll(cmds)| + |tail|
    ensures LoadFrom(table, o, total, PrintAll(cmds) + tail, c, at, before)
         == LoadFrom(table, o, total, tail, RunAll(table, c, cmds), EndOf(cmds, at), BeforeMulti(table, cmds, at, before))
  {
    hide ReadCommand, LoadFrom;
    if cmds == [] {
      assert PrintAll(cmds) + tail == tail;
    } else {
      var argv, rest := cmds[0], PrintAll(cmds[1..]) + tail;
      ConcatAssoc(Print(argv), PrintAll(cmds[1..]), tail);
      LoadOne(table, o, total, argv, rest, c, at, before);
      LoadWhole(table, o, total, cmds[1..], tail, RunCommand(c, table(argv[0]), argv), at + |Print(argv)|,
                if table(argv[0]) == Multi then at else before);
    }
  }

  /** The same without aof-load-truncated: the offsets are never used. */
  lemma {:induction false} LoadWholeStrict(table: CommandTable, o: Options, total: nat, cmds: seq<Argv>, tail: Bytes, c: Client, before: nat)
    returns (before': nat)
    requires AllKnown(table, cmds) && !o.loadTruncated
    requires total >= |PrintAll(cmds)| + |tail|
    ensures LoadFrom(table, o, total, PrintAll(cmds) + tail, c, 0, before)
         == LoadFrom(table, o, total, tail, RunAll(table, c, cmds), 0, before')
  {
    if cmds == [] {
      assert PrintAll(cmds) + tail == tail;
      before' := before;
    } else {
      var argv, rest := cmds[0], PrintAll(cmds[1..]) + tail;
      ConcatAssoc(Print(argv), PrintAll(cmds[1..]), tail);
      LoadOne(table, o, total, argv, rest, c, 0, before);
      before' := LoadWholeStrict(table, o, total, cmds[1..], tail, RunCommand(c, table(argv[0]), argv),
                                 if table(argv[0]) == Multi then 0 else before);
    }
  }

  // ---------------------------------------------------------------- prefixes of a log

  /** How many commands lie wholly within the first n bytes of the log. */
  function Whole(cmds: seq<Argv>, n: nat): (k: nat)
    ensures k <= |cmds|
  {
    if cmds == [] || n < |Print(cmds[0])| then 0 else 1 + Whole(cmds[1..], n - |Print(cmds[0])|)
  }

  /** The first n bytes of a log are its wholly contained commands and a proper prefix of the next one. */
  lemma {:induction false} SplitPrefix(cmds: seq<Argv>, n: nat)
    requires n <= |PrintAll(cmds)|
    ensures var k := Whole(cmds, n);
            var whole := PrintAll(cmds[..k]);
            && |whole| <= n
            && (k == |cmds| ==> n == |whole|)
            && (k < |cmds| ==> n - |whole| < |Print(cmds[k])|)
            && PrintAll(cmds)[..n] == whole + if k < |cmds| then Print(cmds[k])[..n - |whole|] else []
  {
    hide Print;
    var k := Whole(cmds, n);
    if k == 0 {
      assert cmds[..0] == [];
      if cmds != [] { TakeConcat(Print(cmds[0]), PrintAll(cmds[1..]), n); }
    } else {
      var p, rest := Print(cmds[0]), cmds[1..];
      SplitPrefix(rest, n - |p|);
      assert cmds[..k][1..] == rest[..k - 1];
      TakeConcat(p, PrintAll(rest), n);
      if k < |cmds| {
        ConcatAssoc(p, PrintAll(rest[..k - 1]), Print(cmds[k])[..n - |PrintAll(cmds[..k])|]);
      }
    }
  }

  lemma LoadCutCommand(table: CommandTable, o: Options, total: nat, argv: Argv, m: nat, c: Client, at: nat, before: nat)
    requires Printable(argv) && 0 < m < |Print(argv)| && m <= total
    ensures LoadFrom(table, o, total, Print(argv)[..m], c, at, before) == CutAt(o, c, at)
  {
    ReadCut(argv, m);
    hide ReadCommand;
  }

  /** What loading the first n bytes of a log comes to: k whole commands, and perhaps part of another. */
  function PrefixOutcome(table: CommandTable, o: Options, cmds: seq<Argv>, n: nat): Outcome
    requires forall i :: 0 <= i < |cmds| ==> |cmds[i]| >= 1
  {
    var whole := cmds[..Whole(cmds, n)];
    var c := RunAll(table, FreshClient, whole);
    if n == 0 then EmptyLog
    else if |PrintAll(whole)| < n then CutAt(o, c, |PrintAll(whole)|)
    else if c.inMulti then CutAt(o, c, BeforeMulti(table, whole, 0, 0))
    else Loaded(c.executed, n)
  }

  lemma LoadTail(table: CommandTable, o: Options, total: nat, argv: Argv, m: nat, c: Client, at: nat, before: nat)
    requires Printable(argv) && m < |Print(argv)| && m <= total
    ensures LoadFrom(table, o, total, Print(argv)[..m], c, at, before) ==
              if m > 0 then CutAt(o, c, at) else if c.inMulti then CutAt(o, c, before) else Loaded(c.executed, total)
  {
    if m > 0 {
      LoadCutCommand(table, o, total, argv, m, c, at, before);
    }
  }

  lemma PrintedIsNoPreamble(cmds: seq<Argv>, n: nat)
    requires n <= |PrintAll(cmds)|
    ensures !(PREAMBLE <= PrintAll(cmds)[..n])
  {
    if n > 0 {
      assert PrintAll(cmds)[..n][0] == Print(cmds[0])[0] == STAR;
    }
  }

  /**
   Loading any byte prefix of a log runs exactly the commands it wholly contains,
   less those of a MULTI that has no EXEC yet; the only possible exit is the
   unexpected end of file, and only when truncated logs are refused.
   */
  lemma LoadOfPrefix(table: CommandTable, o: Options, cmds: seq<Argv>, n: nat)
    requires AllKnown(table, cmds) && n <= |PrintAll(cmds)|
    ensures Load(table, o, PrintAll(cmds)[..n]) == PrefixOutcome(table, o, cmds, n)
  {
    assert n > 0 ==> cmds != [];
    hide LoadFrom, Print, RunAll, Whole, PrintAll, BeforeMulti;
    if n > 0 {
      var k := Whole(cmds, n);
      var whole := cmds[..k];
      SplitPrefix(cmds, n);
      PrintedIsNoPreamble(cmds, n);
      var m := n - |PrintAll(whole)|;
      var next := if k < |cmds| then cmds[k] else cmds[0];
      var tail := Print(next)[..m];
      var c := RunAll(table, FreshClient, whole);
      assert PrintAll(cmds)[..n] == PrintAll(whole) + tail;
      if o.loadTruncated {
        LoadWhole(table, o, n, whole, tail, FreshClient, 0, 0);
        LoadTail(table, o, n, next, m, c, EndOf(whole, 0), BeforeMulti(table, whole, 0, 0));
      } else {
        var before := LoadWholeStrict(table, o, n, whole, tail, FreshClient, 0);
        LoadTail(table, o, n, next, m, c, 0, before);
      }
    }
  }

  lemma {:induction false} WholeLog(cmds: seq<Argv>)
    ensures Whole(cmds, |PrintAll(cmds)|) == |cmds|
  {
    if cmds != [] {
      WholeLog(cmds[1..]);
    }
  }

  /** Loading a complete log runs exactly its commands; an open transaction at its end is cut off. */
  lemma LoadOfLog(table: CommandTable, o: Options, cmds: seq<Argv>)
    requires AllKnown(table, cmds) && cmds != []
    ensures var c := RunAll(table, FreshClient, cmds);
            Load(table, o, PrintAll(cmds)) ==
              if c.inMulti then CutAt(o, c, BeforeMulti(table, cmds, 0, 0)) else Loaded(c.executed, |PrintAll(cmds)|)
  {
    var n := |PrintAll(cmds)|;
    assert n > 0;
    WholeLog(cmds);
    LoadOfPrefix(table, o, cmds, n);
    assert PrintAll(cmds)[..n] == PrintAll(cmds) && cmds[..|cmds|] == cmds;
    hide Load, PrintAll;
  }

  // ---------------------------------------------------------------- the file left behind

  lemma {:induction false} PrintAllAppend(a: seq<Argv>, b: seq<Argv>)
    ensures PrintAll(a + b) == PrintAll(a) + PrintAll(b)
  {
    if a == [] {
      assert a + b == b;
    } else {
      assert (a + b)[1..] == a[1..] + b;
      PrintAllAppend(a[1..], b);
      ConcatAssoc(Print(a[0]), PrintAll(a[1..]), PrintAll(b));
    }
  }

  lemma {:induction false} RunAllAppend(table: CommandTable, c: Client, a: seq<Argv>, b: seq<Argv>)
    requires forall i :: 0 <= i < |a| ==> |a[i]| >= 1
    requires forall i :: 0 <= i < |b| ==> |b[i]| >= 1
    ensures RunAll(table, c, a + b) == RunAll(table, RunAll(table, c, a), b)
    decreases |a|
  {
    if a == [] {
      assert a + b == b;
    } else {
      assert (a + b)[1..] == a[1..] + b;
      RunAllAppend(table, RunCommand(c, table(a[0][0]), a[0]), a[1..], b);
    }
  }

  lemma {:induction false} BeforeMultiLast(table: CommandTable, cmds: seq<Argv>, x: Argv, at: nat, before: nat)
    requires forall i :: 0 <= i < |cmds| ==> |cmds[i]| >= 1
    requires |x| >= 1
    ensures BeforeMulti(table, cmds + [x], at, before)
         == if table(x[0]) == Multi then EndOf(cmds, at) else BeforeMulti(table, cmds, at, before)
    decreases |cmds|
  {
    if cmds != [] {
      assert (cmds + [x])[1..] == cmds[1..] + [x];
      BeforeMultiLast(table, cmds[1..], x, at + |Print(cmds[0])|, if table(cmds[0][0]) == Multi then at else before);
    }
  }

  lemma RunLast(table: CommandTable, cmds: seq<Argv>, x: Argv)
    requires forall i :: 0 <= i < |cmds| ==> |cmds[i]| >= 1
    requires |x| >= 1
    ensures RunAll(table, FreshClient, cmds + [x]) == RunCommand(RunAll(table, FreshClient, cmds), table(x[0]), x)
  {
    RunAllAppend(table, FreshClient, cmds, [x]);
    var c := RunAll(table, FreshClient, cmds);
    assert RunAll(table, c, [x]) == RunAll(table, RunCommand(c, table(x[0]), x), []);
  }

  /** Where an open transaction starts: what came before it was run, what came after is queued. */
  lemma {:induction false} OpenTransaction(table: CommandTable, cmds: seq<Argv>) returns (i: nat)
    requires AllKnown(table, cmds)
    ensures i <= |cmds|
    ensures !RunAll(table, FreshClient, cmds[..i]).inMulti
    ensures RunAll(table, FreshClient, cmds[..i]).executed == RunAll(table, FreshClient, cmds).executed
    ensures var c := RunAll(table, FreshClient, cmds);
            c.inMulti ==> i < |cmds| && table(cmds[i][0]) == Multi && c.queued == cmds[i + 1..]
    decreases |cmds|
  {
    if cmds == [] {
      i := 0;
    } else {
      var prev, x := cmds[..|cmds| - 1], cmds[|cmds| - 1];
      assert prev + [x] == cmds && cmds[..|cmds|] == cmds;
      var i' := OpenTransaction(table, prev);
      RunLast(table, prev, x);
      assert prev[..i'] == cmds[..i'];
      hide RunAll;
      var c := RunAll(table, FreshClient, prev);
      if RunCommand(c, table(x[0]), x).inMulti {
        i := if c.inMulti then i' else |prev|;
      } else {
        i := |cmds|;
      }
    }
  }

  predicate HoldsMulti(table: CommandTable, cmds: seq<Argv>)
  {
    exists i :: 0 <= i < |cmds| && |cmds[i]| >= 1 && table(cmds[i][0]) == Multi
  }

  lemma NoMulti(table: CommandTable)
    ensures !HoldsMulti(table, [])
  {
  }

  lemma HoldsMultiLast(table: CommandTable, cmds: seq<Argv>, x: Argv)
    requires |x| >= 1
    ensures HoldsMulti(table, cmds + [x]) <==> HoldsMulti(table, cmds) || table(x[0]) == Multi
  {
    var more := cmds + [x];
    assert more[|cmds|] == x;
    if HoldsMulti(table, cmds) {
      var i :| 0 <= i < |cmds| && |cmds[i]| >= 1 && table(cmds[i][0]) == Multi;
      assert more[i] == cmds[i];
    }
  }

  /** What cutting at the MULTI with index i leaves of an open transaction. */
  ghost predicate CutThere(table: CommandTable, cmds: seq<Argv>, i: nat)
    requires forall i :: 0 <= i < |cmds| ==> |cmds[i]| >= 1
  {
    && i < |cmds| && BeforeMulti(table, cmds, 0, 0) == EndOf(cmds[..i], 0)
    && var c, kept := RunAll(table, FreshClient, cmds), RunAll(table, FreshClient, cmds[..i]);
       kept.executed == c.executed && (kept.inMulti <==> HoldsMulti(table, c.queued))
  }

  lemma CutHere(table: CommandTable, prev: seq<Argv>, x: Argv)
    requires AllKnown(table, prev + [x]) && |x| >= 1 && table(x[0]) == Multi
    ensures CutThere(table, prev + [x], |prev|)
  {
    hide RunAll, BeforeMulti, EndOf, HoldsMulti;
    assert AllKnown(table, prev) by { assert forall i :: 0 <= i < |prev| ==> (prev + [x])[i] == prev[i]; }
    RunLast(table, prev, x);
    BeforeMultiLast(table, prev, x, 0, 0);
    assert (prev + [x])[..|prev|] == prev;
    NoMulti(table);
    HoldsMultiLast(table, RunAll(table, FreshClient, prev).queued, x);
  }

  lemma CutBefore(table: CommandTable, prev: seq<Argv>, x: Argv, i: nat)
    requires AllKnown(table, prev) && AllKnown(table, prev + [x]) && |x| >= 1 && table(x[0]) != Multi
    requires RunAll(table, FreshClient, prev + [x]).inMulti && CutThere(table, prev, i)
    ensures CutThere(table, prev + [x], i)
  {
    hide RunAll, BeforeMulti, EndOf, HoldsMulti;
    RunLast(table, prev, x);
    BeforeMultiLast(table, prev, x, 0, 0);
    assert (prev + [x])[..i] == prev[..i];
    HoldsMultiLast(table, RunAll(table, FreshClient, prev).queued, x);
  }

  /**
   The offset recorded in an open transaction is that of the last MULTI, whether
   it opened the transaction or was queued inside it. So cutting there undoes
   the transaction if and only if no MULTI is queued.
   */
  lemma {:induction false} LastMulti(table: CommandTable, cmds: seq<Argv>) returns (i: nat)
    requires AllKnown(table, cmds) && RunAll(table, FreshClient, cmds).inMulti
    ensures i < |cmds| && table(cmds[i][0]) == Multi && !HoldsMulti(table, cmds[i + 1..]) && CutThere(table, cmds, i)
    decreases |cmds|
  {
    assert cmds != [];
    hide RunAll, HoldsMulti, CutThere;
    var prev, x := cmds[..|cmds| - 1], cmds[|cmds| - 1];
    assert prev + [x] == cmds;
    if table(x[0]) == Multi {
      i := |prev|;
      CutHere(table, prev, x);
      NoMulti(table);
      assert cmds[i + 1..] == [];
    } else {
      RunLast(table, prev, x);
      i := LastMulti(table, prev);
      CutBefore(table, prev, x, i);
      assert cmds[i + 1..] == prev[i + 1..] + [x];
      HoldsMultiLast(table, prev[i + 1..], x);
    }
  }

  /** Does loading this file run exactly these commands? */
  predicate Runs(table: CommandTable, file: Bytes, cmds: seq<Argv>)
  {
    var r := Load(table, Truncating, file);
    r.Loaded? && r.executed == cmds
  }

  /** The index of the first EXEC of a log, or its length. */
  function FirstExec(table: CommandTable, cmds: seq<Argv>): (i: nat)
    requires forall i :: 0 <= i < |cmds| ==> |cmds[i]| >= 1
    ensures i <= |cmds|
    decreases |cmds|
  {
    if cmds == [] || table(cmds[0][0]) == Exec then 0 else 1 + FirstExec(table, cmds[1..])
  }

  /** What was executed before only stands in front of what is executed now. */
  lemma {:induction false} RunAllAfter(table: CommandTable, c: Client, zs: seq<Argv>)
    requires forall i :: 0 <= i < |zs| ==> |zs[i]| >= 1
    ensures RunAll(table, c, zs).executed == c.executed + RunAll(table, c.(executed := []), zs).executed
    decreases |zs|
  {
    if zs != [] {
      var k := table(zs[0][0]);
      var c1, d1 := RunCommand(c, k, zs[0]), RunCommand(c.(executed := []), k, zs[0]);
      RunAllAfter(table, c1, zs[1..]);
      RunAllAfter(table, d1, zs[1..]);
      assert c1.(executed := []) == d1.(executed := []);
      assert c1.executed == c.executed + d1.executed;
    }
  }

  /** Inside a transaction everything up to the first EXEC is queued and then run. */
  lemma {:induction false} RunInside(table: CommandTable, c: Client, zs: seq<Argv>)
    requires c.inMulti && forall i :: 0 <= i < |zs| ==> |zs[i]| >= 1
    ensures var e := FirstExec(table, zs);
            RunAll(table, c, zs).executed ==
              if e == |zs| then c.executed
              else c.executed + c.queued + zs[..e] + RunAll(table, FreshClient, zs[e + 1..]).executed
    decreases |zs|
  {
    if zs == [] {
    } else if table(zs[0][0]) == Exec {
      RunAllAfter(table, Client(false, [], c.executed + c.queued), zs[1..]);
      assert c.executed + c.queued + zs[..0] == c.executed + c.queued;
    } else {
      var rest, e := zs[1..], FirstExec(table, zs);
      RunInside(table, RunCommand(c, table(zs[0][0]), zs[0]), rest);
      if e < |zs| {
        assert zs[..e] == [zs[0]] + rest[..e - 1] && zs[e + 1..] == rest[e..];
        assert c.executed + (c.queued + [zs[0]]) + rest[..e - 1] == c.executed + c.queued + ([zs[0]] + rest[..e - 1]);
      }
    }
  }

  /** What a log of two parts runs. */
  lemma LoadAppended(table: CommandTable, cmds: seq<Argv>, zs: seq<Argv>)
    requires AllKnown(table, cmds) && AllKnown(table, zs) && zs != []
    ensures Runs(table, PrintAll(cmds) + PrintAll(zs), RunAll(table, RunAll(table, FreshClient, cmds), zs).executed)
  {
    PrintAllAppend(cmds, zs);
    RunAllAppend(table, FreshClient, cmds, zs);
    hide Load, PrintAll, RunAll, Print, BeforeMulti, Digits;
    LoadOfLog(table, Truncating, cmds + zs);
  }

  lemma PrintedPrefix(cmds: seq<Argv>, i: nat)
    requires i <= |cmds|
    ensures |PrintAll(cmds[..i])| <= |PrintAll(cmds)|
    ensures PrintAll(cmds)[..|PrintAll(cmds[..i])|] == PrintAll(cmds[..i])
  {
    PrintAllAppend(cmds[..i], cmds[i..]);
    assert cmds == cmds[..i] + cmds[i..];
  }

  /**
   Does cutting the first n bytes of a log leave a MULTI without EXEC? It does when
   the damage is inside a command of an open transaction, and when the end falls
   between commands of one that has another MULTI queued.
   */
  predicate LeavesOpen(table: CommandTable, cmds: seq<Argv>, n: nat)
    requires forall i :: 0 <= i < |cmds| ==> |cmds[i]| >= 1
  {
    var whole := cmds[..Whole(cmds, n)];
    var c := RunAll(table, FreshClient, whole);
    c.inMulti && (|PrintAll(whole)| < n || HoldsMulti(table, c.queued))
  }

  /** How much of a log is left: all whole commands, or those before the last MULTI of an open transaction. */
  ghost predicate IsLeft(table: CommandTable, cmds: seq<Argv>, n: nat, kept: nat)
    requires forall i :: 0 <= i < |cmds| ==> |cmds[i]| >= 1
  {
    var whole := cmds[..Whole(cmds, n)];
    && kept <= |whole|
    && if |PrintAll(whole)| < n || !RunAll(table, FreshClient, whole).inMulti then kept == |whole|
       else kept < |whole| && table(whole[kept][0]) == Multi && !HoldsMulti(table, whole[kept + 1..])
  }

  /**
   A load that cuts the file leaves a log of whole commands that runs to the same
   result, and says exactly when that log ends inside a transaction.
   */
  lemma LeftBehind(table: CommandTable, cmds: seq<Argv>, n: nat) returns (kept: nat)
    requires AllKnown(table, cmds) && 0 < n <= |PrintAll(cmds)|
    ensures IsLeft(table, cmds, n, kept) && kept <= |cmds|
    ensures var file := PrintAll(cmds)[..n];
            var r := Load(table, Truncating, file);
            && r.Loaded? && r.size <= n
            && file[..r.size] == PrintAll(cmds[..kept])
            && RunAll(table, FreshClient, cmds[..kept]).executed == r.executed
    ensures RunAll(table, FreshClient, cmds[..kept]).inMulti <==> LeavesOpen(table, cmds, n)
  {
    hide Load, PrintAll, RunAll, Whole, Print, BeforeMulti, HoldsMulti;
    var k := Whole(cmds, n);
    var whole := cmds[..k];
    LoadOfPrefix(table, Truncating, cmds, n);
    SplitPrefix(cmds, n);
    if |PrintAll(whole)| < n || !RunAll(table, FreshClient, whole).inMulti {
      kept := k;
    } else {
      kept := LastMulti(table, whole);
    }
    PrintedPrefix(cmds, kept);
    PrintedPrefix(whole, kept);
    assert whole[..kept] == cmds[..kept];
  }

  /**
   Every prefix of a log, by the commands it holds: it ends after the first k of
   them or inside the next one. It is damaged when it ends inside a command or in
   an open transaction. The server refuses to start if and only if the prefix is
   damaged and the damage may not or cannot be cut off. Otherwise it runs the
   whole commands outside the open transaction, and leaves the file at the end
   of the whole commands or in front of its last MULTI.
   */
  lemma EveryPrefix(table: CommandTable, o: Options, cmds: seq<Argv>, n: nat) returns (k: nat, i: nat)
    requires AllKnown(table, cmds) && 0 < n <= |PrintAll(cmds)|
    ensures k <= |cmds| && |PrintAll(cmds[..k])| <= n && (k < |cmds| ==> n < |PrintAll(cmds[..k + 1])|)
    ensures var c := RunAll(table, FreshClient, cmds[..k]);
            c.inMulti ==> i < k && table(cmds[i][0]) == Multi && !HoldsMulti(table, cmds[i + 1..k])
    ensures var r, c, whole := Load(table, o, PrintAll(cmds)[..n]), RunAll(table, FreshClient, cmds[..k]), |PrintAll(cmds[..k])|;
            && (r == Exited(UnexpectedEof) <==> (whole < n || c.inMulti) && !(o.loadTruncated && o.truncateWorks))
            && (r != Exited(UnexpectedEof) ==>
                  && r.Loaded? && r.executed == c.executed
                  && r.size == if whole < n then whole else if c.inMulti then |PrintAll(cmds[..i])| else n)
  {
    hide Load, PrintAll, RunAll, Whole, Print, BeforeMulti, HoldsMulti;
    k := Whole(cmds, n);
    i := 0;
    LoadOfPrefix(table, o, cmds, n);
    SplitPrefix(cmds, n);
    if k < |cmds| {
      PrintAllAppend(cmds[..k], [cmds[k]]);
      assert cmds[..k + 1] == cmds[..k] + [cmds[k]];
      PrintAllOne(cmds[k]);
    }
    if RunAll(table, FreshClient, cmds[..k]).inMulti {
      i := LastMulti(table, cmds[..k]);
      assert cmds[..k][..i] == cmds[..i] && cmds[..k][i + 1..] == cmds[i + 1..k];
    }
  }

  lemma PrintAllOne(argv: Argv)
    ensures PrintAll([argv]) == Print(argv)
  {
    assert [argv][1..] == [];
    assert PrintAll([argv]) == Print(argv) + [];
  }

  /** Whole commands do not change how the load of what follows them ends. */
  lemma LoadBehind(table: CommandTable, o: Options, cmds: seq<Argv>, tail: Bytes)
    requires AllKnown(table, cmds) && tail != [] && !(PREAMBLE <= PrintAll(cmds) + tail)
    requires var r := ReadCommand(tail); r.Malformed? || (r.Got? && table(r.value[0]) == Unknown)
    ensures Load(table, o, PrintAll(cmds) + tail) == Exited(if ReadCommand(tail).Malformed? then FormatError else UnknownCommand)
  {
    hide ReadCommand, LoadFrom, PrintAll, RunAll, BeforeMulti, Print;
    var file := PrintAll(cmds) + tail;
    LoadStart(table, o, file);
    var c := RunAll(table, FreshClient, cmds);
    if o.loadTruncated {
      LoadWhole(table, o, |file|, cmds, tail, FreshClient, 0, 0);
      LoadStop(table, o, |file|, tail, c, EndOf(cmds, 0), BeforeMulti(table, cmds, 0, 0));
    } else {
      var before := LoadWholeStrict(table, o, |file|, cmds, tail, FreshClient, 0);
      LoadStop(table, o, |file|, tail, c, 0, before);
    }
  }

  /** Bytes that do not start a command are a format error behind any log, whatever the options. */
  lemma GarbageRefused(table: CommandTable, o: Options, cmds: seq<Argv>, tail: Bytes)
    requires AllKnown(table, cmds) && tail != [] && tail[0] != '*' as int && !(PREAMBLE <= PrintAll(cmds) + tail)
    ensures Load(table, o, PrintAll(cmds) + tail) == Exited(FormatError)
  {
    LoadBehind(table, o, cmds, tail);
  }

  /** So is a command the server does not know. */
  lemma UnknownRefused(table: CommandTable, o: Options, cmds: seq<Argv>, argv: Argv, rest: Bytes)
    requires AllKnown(table, cmds) && Printable(argv) && table(argv[0]) == Unknown
    ensures Load(table, o, PrintAll(cmds) + Print(argv) + rest) == Exited(UnknownCommand)
  {
    hide ReadCommand, Load, PrintAll, Print;
    ReadPrinted(argv, rest);
    var file := PrintAll(cmds) + (Print(argv) + rest);
    NoPreamble(cmds, argv, rest);
    ConcatAssoc(PrintAll(cmds), Print(argv), rest);
    LoadBehind(table, o, cmds, Print(argv) + rest);
  }

  lemma NoPreamble(cmds: seq<Argv>, argv: Argv, rest: Bytes)
    ensures !(PREAMBLE <= PrintAll(cmds) + (Print(argv) + rest)) && Print(argv) != []
  {
    var file := PrintAll(cmds) + (Print(argv) + rest);
    assert file[0] == '*' as int;
  }

  /**
   After a damaged log was loaded and cut, the server goes on appending to it.
   Whatever it appends is run by the next load as on its own, unless the cut left
   a MULTI without EXEC. In that case nothing of what is appended runs before its
   first EXEC, and that EXEC also runs what was left of the cut transaction,
   which the first load had dropped.
   */
  lemma AppendAfterCut(table: CommandTable, cmds: seq<Argv>, n: nat, zs: seq<Argv>) returns (start: nat, kept: nat)
    requires AllKnown(table, cmds) && 0 < n <= |PrintAll(cmds)|
    requires AllKnown(table, zs) && zs != []
    ensures IsLeft(table, cmds, n, kept) && start <= kept <= |cmds|
    ensures var r := Load(table, Truncating, PrintAll(cmds)[..n]);
            && r.Loaded? && r.size <= n
            && var next := PrintAll(cmds)[..n][..r.size] + PrintAll(zs);
               if !LeavesOpen(table, cmds, n) then
                 Runs(table, next, r.executed + RunAll(table, FreshClient, zs).executed)
               else
                 var e := FirstExec(table, zs);
                 && start < kept && table(cmds[start][0]) == Multi && !RunAll(table, FreshClient, cmds[..start]).inMulti
                 && r.executed == RunAll(table, FreshClient, cmds[..start]).executed
                 && Runs(table, next, if e == |zs| then r.executed
                                      else r.executed + cmds[start + 1..kept] + zs[..e] + RunAll(table, FreshClient, zs[e + 1..]).executed)
  {
    hide Load, PrintAll, RunAll, Whole, Print, LeavesOpen, IsLeft, FirstExec;
    kept := LeftBehind(table, cmds, n);
    start := 0;
    var left := cmds[..kept];
    var c := RunAll(table, FreshClient, left);
    LoadAppended(table, left, zs);
    if c.inMulti {
      start := OpenTransaction(table, left);
      assert left[..start] == cmds[..start] && left[start + 1..] == cmds[start + 1..kept];
      RunInside(table, c, zs);
    } else {
      NotQueued(table, left);
      RunAllAfter(table, c, zs);
    }
  }

  /** Outside a transaction nothing is queued. */
  lemma {:induction false} NotQueued(table: CommandTable, cmds: seq<Argv>)
    requires forall i :: 0 <= i < |cmds| ==> |cmds[i]| >= 1
    ensures var c := RunAll(table, FreshClient, cmds); !c.inMulti ==> c.queued == []
    decreases |cmds|
  {
    if cmds != [] {
      var prev, x := cmds[..|cmds| - 1], cmds[|cmds| - 1];
      assert cmds == prev + [x];
      NotQueued(table, prev);
      RunLast(table, prev, x);
    }
  }

  /** So a single command appended survives the next load if and only if no MULTI was left open. */
  lemma OneAppended(table: CommandTable, cmds: seq<Argv>, n: nat, x: Argv)
    requires AllKnown(table, cmds) && 0 < n <= |PrintAll(cmds)|
    requires Printable(x) && table(x[0]) == Plain
    ensures var r := Load(table, Truncating, PrintAll(cmds)[..n]);
            && r.Loaded? && r.size <= n
            && (Runs(table, PrintAll(cmds)[..n][..r.size] + PrintAll([x]), r.executed + [x]) <==> !LeavesOpen(table, cmds, n))
  {
    assert FirstExec(table, [x]) == 1 + FirstExec(table, []);
    assert RunAll(table, FreshClient, [x]) == RunAll(table, RunCommand(FreshClient, Plain, x), []);
    hide Load, PrintAll, RunAll, Whole, Print, LeavesOpen, IsLeft, FirstExec;
    var start, kept := AppendAfterCut(table, cmds, n, [x]);
  }

  // ---------------------------------------------------------------- the failing cases, concretely

  /** A command table of one-letter names: M is MULTI, E is EXEC. */
  function Letters(name: Bytes): Kind { if name == [77] then Multi else if name == [69] then Exec else Plain }

  /** The log MULTI, x, y. */
  function OpenLog(x: Argv, y: Argv): seq<Argv> { [[[77]], x, y] }

  predicate PlainLetter(x: Argv) { Printable(x) && x[0] != [77] && x[0] != [69] }

  lemma OpenLogCut(x: Argv, y: Argv) returns (n: nat)
    requires PlainLetter(x) && Printable(y)
    ensures 0 < n < |PrintAll(OpenLog(x, y))| && Whole(OpenLog(x, y), n) == 2
    ensures PrintAll(OpenLog(x, y)[..2]) + [STAR] == PrintAll(OpenLog(x, y))[..n]
    ensures |PrintAll(OpenLog(x, y)[..2])| < n
  {
    var cmds := OpenLog(x, y);
    var m: Argv := [[77]];
    var px, py := Print(x), Print(y);
    n := |Print(m)| + |px| + 1;
    assert PrintAll([y]) == py + [];
    assert PrintAll([x, y]) == px + PrintAll([y]) by { assert [x, y][1..] == [y]; }
    assert PrintAll(cmds) == Print(m) + PrintAll([x, y]) by { assert cmds[1..] == [x, y]; }
    assert cmds[..2] == [m, x] && [m, x][1..] == [x] && PrintAll([x]) == px + [];
    assert PrintAll(cmds[..2]) == Print(m) + px;
    assert Whole([y], 1) == 0;
    assert Whole([x, y], |px| + 1) == 1 + Whole([x, y][1..], 1) && [x, y][1..] == [y];
    assert Whole(cmds, n) == 1 + Whole(cmds[1..], n - |Print(m)|);
  }

  /** MULTI, x opens a transaction with x queued. */
  lemma OpenLogRuns(x: Argv)
    requires PlainLetter(x)
    ensures RunAll(Letters, FreshClient, [[[77]], x]) == Client(true, [x], [])
    ensures RunAll(Letters, FreshClient, []).executed == []
  {
    var m: Argv := [[77]];
    var c := RunCommand(FreshClient, Multi, m);
    assert [m, x][1..] == [x];
    assert RunAll(Letters, FreshClient, [m, x]) == RunAll(Letters, c, [x]);
    assert RunAll(Letters, c, [x]) == RunAll(Letters, RunCommand(c, Plain, x), []);
  }

  lemma OpenLogKnown(x: Argv, y: Argv)
    requires PlainLetter(x) && Printable(y)
    ensures AllKnown(Letters, OpenLog(x, y)) && OpenLog(x, y)[..2] == [[[77]], x]
  {
  }

  /** What the cut leaves open, and from where. */
  lemma OpenLogLeft(x: Argv, y: Argv, n: nat)
    requires PlainLetter(x) && Printable(y) && Whole(OpenLog(x, y), n) == 2 && |PrintAll(OpenLog(x, y)[..2])| < n
    ensures LeavesOpen(Letters, OpenLog(x, y), n)
    ensures forall kept: nat :: IsLeft(Letters, OpenLog(x, y), n, kept) ==> kept == 2
  {
    hide PrintAll, Whole, RunAll;
    OpenLogKnown(x, y);
    OpenLogRuns(x);
  }

  lemma OpenLogStart(x: Argv, y: Argv, start: nat)
    requires PlainLetter(x) && start < 2 && Letters(OpenLog(x, y)[start][0]) == Multi
    ensures start == 0 && OpenLog(x, y)[..0] == [] && OpenLog(x, y)[1..2] == [x]
  {
  }

  lemma {:induction false} NoExec(zs: seq<Argv>)
    requires forall i :: 0 <= i < |zs| ==> |zs[i]| >= 1 && zs[i][0] != [69]
    ensures FirstExec(Letters, zs) == |zs|
    decreases |zs|
  {
    if zs != [] { NoExec(zs[1..]); }
  }

  /** MULTI, x, and one byte of y: the first load runs nothing, and nothing appended runs before an EXEC comes. */
  lemma DanglingMulti(x: Argv, y: Argv, zs: seq<Argv>)
    requires PlainLetter(x) && PlainLetter(y)
    requires AllKnown(Letters, zs) && zs != [] && forall i :: 0 <= i < |zs| ==> zs[i][0] != [69]
    ensures var file := PrintAll([[[77]], x]) + [STAR];
            var r := Load(Letters, Truncating, file);
            r.Loaded? && r.executed == [] && r.size <= |file| && Runs(Letters, file[..r.size] + PrintAll(zs), [])
  {
    NoExec(zs);
    hide *;
    OpenLogRuns(x);
    OpenLogKnown(x, y);
    var n := OpenLogCut(x, y);
    OpenLogLeft(x, y, n);
    var start, kept := AppendAfterCut(Letters, OpenLog(x, y), n, zs);
    OpenLogStart(x, y, start);
  }

  /** The same file, and a whole transaction appended: the next load runs x too, which the first load had dropped. */
  lemma LateTransaction(x: Argv, y: Argv, z: Argv)
    requires PlainLetter(x) && PlainLetter(y) && PlainLetter(z)
    ensures var file := PrintAll([[[77]], x]) + [STAR];
            var r := Load(Letters, Truncating, file);
            && r.Loaded? && r.executed == [] && r.size <= |file|
            && Runs(Letters, file[..r.size] + PrintAll([[[77]], z, [[69]]]), [x, [[77]], z])
  {
    var zs: seq<Argv> := [[[77]], z, [[69]]];
    hide *;
    TransactionLetters(z);
    OpenLogRuns(x);
    OpenLogKnown(x, y);
    var n := OpenLogCut(x, y);
    OpenLogLeft(x, y, n);
    var start, kept := AppendAfterCut(Letters, OpenLog(x, y), n, zs);
    OpenLogStart(x, y, start);
    assert [] + [x] + [[[77]], z] + [] == [x, [[77]], z];
  }

  /**
   The other failing case: the log MULTI, x, MULTI, z ends between commands. The
   load runs nothing and cuts at the MULTI that was queued, so MULTI, x stays.
   */
  lemma QueuedMulti(x: Argv, z: Argv)
    requires PlainLetter(x) && PlainLetter(z)
    ensures var log: seq<Argv> := [[[77]], x, [[77]], z];
            Load(Letters, Truncating, PrintAll(log)) == Loaded([], |PrintAll([[[77]], x])|)
    ensures RunAll(Letters, FreshClient, [[[77]], x]).inMulti
  {
    hide RunAll, BeforeMulti, PrintAll, Print, Load;
    var m: Argv := [[77]];
    var log: seq<Argv> := [m, x, m, z];
    OpenLogRuns(x);
    RunLast(Letters, [m, x], m);
    RunLast(Letters, [m, x, m], z);
    assert [m, x] + [m] == [m, x, m] && [m, x, m] + [z] == log;
    BeforeMultiLast(Letters, [m, x], m, 0, 0);
    BeforeMultiLast(Letters, [m, x, m], z, 0, 0);
    LoadOfLog(Letters, Truncating, log);
  }

  lemma TransactionLetters(z: Argv)
    requires PlainLetter(z)
    ensures var zs: seq<Argv> := [[[77]], z, [[69]]];
            AllKnown(Letters, zs) && FirstExec(Letters, zs) == 2 && zs[..2] == [[[77]], z] && zs[3..] == []
    ensures RunAll(Letters, FreshClient, []).executed == []
  {
    var zs: seq<Argv> := [[[77]], z, [[69]]];
    assert zs[1..] == [z, [[69]]] && zs[1..][1..] == [[[69]]];
    assert FirstExec(Letters, zs) == 1 + (1 + FirstExec(Letters, [[[69]]]));
  }
}
