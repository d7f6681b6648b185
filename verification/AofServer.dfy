/**
 The parent's side of the append-only file (aof.c): feeding the buffers,
 flushing, the block list sent to the rewriting child, and the handler that
 switches to the rewritten file.  System calls follow a script of outcomes.
 */
module AofServer {
  import opened Basics
  import opened ByteStrings
  import opened AofLog
  import AofLoad
  import opened AofLoader
  import opened Dataset
  import opened AofFeed

  /** 10 MB per block. */
  const AOF_RW_BUF_BLOCK_SIZE := 10 * 1024 * 1024

  /** The outcome of one write(2): some bytes taken, EINTR, or an error. */
  datatype WriteOutcome = Wrote(count: nat) | Interrupted | Failed

  datatype FsyncPolicy = No | Everysec | Always

  function Flat(blocks: seq<Bytes>): Bytes
  {
    if blocks == [] then [] else blocks[0] + Flat(blocks[1..])
  }

  lemma {:induction false} FlatLast(blocks: seq<Bytes>, b: Bytes)
    ensures Flat(blocks + [b]) == Flat(blocks) + b
  {
    if blocks == [] {
      assert [b][1..] == [] && Flat([b]) == b + Flat([]);
    } else {
      assert (blocks + [b])[1..] == blocks[1..] + [b];
      FlatLast(blocks[1..], b);
      ConcatAssoc(blocks[0], Flat(blocks[1..]), b);
    }
  }

  /** What of the parent's state the rewrite protocol is about. */
  datatype Parent = Parent(
    file: Bytes, buf: Bytes, size: nat, selected: int,
    hasChild: bool, blocks: Bytes, stopSending: bool)

  /** Feeding appends to the buffer, and to the blocks while a child is rewriting. */
  ghost predicate Fed(p: Parent, p': Parent, bytes: Bytes, dictid: int)
  {
    p' == p.(buf := p.buf + bytes, selected := dictid, blocks := if p.hasChild then p.blocks + bytes else p.blocks)
  }

  /** Flushing moves the first k bytes of the buffer to the file. */
  ghost predicate Flushed(p: Parent, p': Parent, k: nat)
  {
    k <= |p.buf| && p' == p.(file := p.file + p.buf[..k], buf := p.buf[k..], size := p.size + k)
  }

  /** Sending moves the first k bytes of the blocks into the pipe, and nothing once the child asked to stop. */
  ghost predicate Sent(p: Parent, p': Parent, k: nat)
  {
    k <= |p.blocks| && (p.stopSending ==> k == 0) && p' == p.(blocks := p.blocks[k..])
  }

  /** The switch to the rewritten file. */
  ghost predicate Switched(p: Parent, p': Parent, rewritten: Bytes)
  {
    p' == Parent(rewritten + p.blocks, [], |rewritten + p.blocks|, -1, false, [], p.stopSending)
  }

  /** A rewrite given up: the old file and buffer go on. */
  ghost predicate GivenUp(p: Parent, p': Parent)
  {
    p' == p.(hasChild := false, blocks := [])
  }

  /** The fork: the next command fed will start with SELECT. */
  ghost predicate Started(p: Parent, p': Parent)
  {
    !p.hasChild && p' == p.(hasChild := true, selected := -1, stopSending := false)
  }

  /** How much of n bytes gets written: interrupted and short writes are tried again, an error ends it. */
  function Taken(script: seq<WriteOutcome>, n: nat): (k: nat)
    ensures k <= n && (Failed !in script ==> k == n)
  {
    if n == 0 || script == [] then n
    else match script[0]
      case Failed => 0
      case Interrupted => Taken(script[1..], n)
      case Wrote(count) => Min(count, n) + Taken(script[1..], n - Min(count, n))
  }

  lemma TakenNext(script: seq<WriteOutcome>, i: nat, n: nat)
    requires i <= |script| && n > 0
    ensures i == |script| ==> Taken(script[i..], n) == n
    ensures i < |script| ==>
              Taken(script[i..], n) ==
                match script[i]
                case Failed => 0
                case Interrupted => Taken(script[i + 1..], n)
                case Wrote(count) => Min(count, n) + Taken(script[i + 1..], n - Min(count, n))
  {
    if i < |script| { assert script[i..][1..] == script[i + 1..]; }
  }

  lemma TakenAll(script: seq<WriteOutcome>)
    ensures Taken(script, 0) == 0
  {
  }

  lemma FlatFirst(blocks: seq<Bytes>)
    requires blocks != []
    ensures Flat(blocks) == blocks[0] + Flat(blocks[1..])
  {
  }

  class Server {
    var file: Bytes            // what aof_fd refers to
    var aofBuf: Bytes
    var aofCurrentSize: nat
    var aofSelectedDb: int
    var hasChild: bool
    var aofRewriteBufBlocks: seq<Bytes>
    var aofStopSendingDiff: bool
    var aofLastWriteOk: bool
    var aofFlushPostponedStart: int

    ghost predicate Valid()
      reads this
    {
      && aofCurrentSize == |file|
      && (!hasChild ==> aofRewriteBufBlocks == [])
      && (forall i :: 0 <= i < |aofRewriteBufBlocks| ==> 0 < |aofRewriteBufBlocks[i]| <= AOF_RW_BUF_BLOCK_SIZE)
    }

    ghost function View(): Parent
      reads this
    {
      Parent(file, aofBuf, aofCurrentSize, aofSelectedDb, hasChild, Flat(aofRewriteBufBlocks), aofStopSendingDiff)
    }

    // -------------------------------------------------------------- the block list

    /** aofRewriteBufferAppend */
    method AofRewriteBufferAppend(s: Bytes)
      requires Valid() && hasChild
      modifies this`aofRewriteBufBlocks
      ensures Valid()
      ensures Flat(aofRewriteBufBlocks) == old(Flat(aofRewriteBufBlocks)) + s
      ensures forall i :: |old(aofRewriteBufBlocks)| - 1 <= i < |aofRewriteBufBlocks| - 1 && i >= 0 ==>
                |aofRewriteBufBlocks[i]| == AOF_RW_BUF_BLOCK_SIZE
    {
      hide Flat;
      var rest := s;
      ghost var start := Flat(aofRewriteBufBlocks);
      assert start + s == Flat(aofRewriteBufBlocks) + rest;
      while |rest| > 0
        invariant Valid()
        invariant Flat(aofRewriteBufBlocks) + rest == start + s
        invariant |aofRewriteBufBlocks| >= |old(aofRewriteBufBlocks)|
        invariant forall i :: |old(aofRewriteBufBlocks)| - 1 <= i < |aofRewriteBufBlocks| - 1 && i >= 0 ==>
                    |aofRewriteBufBlocks[i]| == AOF_RW_BUF_BLOCK_SIZE
        decreases |rest|
      {
        var n := |aofRewriteBufBlocks|;
        ghost var before := Flat(aofRewriteBufBlocks);
        if n > 0 && |aofRewriteBufBlocks[n - 1]| < AOF_RW_BUF_BLOCK_SIZE {
          var block := aofRewriteBufBlocks[n - 1];
          var free := AOF_RW_BUF_BLOCK_SIZE - |block|;
          var thislen := if free < |rest| then free else |rest|;
          FlatExtendLast(aofRewriteBufBlocks, rest[..thislen]);
          aofRewriteBufBlocks := aofRewriteBufBlocks[n - 1 := block + rest[..thislen]];
          ConcatAssoc(before, rest[..thislen], rest[thislen..]);
          assert rest[..thislen] + rest[thislen..] == rest;
          rest := rest[thislen..];
        } else {
          // a new block, which takes what it can hold
          var thislen := if AOF_RW_BUF_BLOCK_SIZE < |rest| then AOF_RW_BUF_BLOCK_SIZE else |rest|;
          FlatLast(aofRewriteBufBlocks, rest[..thislen]);
          aofRewriteBufBlocks := aofRewriteBufBlocks + [rest[..thislen]];
          ConcatAssoc(before, rest[..thislen], rest[thislen..]);
          assert rest[..thislen] + rest[thislen..] == rest;
          rest := rest[thislen..];
        }
      }
      assert Flat(aofRewriteBufBlocks) + [] == Flat(aofRewriteBufBlocks);
    }

    /** aofChildWriteDiffData: the bytes that reached the pipe; each write takes part of the first block. */
    method AofChildWriteDiffData(script: seq<nat>) returns (sent: Bytes)
      requires Valid()
      modifies this`aofRewriteBufBlocks
      ensures Valid()
      ensures sent <= old(View()).blocks && Sent(old(View()), View(), |sent|)
      ensures sent + Flat(aofRewriteBufBlocks) == old(Flat(aofRewriteBufBlocks))
      ensures aofStopSendingDiff ==> sent == []
      ensures !aofStopSendingDiff && 0 !in script ==> |sent| >= |script| || aofRewriteBufBlocks == []
    {
      hide Flat;
      sent := [];
      var calls := 0;
      ghost var start := Flat(aofRewriteBufBlocks);
      while calls < |script| && !aofStopSendingDiff && aofRewriteBufBlocks != []
        invariant Valid() && calls <= |script|
        invariant sent + Flat(aofRewriteBufBlocks) == start
        invariant aofStopSendingDiff ==> sent == []
        invariant |sent| >= calls
      {
        var block := aofRewriteBufBlocks[0];
        var nwritten := if script[calls] < |block| then script[calls] else |block|;
        if nwritten == 0 {
          assert script[calls] in script;
          break;
        }
        FlatFirst(aofRewriteBufBlocks);
        ghost var tail := Flat(aofRewriteBufBlocks[1..]);
        ghost var taken, kept := block[..nwritten], block[nwritten..];
        assert block == taken + kept;
        FourParts(sent, taken, kept, tail);
        sent := sent + block[..nwritten];
        if nwritten == |block| {
          aofRewriteBufBlocks := aofRewriteBufBlocks[1..];
        } else {
          ghost var rest := aofRewriteBufBlocks[1..];
          aofRewriteBufBlocks := aofRewriteBufBlocks[0 := block[nwritten..]];
          assert aofRewriteBufBlocks[1..] == rest;
          FlatFirst(aofRewriteBufBlocks);
        }
        calls := calls + 1;
      }
      assert start[|sent|..] == Flat(aofRewriteBufBlocks);
    }

    // -------------------------------------------------------------- flushing

    /** aofWrite: retries on EINTR and on short writes; past its script the disk takes everything. */
    method AofWrite(data: Bytes, script: seq<WriteOutcome>) returns (written: int, ghost k: nat)
      modifies this`file
      ensures k <= |data| && file == old(file) + data[..k]
      ensures written == if k > 0 then k else if data == [] then 0 else -1
      ensures k == Taken(script, |data|) && (Failed !in script ==> k == |data|)
    {
      hide Taken;
      var total, calls := 0, 0;
      assert file == file + data[..0];
      assert script[0..] == script;
      while total < |data|
        invariant 0 <= total <= |data| && calls <= |script|
        invariant file == old(file) + data[..total]
        invariant Taken(script, |data|) == total + Taken(script[calls..], |data| - total)
        decreases |script| - calls, |data| - total
      {
        var outcome := if calls < |script| then script[calls] else Wrote(|data| - total);
        TakenNext(script, calls, |data| - total);
        if outcome == Failed {
          return if total > 0 then total else -1, total;
        }
        if outcome.Wrote? {
          var n := if outcome.count < |data| - total then outcome.count else |data| - total;
          assert data[..total + n] == data[..total] + data[total..total + n];
          file := file + data[total..total + n];
          total := total + n;
        }
        if calls == |script| { TakenAll(script[calls..]); }
        calls := if calls < |script| then calls + 1 else calls;
      }
      TakenAll(script[calls..]);
      return total, total;
    }

    /** flushAppendOnlyFile; exited is the exit of a server whose policy is to fsync always. */
    method FlushAppendOnlyFile(force: bool, policy: FsyncPolicy, unixtime: int, syncInProgress: bool,
                               script: seq<WriteOutcome>, truncateWorks: bool)
      returns (exited: bool, ghost k: nat)
      requires Valid()
      modifies this`file, this`aofBuf, this`aofCurrentSize, this`aofLastWriteOk, this`aofFlushPostponedStart
      ensures !exited ==> Valid() && Flushed(old(View()), View(), k)
      ensures 0 < k < |old(aofBuf)| ==> !truncateWorks
      ensures exited ==> policy == Always && aofBuf == old(aofBuf) && old(file) <= file <= old(file + aofBuf)
      ensures var start := old(aofFlushPostponedStart);
              var idle := |old(aofBuf)| == 0;
              var wait := policy == Everysec && !force && syncInProgress && (start == 0 || unixtime - start < 2);
              && (idle || wait ==> !exited && k == 0 && aofLastWriteOk == old(aofLastWriteOk))
              && (idle ==> aofFlushPostponedStart == start)
              && (!idle && wait ==> aofFlushPostponedStart == if start == 0 then unixtime else start)
              && (!idle && !wait ==>
                    && aofFlushPostponedStart == 0
                    && (exited <==> policy == Always && Taken(script, |old(aofBuf)|) < |old(aofBuf)|)
                    && (!exited ==> (aofLastWriteOk <==> k == |old(aofBuf)|))
                    && (!exited ==> k == if Taken(script, |old(aofBuf)|) < |old(aofBuf)| && truncateWorks then 0
                                         else Taken(script, |old(aofBuf)|)))
    {
      hide Flat, Taken;
      exited, k := false, 0;
      assert aofBuf[..0] == [] && aofBuf[0..] == aofBuf && file + [] == file;
      if |aofBuf| == 0 { return; }
      if policy == Everysec && !force && syncInProgress {
        if aofFlushPostponedStart == 0 {
          aofFlushPostponedStart := unixtime;
          return;
        } else if unixtime - aofFlushPostponedStart < 2 {
          return;
        }
      }
      ghost var before := file;
      var nwritten;
      nwritten, k := AofWrite(aofBuf, script);
      aofFlushPostponedStart := 0;
      if nwritten != |aofBuf| {
        if nwritten != -1 && truncateWorks {
          file := file[..aofCurrentSize];
          assert file == before;
          nwritten, k := -1, 0;
        }
        if policy == Always { return true, k; }
        aofLastWriteOk := false;
        if nwritten > 0 {
          aofCurrentSize := aofCurrentSize + nwritten;
          aofBuf := aofBuf[nwritten..];
        }
        return;
      }
      aofLastWriteOk := true;
      aofCurrentSize := aofCurrentSize + nwritten;
      assert aofBuf[..|aofBuf|] == aofBuf;
      aofBuf := [];
    }

    // -------------------------------------------------------------- feeding

    /** The option loop of feedAppendOnlyFile; for a SET that was performed there is an argument after each unit. */
    method ScanUnits(argv: Argv) returns (ex: Option<Bytes>, px: Option<Bytes>)
      requires |argv| > 3
      ensures ex == ScanUnit(argv, 3, EX, None) && px == ScanUnit(argv, 3, PX, None)
    {
      ex, px := None, None;
      var i := 3;
      hide Spells;
      while i < |argv|
        invariant 3 <= i <= |argv|
        invariant ScanUnit(argv, i, EX, ex) == ScanUnit(argv, 3, EX, None)
        invariant ScanUnit(argv, i, PX, px) == ScanUnit(argv, 3, PX, None)
      {
        if Spells(argv[i], EX) && i + 1 < |argv| { ex := Some(argv[i + 1]); }
        if Spells(argv[i], PX) && i + 1 < |argv| { px := Some(argv[i + 1]); }
        i := i + 1;
      }
    }

    /** The bytes feedAppendOnlyFile builds for one command, after those of a SELECT. */
    method CatTranslated(env: Env, now: nat, buf: Bytes, argv: Argv) returns (r: Bytes)
      requires |argv| >= 1
      ensures r == buf + PrintAll(Translate(env, now, argv))
    {
      hide Print, Lookup, ScanUnit, ExpireAtCommand;
      var cmd := Lookup(env, argv[0]);
      if (cmd == Expire || cmd == PExpire || cmd == ExpireAt) && |argv| == 3 {
        AofLoad.PrintAllOne(ExpireAtCommand(cmd, now, argv[1], argv[2]));
        r := CatAppendOnlyGenericCommand(buf, ExpireAtCommand(cmd, now, argv[1], argv[2]));
      } else if (cmd == SetEx || cmd == PSetEx) && |argv| == 4 {
        PrintTwo([SET, argv[1], argv[3]], ExpireAtCommand(cmd, now, argv[1], argv[2]));
        r := CatAppendOnlyGenericCommand(buf, [SET, argv[1], argv[3]]);
        r := CatAppendOnlyGenericCommand(r, ExpireAtCommand(cmd, now, argv[1], argv[2]));
      } else if cmd == SetKey && |argv| > 3 {
        r := CatSet(env, now, buf, argv);
      } else {
        AofLoad.PrintAllOne(argv);
        r := CatAppendOnlyGenericCommand(buf, argv);
      }
    }

    /** SET with options: the plain SET, and PEXPIREAT for the units found. */
    method CatSet(env: Env, now: nat, buf: Bytes, argv: Argv) returns (r: Bytes)
      requires |argv| > 3 && Lookup(env, argv[0]) == SetKey
      ensures r == buf + PrintAll(Translate(env, now, argv))
    {
      hide Print, Lookup, ScanUnit, ExpireAtCommand, PrintAll;
      var ex, px := ScanUnits(argv);
      ghost var cmds := [argv[..3]];
      AofLoad.PrintAllOne(argv[..3]);
      r := CatAppendOnlyGenericCommand(buf, argv[..3]);
      if ex.Some? {
        var c := ExpireAtCommand(Expire, now, argv[1], ex.value);
        PrintAnother(buf, cmds, c);
        cmds := cmds + [c];
        r := CatAppendOnlyGenericCommand(r, c);
      }
      if px.Some? {
        var c := ExpireAtCommand(PExpire, now, argv[1], px.value);
        PrintAnother(buf, cmds, c);
        cmds := cmds + [c];
        r := CatAppendOnlyGenericCommand(r, c);
      }
      assert cmds == Translate(env, now, argv);
    }

    /** feedAppendOnlyFile, with the append-only file on. */
    method FeedAppendOnlyFile(env: Env, now: nat, dictid: nat, argv: Argv)
      requires Valid() && |argv| >= 1
      modifies this`aofBuf, this`aofSelectedDb, this`aofRewriteBufBlocks
      ensures Valid()
      ensures Fed(old(View()), View(), PrintAll(FedCommands(env, now, old(aofSelectedDb), dictid, argv)), dictid)
      ensures aofSelectedDb == dictid
      ensures aofBuf == old(aofBuf) + PrintAll((if dictid == old(aofSelectedDb) then [] else [[SELECT, Digits(dictid)]]) + Translate(env, now, argv))
    {
      hide Translate, Print, PrintAll, Digits, Flat;
      var buf: Bytes := [];
      ghost var select: seq<Argv> := [];
      PrintNone();
      if dictid != aofSelectedDb {
        AofLoad.PrintAllOne([SELECT, Digits(dictid)]);
        select := [[SELECT, Digits(dictid)]];
        buf := CatAppendOnlyGenericCommand(buf, [SELECT, Digits(dictid)]);
        aofSelectedDb := dictid;
      }
      AofLoad.PrintAllAppend(select, Translate(env, now, argv));
      buf := CatTranslated(env, now, buf, argv);
      aofBuf := aofBuf + buf;
      if hasChild {
        AofRewriteBufferAppend(buf);
      }
    }

    // -------------------------------------------------------------- the background rewrite

    /** rewriteAppendOnlyFileBackground, in the parent; refused while a child is running. */
    method RewriteAppendOnlyFileBackground(otherChild: bool, forkWorks: bool) returns (started: bool)
      requires Valid()
      modifies this`hasChild, this`aofSelectedDb, this`aofStopSendingDiff
      ensures Valid() && started == (!old(hasChild) && !otherChild && forkWorks)
      ensures started ==> Started(old(View()), View())
      ensures started ==> hasChild && aofSelectedDb == -1 && !aofStopSendingDiff
      ensures !started ==> View() == old(View()).(stopSending := aofStopSendingDiff)
    {
      if hasChild || otherChild { return false; }
      aofStopSendingDiff := false;
      if !forkWorks { return false; }
      hasChild := true;
      aofSelectedDb := -1;
      return true;
    }

    /** aofChildPipeReadable: on '!' from the child, stop sending; the acknowledgement may fail. */
    method AofChildPipeReadable(byte: Byte, writeWorks: bool) returns (acknowledged: bool)
      requires Valid()
      modifies this`aofStopSendingDiff
      ensures Valid()
      ensures View() == old(View()).(stopSending := old(aofStopSendingDiff) || byte == 33)
      ensures aofStopSendingDiff == (old(aofStopSendingDiff) || byte == '!' as int)
      ensures acknowledged <==> byte == '!' as int && writeWorks
    {
      acknowledged := false;
      if byte == 33 {
        aofStopSendingDiff := true;
        acknowledged := writeWorks;
      }
    }

    /** aofRewriteBufferWrite: the blocks appended to the child's file; any short write is an error. */
    method AofRewriteBufferWrite(tmp: Bytes, script: seq<WriteOutcome>) returns (ok: bool, out: Bytes)
      requires Valid()
      ensures ok ==> out == tmp + Flat(aofRewriteBufBlocks)
      ensures ok <==> forall i :: 0 <= i < |script| && i < |aofRewriteBufBlocks| ==> script[i] == Wrote(|aofRewriteBufBlocks[i]|)
    {
      out := tmp;
      var i := 0;
      assert aofRewriteBufBlocks[0..] == aofRewriteBufBlocks;
      while i < |aofRewriteBufBlocks|
        invariant 0 <= i <= |aofRewriteBufBlocks|
        invariant forall j :: 0 <= j < |script| && j < i ==> script[j] == Wrote(|aofRewriteBufBlocks[j]|)
        invariant out + Flat(aofRewriteBufBlocks[i..]) == tmp + Flat(aofRewriteBufBlocks)
      {
        var block := aofRewriteBufBlocks[i];
        if i < |script| && script[i] != Wrote(|block|) { return false, out; }
        assert aofRewriteBufBlocks[i..][1..] == aofRewriteBufBlocks[i + 1..];
        ConcatAssoc(out, block, Flat(aofRewriteBufBlocks[i + 1..]));
        out := out + block;
        i := i + 1;
      }
      assert aofRewriteBufBlocks[i..] == [];
      return true, out;
    }

    /** backgroundRewriteDoneHandler: tmp is the file the child wrote. */
    method BackgroundRewriteDoneHandler(exitedWithZero: bool, bySignal: bool, tmp: Bytes,
                                        openWorks: bool, script: seq<WriteOutcome>, renameWorks: bool)
      returns (switched: bool)
      requires Valid() && hasChild
      modifies this
      ensures Valid()
      ensures switched ==> Switched(old(View()), View(), tmp)
      ensures !switched ==> GivenUp(old(View()), View())
      ensures switched <==>
                && exitedWithZero && !bySignal && openWorks && renameWorks
                && forall i :: 0 <= i < |script| && i < |old(aofRewriteBufBlocks)| ==>
                     script[i] == Wrote(|old(aofRewriteBufBlocks)[i]|)
      ensures switched ==> file == tmp + old(Flat(aofRewriteBufBlocks)) && aofBuf == [] && aofSelectedDb == -1
      ensures !switched ==> file == old(file) && aofBuf == old(aofBuf) && aofSelectedDb == old(aofSelectedDb)
      ensures !hasChild && aofRewriteBufBlocks == []
    {
      switched := false;
      if !bySignal && exitedWithZero && openWorks {
        var ok, newFile := AofRewriteBufferWrite(tmp, script);
        if ok && renameWorks {
          file := newFile;
          aofSelectedDb := -1;
          aofCurrentSize := |file|;
          aofBuf := [];
          switched := true;
        }
      }
      aofRewriteBufBlocks := [];
      hasChild := false;
    }

    /** killAppendOnlyChild */
    method KillAppendOnlyChild()
      requires Valid() && hasChild
      modifies this`hasChild, this`aofRewriteBufBlocks
      ensures Valid() && GivenUp(old(View()), View())
      ensures !hasChild && aofRewriteBufBlocks == []
    {
      aofRewriteBufBlocks := [];
      hasChild := false;
    }
  }

  /** The commands written for one argument vector on database dictid. */
  function FedCommands(env: Env, now: nat, selected: int, dictid: nat, argv: Argv): (cmds: seq<Argv>)
    requires |argv| >= 1
    ensures forall i :: 0 <= i < |cmds| ==> |cmds[i]| >= 1
  {
    (if dictid != selected then [[SELECT, Digits(dictid)]] else []) + Translate(env, now, argv)
  }

  lemma PrintNone()
    ensures PrintAll([]) == []
  {
  }

  lemma PrintTwo(a: Argv, b: Argv)
    ensures PrintAll([a, b]) == Print(a) + Print(b)
  {
    AofLoad.PrintAllOne(b);
    assert [a, b][1..] == [b];
  }

  lemma PrintAnother(buf: Bytes, cmds: seq<Argv>, c: Argv)
    ensures buf + PrintAll(cmds) + Print(c) == buf + PrintAll(cmds + [c])
  {
    AofLoad.PrintAllAppend(cmds, [c]);
    AofLoad.PrintAllOne(c);
    ConcatAssoc(buf, PrintAll(cmds), Print(c));
  }

  lemma FourParts(a: Bytes, b: Bytes, c: Bytes, d: Bytes)
    ensures a + (b + c + d) == (a + b) + (c + d)
    ensures c == [] ==> a + (b + c + d) == (a + b) + d
  {
  }

  lemma FlatExtendLast(blocks: seq<Bytes>, more: Bytes)
    requires blocks != []
    ensures Flat(blocks[|blocks| - 1 := blocks[|blocks| - 1] + more]) == Flat(blocks) + more
  {
    var n := |blocks| - 1;
    var front, last := blocks[..n], blocks[n];
    assert blocks == front + [last];
    assert blocks[n := last + more] == front + [last + more];
    FlatLast(front, last);
    FlatLast(front, last + more);
    ConcatAssoc(Flat(front), last, more);
  }
}
