/**
 The loops of aof.c that write and read the log, run against the specification
 of modules AofLog and AofLoad.
 */
module AofLoader {
  import opened ByteStrings
  import opened AofLog
  import opened AofLoad

  /** catAppendOnlyGenericCommand */
  method CatAppendOnlyGenericCommand(dst: Bytes, argv: Argv) returns (r: Bytes)
    ensures r == dst + Print(argv)
  {
    r := dst + ([STAR] + Digits(|argv|) + CRLF);
    assert r + Bulks(argv) == dst + Print(argv) by { ConcatAssoc(dst, Header(|argv|), Bulks(argv)); }
    var j := 0;
    while j < |argv|
      invariant 0 <= j <= |argv|
      invariant r + Bulks(argv[j..]) == dst + Print(argv)
    {
      ghost var before, rest := r, Bulks(argv[j + 1..]);
      assert argv[j..][1..] == argv[j + 1..];
      r := r + ([DOLLAR] + Digits(|argv[j]|) + CRLF);
      r := r + argv[j];
      r := r + CRLF;
      assert r == before + Bulk(argv[j]);
      ConcatAssoc(before, Bulk(argv[j]), rest);
      j := j + 1;
    }
    assert argv[j..] == [];
  }

  /** One argument of the inner loop of loadAppendOnlyFile: its header line, its bytes, its line end. */
  method ReadArgument(file: Bytes, start: nat) returns (r: Read<Bytes>, pos: nat)
    requires start <= |file|
    ensures r == ReadBulk(file[start..])
    ensures r.Got? ==> pos <= |file| && r.rest == file[pos..]
  {
    pos := start;
    if pos == |file| { return Short, pos; }
    var n := LineLength(file[pos..], LINE_MAX);
    if file[pos] != DOLLAR { return Malformed, pos; }
    var len := BulkLength(file[pos..][..n]);
    pos := pos + n;
    assert file[start..][n..] == file[pos..];
    if len > |file| - pos { return Short, pos; }
    var arg := file[pos..pos + len];
    assert file[pos..][..len] == arg;
    pos := pos + len;
    if |file| - pos < 2 { return Short, pos; }
    pos := pos + 2;
    assert file[start + n..][len + 2..] == file[pos..];
    r := Got(arg, file[pos..]);
  }

  lemma PrependNone(r: Read<Argv>)
    ensures Prepend([], r) == r
  {
    assert r.Got? ==> [] + r.value == r.value;
  }

  lemma PrependMore(args: Argv, a: Bytes, r: Read<Argv>)
    ensures Prepend(args, Prepend([a], r)) == Prepend(args + [a], r)
  {
    if r.Got? { ConcatAssoc(args, [a], r.value); }
  }

  lemma ReadNoBulks(args: Argv, s: Bytes)
    ensures Prepend(args, ReadBulks(s, 0)) == Got(args, s)
  {
    assert args + [] == args;
  }

  lemma ReadBulksFail(args: Argv, s: Bytes, count: nat)
    requires count > 0 && !ReadBulk(s).Got?
    ensures var r := ReadBulk(s);
            Prepend(args, ReadBulks(s, count)) == if r.Short? then Short else if r.Unreadable? then Unreadable else Malformed
  {
    hide ReadBulk;
  }

  /** The whole inner loop: argc arguments. */
  method ReadArguments(file: Bytes, start: nat, argc: nat) returns (r: Read<Argv>, pos: nat)
    requires start <= |file|
    ensures r == ReadBulks(file[start..], argc)
    ensures r.Got? ==> pos <= |file| && r.rest == file[pos..]
  {
    hide *;
    var argv: Argv := [];
    pos := start;
    ghost var whole := ReadBulks(file[start..], argc);
    PrependNone(whole);
    var j := 0;
    while j < argc
      invariant 0 <= j <= argc && pos <= |file|
      invariant whole == Prepend(argv, ReadBulks(file[pos..], argc - j))
    {
      var arg, next := ReadArgument(file, pos);
      if !arg.Got? {
        ReadBulksFail(argv, file[pos..], argc - j);
        return if arg.Short? then Short else if arg.Unreadable? then Unreadable else Malformed, pos;
      }
      ReadBulksStep(file[pos..], argc - j, arg.value, arg.rest);
      PrependMore(argv, arg.value, ReadBulks(arg.rest, argc - j - 1));
      argv, pos := argv + [arg.value], next;
      j := j + 1;
    }
    ReadNoBulks(argv, file[pos..]);
    r := Got(argv, file[pos..]);
  }

  /** The part of the main loop that reads one command. */
  method ReadNext(file: Bytes, start: nat) returns (r: Read<Argv>, pos: nat)
    requires start < |file|
    ensures r == ReadCommand(file[start..])
    ensures r.Got? ==> pos <= |file| && r.rest == file[pos..]
  {
    hide ReadBulks, LineLength, HitEof, Atoi;
    pos := start;
    var n := LineLength(file[start..], LINE_MAX);
    var line := file[start..][..n];
    assert file[start..][n..] == file[start + n..];
    if line[0] != STAR { return Malformed, pos; }
    if |line| == 1 || line[1] == 0 {
      r := if HitEof(line) then Short else Unreadable;
      return;
    }
    var argc := Atoi(line[1..]);
    if argc < 1 { return Malformed, pos; }
    r, pos := ReadArguments(file, start + n, argc);
  }

  /** loadAppendOnlyFile */
  method LoadAppendOnlyFile(table: CommandTable, o: Options, file: Bytes) returns (r: Outcome)
    ensures r == Load(table, o, file)
    ensures r == Exited(UnexpectedEof) ==> !(o.loadTruncated && o.truncateWorks)
    ensures r.Loaded? && r.size != |file| ==> o.loadTruncated && o.truncateWorks
  {
    hide *;
    LoadStart(table, o, file);
    CutOnlyIfAllowed(table, o, |file|, file, FreshClient, 0, 0);
    if |file| == 0 { return EmptyLog; }
    if PREAMBLE <= file { return RdbPreamble; }
    var fakeClient := FreshClient;
    var validUpTo, validBeforeMulti := 0, 0;
    var pos := 0;
    assert file[0..] == file;
    while pos < |file|
      invariant 0 <= pos <= |file|
      invariant Load(table, o, file) == LoadFrom(table, o, |file|, file[pos..], fakeClient, validUpTo, validBeforeMulti)
    {
      var read, next := ReadNext(file, pos);
      if !read.Got? || table(read.value[0]) == Unknown {
        LoadStop(table, o, |file|, file[pos..], fakeClient, validUpTo, validBeforeMulti);
        match read {
          case Short => return CutAt(o, fakeClient, validUpTo);
          case Unreadable => return Exited(ReadError);
          case Malformed => return Exited(FormatError);
          case Got(_, _) => return Exited(UnknownCommand);
        }
      }
      var argv := read.value;
      var cmd := table(argv[0]);
      LoadStep(table, o, |file|, file[pos..], argv, file[next..], fakeClient, validUpTo, validBeforeMulti);
      if cmd == Multi { validBeforeMulti := validUpTo; }
      fakeClient := RunCommand(fakeClient, cmd, argv);
      pos := next;
      if o.loadTruncated { validUpTo := pos; }
    }
    assert file[pos..] == [];
    LoadEnd(table, o, |file|, fakeClient, validUpTo, validBeforeMulti);
    if fakeClient.inMulti {
      r := CutAt(o, fakeClient, validBeforeMulti);
    } else {
      r := Loaded(fakeClient.executed, |file|);
    }
  }
}
