/**
 The dataset, the commands of the append-only log, and their execution: by a
 client at a given time (Perform) and by the loader (Replay).
 Scores of sorted sets stand for themselves as their printed text.
 */
module Dataset {
  import opened Basics
  import opened ByteStrings
  import opened AofLog
  import AofLoad

  datatype Value =
    | Str(text: Bytes)
    | List(items: seq<Bytes>)
    | Set(members: set<Bytes>)
    | ZSet(scores: map<Bytes, Bytes>)
    | Hash(fields: map<Bytes, Bytes>)

  /** A key's value and the time, in milliseconds, at which it expires. */
  datatype Entry = Entry(value: Value, expire: Option<int>)

  type Db = map<Bytes, Entry>

  /** The command table: the commands modelled here, any other known command, and unknown names. */
  datatype Command =
    | Select | Multi | Exec | Del | SetKey | SetEx | PSetEx
    | Expire | PExpire | ExpireAt | PExpireAt
    | RPush | SAdd | ZAdd | HMSet
    | Other | Unknown

  /** The other commands: which names are known, and what they do to the databases. */
  datatype Env = Env(known: Bytes -> bool, other: (seq<Db>, nat, Argv) -> seq<Db>)

  function LowerByte(b: Byte): Byte { if 65 <= b <= 90 then b + 32 else b }

  function Lower(s: Bytes): Bytes { seq(|s|, i requires 0 <= i < |s| => LowerByte(s[i])) }

  const SELECT: Bytes := [83, 69, 76, 69, 67, 84]
  const MULTI: Bytes := [77, 85, 76, 84, 73]
  const EXEC: Bytes := [69, 88, 69, 67]
  const DEL: Bytes := [68, 69, 76]
  const SET: Bytes := [83, 69, 84]
  const PEXPIREAT: Bytes := [80, 69, 88, 80, 73, 82, 69, 65, 84]
  const RPUSH: Bytes := [82, 80, 85, 83, 72]
  const SADD: Bytes := [83, 65, 68, 68]
  const ZADD: Bytes := [90, 65, 68, 68]
  const HMSET: Bytes := [72, 77, 83, 69, 84]

  /** lookupCommand: names are compared without regard to case. */
  function Lookup(env: Env, name: Bytes): Command
  {
    var n := Lower(name);
    if n == [115, 101, 108, 101, 99, 116] then Select
    else if n == [109, 117, 108, 116, 105] then Multi
    else if n == [101, 120, 101, 99] then Exec
    else if n == [100, 101, 108] then Del
    else if n == [115, 101, 116] then SetKey
    else if n == [115, 101, 116, 101, 120] then SetEx
    else if n == [112, 115, 101, 116, 101, 120] then PSetEx
    else if n == [101, 120, 112, 105, 114, 101] then Expire
    else if n == [112, 101, 120, 112, 105, 114, 101] then PExpire
    else if n == [101, 120, 112, 105, 114, 101, 97, 116] then ExpireAt
    else if n == [112, 101, 120, 112, 105, 114, 101, 97, 116] then PExpireAt
    else if n == [114, 112, 117, 115, 104] then RPush
    else if n == [115, 97, 100, 100] then SAdd
    else if n == [122, 97, 100, 100] then ZAdd
    else if n == [104, 109, 115, 101, 116] then HMSet
    else if env.known(n) then Other
    else Unknown
  }

  /** The loader's view of the command table. */
  function Table(env: Env): AofLoad.CommandTable
  {
    (name: Bytes) =>
      match Lookup(env, name)
      case Unknown => AofLoad.Unknown
      case Multi => AofLoad.Multi
      case Exec => AofLoad.Exec
      case _ => AofLoad.Plain
  }

  // ---------------------------------------------------------------- execution by the loader

  /** A client's selected database and the databases. */
  datatype Session = Session(selected: nat, dbs: seq<Db>)

  function AddPairs(m: map<Bytes, Bytes>, pairs: Argv, scoreFirst: bool): map<Bytes, Bytes>
    decreases |pairs|
  {
    if |pairs| < 2 then m
    else AddPairs(if scoreFirst then m[pairs[1] := pairs[0]] else m[pairs[0] := pairs[1]], pairs[2..], scoreFirst)
  }

  function Elements(items: Argv): set<Bytes> { set x | x in items }

  /** What RPUSH, SADD, ZADD and HMSET make of the value of their key; None is a wrong type. */
  function Extend(cmd: Command, was: Option<Value>, args: Argv): Option<Value>
  {
    match cmd
    case RPush => if was.None? then Some(List(args))
                  else if was.value.List? then Some(List(was.value.items + args)) else None
    case SAdd => if was.None? then Some(Set(Elements(args)))
                 else if was.value.Set? then Some(Set(was.value.members + Elements(args))) else None
    case ZAdd => if was.None? then Some(ZSet(AddPairs(map[], args, true)))
                 else if was.value.ZSet? then Some(ZSet(AddPairs(was.value.scores, args, true))) else None
    case HMSet => if was.None? then Some(Hash(AddPairs(map[], args, false)))
                  else if was.value.Hash? then Some(Hash(AddPairs(was.value.fields, args, false))) else None
    case _ => None
  }

  function ExtendKey(cmd: Command, db: Db, key: Bytes, args: Argv): Db
  {
    match Extend(cmd, if key in db then Some(db[key].value) else None, args)
    case Some(v) => db[key := Entry(v, if key in db then db[key].expire else None)]
    case None => db
  }

  /** The commands that act on one database, as the loader executes them. */
  function ReplayInDb(cmd: Command, db: Db, argv: Argv): Db
    requires |argv| >= 2
  {
    var key := argv[1];
    match cmd
    case Del => db - Elements(argv[1..])
    case SetKey => if |argv| == 3 then db[key := Entry(Str(argv[2]), None)] else db
    case PExpireAt =>
      if |argv| == 3 && key in db then db[key := Entry(db[key].value, Some(Strtol(argv[2])))] else db
    case _ => if |argv| >= 3 then ExtendKey(cmd, db, key, argv[2..]) else db
  }

  predicate ActsOnDb(cmd: Command)
  {
    cmd == Del || cmd == SetKey || cmd == PExpireAt || cmd == RPush || cmd == SAdd || cmd == ZAdd || cmd == HMSet
  }

  function Replay(env: Env, s: Session, argv: Argv): Session
    requires |argv| >= 1
  {
    var cmd := Lookup(env, argv[0]);
    if cmd == Multi then s // queued inside a transaction, and refused when that runs it
    else if cmd == Select then
      if |argv| == 2 && 0 <= Strtol(argv[1]) < |s.dbs| then s.(selected := Strtol(argv[1])) else s
    else if s.selected < |s.dbs| then
      if ActsOnDb(cmd) then
        if |argv| >= 2 then s.(dbs := s.dbs[s.selected := ReplayInDb(cmd, s.dbs[s.selected], argv)]) else s
      else s.(dbs := env.other(s.dbs, s.selected, argv))
    else s
  }

  function ReplayAll(env: Env, s: Session, cmds: seq<Argv>): Session
    requires forall i :: 0 <= i < |cmds| ==> |cmds[i]| >= 1
    decreases |cmds|
  {
    if cmds == [] then s else ReplayAll(env, Replay(env, s, cmds[0]), cmds[1..])
  }

  lemma {:induction false} ReplayAllAppend(env: Env, s: Session, a: seq<Argv>, b: seq<Argv>)
    requires forall i :: 0 <= i < |a| ==> |a[i]| >= 1
    requires forall i :: 0 <= i < |b| ==> |b[i]| >= 1
    ensures ReplayAll(env, s, a + b) == ReplayAll(env, ReplayAll(env, s, a), b)
    decreases |a|
  {
    hide Replay;
    if a == [] {
      assert a + b == b;
    } else {
      assert (a + b)[1..] == a[1..] + b;
      ReplayAllAppend(env, Replay(env, s, a[0]), a[1..], b);
    }
  }
}
