/**
 The commands by name and number: what EXPIRE, SETEX, SET, DEL and the commands
 that build collections do to a key, and what is written for them (aof.c,
 expire.c, t_string.c and db.c). Times are in milliseconds.
 */
module AofCommands {
  import opened Basics
  import opened ByteStrings
  import opened AofLog
  import opened Dataset
  import opened AofFeed
  import AofRewrite

  // ---------------------------------------------------------------- names and numbers

  const EXPIRE := Text("EXPIRE")
  const PEXPIRE := Text("PEXPIRE")
  const EXPIREAT := Text("EXPIREAT")
  const SETEX := Text("SETEX")
  const PSETEX := Text("PSETEX")
  const OPTION_EX := Text("EX")
  const OPTION_PX := Text("PX")
  const OPTION_NX := Text("NX")
  const OPTION_XX := Text("XX")

  lemma ControlNames(env: Env)
    ensures Lookup(env, Text("SELECT")) == Select && Lookup(env, Text("MULTI")) == Multi && Lookup(env, Text("EXEC")) == Exec
    ensures Text("SELECT") == SELECT && Text("MULTI") == MULTI && Text("EXEC") == EXEC
  {
    LookupControl(env);
    hide Lookup;
    assert Text("SELECT") == SELECT && Text("MULTI") == MULTI && Text("EXEC") == EXEC;
  }

  lemma BuilderNames(env: Env)
    ensures Text("RPUSH") == RPUSH && Text("SADD") == SADD && Text("ZADD") == ZADD && Text("HMSET") == HMSET
    ensures Lookup(env, RPUSH) == RPush && Lookup(env, SADD) == SAdd && Lookup(env, ZADD) == ZAdd && Lookup(env, HMSET) == HMSet
  {
    assert Text("RPUSH") == RPUSH && Text("SADD") == SADD && Text("ZADD") == ZADD && Text("HMSET") == HMSET;
    hide Text;
    AofRewrite.LookupBuilders(env);
  }

  lemma KeyNames(env: Env)
    ensures Text("SET") == SET && Text("DEL") == DEL && Text("PEXPIREAT") == PEXPIREAT
    ensures Lookup(env, SET) == SetKey && Lookup(env, DEL) == Del && Lookup(env, PEXPIREAT) == PExpireAt
  {
    LookupKeyCommands(env);
    hide Lookup;
    assert Text("SET") == SET && Text("DEL") == DEL && Text("PEXPIREAT") == PEXPIREAT;
  }

  lemma ExpireNames(env: Env)
    ensures Lookup(env, EXPIRE) == Expire && Lookup(env, PEXPIRE) == PExpire
    ensures Lookup(env, EXPIREAT) == ExpireAt
  {
    assert Lower(EXPIRE) == [101, 120, 112, 105, 114, 101];
    assert Lower(PEXPIRE) == [112, 101, 120, 112, 105, 114, 101];
    assert Lower(EXPIREAT) == [101, 120, 112, 105, 114, 101, 97, 116];
  }

  lemma SetExNames(env: Env)
    ensures Lookup(env, SETEX) == SetEx && Lookup(env, PSETEX) == PSetEx
  {
    assert Lower(SETEX) == [115, 101, 116, 101, 120];
    assert Lower(PSETEX) == [112, 115, 101, 116, 101, 120];
  }

  lemma OptionNames()
    ensures Spells(OPTION_EX, EX) && Spells(OPTION_PX, PX) && Spells(OPTION_NX, NX) && Spells(OPTION_XX, XX)
    ensures !Spells(OPTION_EX, NX) && !Spells(OPTION_EX, XX) && !Spells(OPTION_PX, NX) && !Spells(OPTION_PX, XX)
    ensures !Spells(OPTION_PX, EX) && !Spells(OPTION_XX, NX) && !Spells(OPTION_EX, PX)
    ensures !Spells(OPTION_NX, EX) && !Spells(OPTION_NX, PX) && !Spells(OPTION_XX, EX) && !Spells(OPTION_XX, PX)
  {
    ShortText(OPTION_EX);
    ShortText(OPTION_PX);
    ShortText(OPTION_NX);
    ShortText(OPTION_XX);
    assert Lower(OPTION_EX) == EX && Lower(OPTION_PX) == PX && Lower(OPTION_NX) == NX && Lower(OPTION_XX) == XX;
  }

  lemma ShortText(a: Bytes)
    requires |a| == 2 && a[0] != 0 && a[1] != 0
    ensures CString(a) == a
  {
    assert CString(a) == [a[0]] + CString(a[1..]);
    assert CString(a[1..]) == [a[1]] + CString(a[1..][1..]);
  }

  /** The texts of n and of -n, as strtol reads them. */
  lemma NumberText(n: nat)
    requires n <= LONG_MAX
    ensures Strtol(Digits(n)) == n && Strtol([45] + Digits(n)) == 0 - n
    ensures n > 0 ==> PositiveText(Digits(n))
  {
    StrtolOfDigits(n, []);
    assert Digits(n) + [] == Digits(n);
    DigitRunOfDigits(n, []);
    assert ([45] + Digits(n))[1..] == Digits(n);
  }

  // ---------------------------------------------------------------- the EXPIRE family

  /** The command was performed: its database is db now, and logged is what goes to the log. */
  ghost predicate Does(env: Env, now: nat, s: Session, argv: Argv, db: Db, logged: Argv)
    requires |argv| >= 1 && Selects(s)
  {
    Perform(env, now, s, argv) == Some((Session(s.selected, s.dbs[s.selected := db]), logged))
  }

  /** A key gets the deadline when, or goes at once if that has passed. */
  ghost predicate Expires(env: Env, now: nat, s: Session, argv: Argv, k: Bytes, when: int)
    requires |argv| >= 1 && Selects(s)
  {
    var db := s.dbs[s.selected];
    && (k !in db ==> Perform(env, now, s, argv) == None)
    && (k in db && when <= now ==> Does(env, now, s, argv, db - {k}, [DEL, k]))
    && (k in db && now < when <= LONG_MAX ==> Does(env, now, s, argv, db[k := Entry(db[k].value, Some(when))], argv))
  }

  lemma DeadlineIs(now: nat, text: Bytes)
    ensures Deadline(Expire, now, text) == now + 1000 * Strtol(text) && Deadline(PExpire, now, text) == now + Strtol(text)
    ensures Deadline(SetEx, now, text) == now + 1000 * Strtol(text) && Deadline(PSetEx, now, text) == now + Strtol(text)
    ensures Deadline(ExpireAt, now, text) == 1000 * Strtol(text) && Deadline(PExpireAt, now, text) == Strtol(text)
  {
    hide Strtol;
  }

  lemma ExpiresAt(env: Env, now: nat, s: Session, argv: Argv, cmd: Command, when: int)
    requires Selects(s) && |argv| == 3 && Lookup(env, argv[0]) == cmd && cmd in {Expire, PExpire, ExpireAt, PExpireAt}
    requires Deadline(cmd, now, argv[2]) == when
    ensures Expires(env, now, s, argv, argv[1], when)
    ensures cmd != PExpireAt && when >= 0 ==> Translate(env, now, argv) == [[PEXPIREAT, argv[1], Digits(when)]]
  {
    hide Lookup, Deadline, Digits;
  }

  /** EXPIRE k n: n seconds from now. */
  lemma ExpireMeans(env: Env, now: nat, s: Session, k: Bytes, n: nat)
    requires Selects(s) && n <= LONG_MAX
    ensures var argv := [EXPIRE, k, Digits(n)];
            && Expires(env, now, s, argv, k, now + 1000 * n)
            && Translate(env, now, argv) == [[PEXPIREAT, k, Digits(now + 1000 * n)]]
    ensures Expires(env, now, s, [EXPIRE, k, [45] + Digits(n)], k, now - 1000 * n)
  {
    hide *;
    ExpireNames(env);
    NumberText(n);
    DeadlineIs(now, Digits(n));
    DeadlineIs(now, [45] + Digits(n));
    ExpiresAt(env, now, s, [EXPIRE, k, Digits(n)], Expire, now + 1000 * n);
    ExpiresAt(env, now, s, [EXPIRE, k, [45] + Digits(n)], Expire, now - 1000 * n);
  }

  /** PEXPIRE k n: n milliseconds from now. */
  lemma PExpireMeans(env: Env, now: nat, s: Session, k: Bytes, n: nat)
    requires Selects(s) && n <= LONG_MAX
    ensures var argv := [PEXPIRE, k, Digits(n)];
            && Expires(env, now, s, argv, k, now + n)
            && Translate(env, now, argv) == [[PEXPIREAT, k, Digits(now + n)]]
    ensures Expires(env, now, s, [PEXPIRE, k, [45] + Digits(n)], k, now - n)
  {
    hide *;
    ExpireNames(env);
    NumberText(n);
    DeadlineIs(now, Digits(n));
    DeadlineIs(now, [45] + Digits(n));
    ExpiresAt(env, now, s, [PEXPIRE, k, Digits(n)], PExpire, now + n);
    ExpiresAt(env, now, s, [PEXPIRE, k, [45] + Digits(n)], PExpire, now - n);
  }

  /** EXPIREAT k n: at second n. */
  lemma ExpireAtMeans(env: Env, now: nat, s: Session, k: Bytes, n: nat)
    requires Selects(s) && n <= LONG_MAX
    ensures var argv := [EXPIREAT, k, Digits(n)];
            && Expires(env, now, s, argv, k, 1000 * n)
            && Translate(env, now, argv) == [[PEXPIREAT, k, Digits(1000 * n)]]
    ensures Expires(env, now, s, [EXPIREAT, k, [45] + Digits(n)], k, 0 - 1000 * n)
  {
    hide *;
    ExpireNames(env);
    NumberText(n);
    DeadlineIs(now, Digits(n));
    DeadlineIs(now, [45] + Digits(n));
    ExpiresAt(env, now, s, [EXPIREAT, k, Digits(n)], ExpireAt, 1000 * n);
    ExpiresAt(env, now, s, [EXPIREAT, k, [45] + Digits(n)], ExpireAt, 0 - 1000 * n);
  }

  /** PEXPIREAT k n: at millisecond n; written as it is. */
  lemma PExpireAtMeans(env: Env, now: nat, s: Session, k: Bytes, n: nat)
    requires Selects(s) && n <= LONG_MAX
    ensures var argv := [PEXPIREAT, k, Digits(n)];
            Expires(env, now, s, argv, k, n) && Translate(env, now, argv) == [argv]
    ensures Expires(env, now, s, [PEXPIREAT, k, [45] + Digits(n)], k, 0 - n)
  {
    hide Lookup, Strtol, Expires, Digits, Deadline, Text, Perform;
    KeyNames(env);
    NumberText(n);
    DeadlineIs(now, Digits(n));
    DeadlineIs(now, [45] + Digits(n));
    ExpiresAt(env, now, s, [PEXPIREAT, k, Digits(n)], PExpireAt, n);
    ExpiresAt(env, now, s, [PEXPIREAT, k, [45] + Digits(n)], PExpireAt, 0 - n);
  }

  // ---------------------------------------------------------------- SETEX, PSETEX and SET

  /** The key holds the string until when, and a SET and a PEXPIREAT with that time are written. */
  ghost predicate SetsUntil(env: Env, now: nat, s: Session, argv: Argv, name: Bytes, k: Bytes, v: Bytes, when: nat)
    requires |argv| >= 1 && Selects(s)
  {
    && Does(env, now, s, argv, s.dbs[s.selected][k := Entry(Str(v), Some(when))], argv)
    && Translate(env, now, argv) == [[name, k, v], [PEXPIREAT, k, Digits(when)]]
  }

  lemma SetsAt(env: Env, now: nat, s: Session, argv: Argv, cmd: Command, when: int)
    requires Selects(s) && |argv| == 4 && Lookup(env, argv[0]) == cmd && (cmd == SetEx || cmd == PSetEx)
    requires Deadline(cmd, now, argv[2]) == when <= LONG_MAX
    ensures Strtol(argv[2]) <= 0 ==> Perform(env, now, s, argv) == None
    ensures Strtol(argv[2]) > 0 && when >= 0 ==> SetsUntil(env, now, s, argv, SET, argv[1], argv[3], when)
  {
    hide Lookup, Deadline, Digits, Strtol;
  }

  /** SETEX k n v: n seconds from now; with n = 0 or below it is refused. */
  lemma SetExMeans(env: Env, now: nat, s: Session, k: Bytes, v: Bytes, n: nat)
    requires Selects(s) && now + 1000 * n <= LONG_MAX
    ensures n > 0 ==> SetsUntil(env, now, s, [SETEX, k, Digits(n), v], SET, k, v, now + 1000 * n)
    ensures n == 0 ==> Perform(env, now, s, [SETEX, k, Digits(n), v]) == None
    ensures Perform(env, now, s, [SETEX, k, [45] + Digits(n), v]) == None
  {
    hide *;
    SetExNames(env);
    NumberText(n);
    DeadlineIs(now, Digits(n));
    DeadlineIs(now, [45] + Digits(n));
    SetsAt(env, now, s, [SETEX, k, Digits(n), v], SetEx, now + 1000 * n);
    SetsAt(env, now, s, [SETEX, k, [45] + Digits(n), v], SetEx, now - 1000 * n);
  }

  /** PSETEX k n v: n milliseconds from now. */
  lemma PSetExMeans(env: Env, now: nat, s: Session, k: Bytes, v: Bytes, n: nat)
    requires Selects(s) && now + n <= LONG_MAX
    ensures n > 0 ==> SetsUntil(env, now, s, [PSETEX, k, Digits(n), v], SET, k, v, now + n)
    ensures n == 0 ==> Perform(env, now, s, [PSETEX, k, Digits(n), v]) == None
    ensures Perform(env, now, s, [PSETEX, k, [45] + Digits(n), v]) == None
  {
    hide *;
    SetExNames(env);
    NumberText(n);
    DeadlineIs(now, Digits(n));
    DeadlineIs(now, [45] + Digits(n));
    SetsAt(env, now, s, [PSETEX, k, Digits(n), v], PSetEx, now + n);
    SetsAt(env, now, s, [PSETEX, k, [45] + Digits(n), v], PSetEx, now - n);
  }

  lemma SetPerformed(env: Env, now: nat, s: Session, argv: Argv)
    requires Selects(s) && |argv| >= 3 && Lookup(env, argv[0]) == SetKey && PerformSet(now, s.dbs[s.selected], argv).Some?
    ensures var o := ParseSet(argv, 3, NoOptions);
            && o.Some?
            && (o.value.ttl.Some? ==>
                  Does(env, now, s, argv, s.dbs[s.selected][argv[1] := Entry(Str(argv[2]), Some(Deadline(TtlCommand(o.value), now, o.value.ttl.value)))], argv))
  {
    hide Lookup, ParseSet, Deadline, PositiveText;
  }

  lemma SetWritten(env: Env, now: nat, argv: Argv, cmd: Command, t: Bytes, when: nat)
    requires |argv| > 3 && Lookup(env, argv[0]) == SetKey && Deadline(cmd, now, t) == when
    requires cmd == Expire ==> ScanUnit(argv, 3, EX, None) == Some(t) && ScanUnit(argv, 3, PX, None) == None
    requires cmd == PExpire ==> ScanUnit(argv, 3, PX, None) == Some(t) && ScanUnit(argv, 3, EX, None) == None
    requires cmd == Expire || cmd == PExpire
    ensures Translate(env, now, argv) == [argv[..3], [PEXPIREAT, argv[1], Digits(when)]]
  {
    hide Lookup, ScanUnit, Deadline, Digits;
  }

  /** Any performed SET whose options parse to a time to live of n in its unit. */
  lemma SetMeans(env: Env, now: nat, s: Session, argv: Argv, n: nat)
    requires Selects(s) && |argv| >= 3 && Lookup(env, argv[0]) == SetKey && 0 < n <= LONG_MAX
    requires ParseSet(argv, 3, NoOptions).Some? && ParseSet(argv, 3, NoOptions).value.ttl == Some(Digits(n))
    requires PerformSet(now, s.dbs[s.selected], argv).Some? && FeedAssertion(env, argv)
    ensures var o := ParseSet(argv, 3, NoOptions).value;
            SetsUntil(env, now, s, argv, argv[0], argv[1], argv[2], now + if o.px then n else 1000 * n)
  {
    hide Lookup, Strtol, Digits, ParseSet, ScanUnit, PositiveText, MixedUnits, Deadline, PerformSet, Perform, Translate;
    var o := ParseSet(argv, 3, NoOptions).value;
    NumberText(n);
    DeadlineIs(now, Digits(n));
    ScansOfSet(now, s.dbs[s.selected], argv);
    SetPerformed(env, now, s, argv);
    SetWritten(env, now, argv, TtlCommand(o), Digits(n), now + if o.px then n else 1000 * n);
    assert argv[..3] == [argv[0], argv[1], argv[2]];
  }

  lemma ParseTtl(unit: Bytes, k: Bytes, v: Bytes, t: Bytes, px: bool)
    requires unit == if px then OPTION_PX else OPTION_EX
    ensures var argv := [SET, k, v, unit, t];
            ParseSet(argv, 3, NoOptions) == Some(SetOptions(false, false, !px, px, Some(t)))
  {
    OptionNames();
    hide Spells;
    var argv := [SET, k, v, unit, t];
    assert ParseSet(argv, 3, NoOptions) == ParseSet(argv, 5, SetOptions(false, false, !px, px, Some(t)));
  }

  lemma ScanTtl(env: Env, unit: Bytes, k: Bytes, v: Bytes, n: nat, px: bool)
    requires unit == (if px then OPTION_PX else OPTION_EX) && 0 < n <= LONG_MAX
    ensures FeedAssertion(env, [SET, k, v, unit, Digits(n)])
  {
    OptionNames();
    NumberText(n);
    DigitsSpellNoUnit(Digits(n));
    hide Spells, Lookup, Digits, PositiveText;
    var argv := [SET, k, v, unit, Digits(n)];
    var other := if px then EX else PX;
    assert ScanUnit(argv, 3, other, None) == ScanUnit(argv, 4, other, None);
    assert ScanUnit(argv, 4, other, None) == ScanUnit(argv, 5, other, None);
  }

  /** What SET with a time to live takes to be performed. */
  lemma SetTaken(env: Env, now: nat, s: Session, k: Bytes, v: Bytes, n: nat, px: bool)
    requires Selects(s) && n <= LONG_MAX
    ensures var argv, when := [SET, k, v, if px then OPTION_PX else OPTION_EX, Digits(n)], now + if px then n else 1000 * n;
            && (PerformSet(now, s.dbs[s.selected], argv).Some? <==> 0 < n && when <= LONG_MAX)
            && (Perform(env, now, s, argv) == None <==> !(0 < n && when <= LONG_MAX))
  {
    hide Lookup, Strtol, Digits, ParseSet, Deadline, Text;
    KeyNames(env);
    NumberText(n);
    DeadlineIs(now, Digits(n));
    ParseTtl(if px then OPTION_PX else OPTION_EX, k, v, Digits(n), px);
  }

  lemma SetUnitMeans(env: Env, now: nat, s: Session, k: Bytes, v: Bytes, n: nat, px: bool)
    requires Selects(s) && n <= LONG_MAX
    ensures var argv, when := [SET, k, v, if px then OPTION_PX else OPTION_EX, Digits(n)], now + if px then n else 1000 * n;
            if 0 < n && when <= LONG_MAX then SetsUntil(env, now, s, argv, SET, k, v, when) else Perform(env, now, s, argv) == None
  {
    hide *;
    KeyNames(env);
    var unit := if px then OPTION_PX else OPTION_EX;
    SetTaken(env, now, s, k, v, n, px);
    if 0 < n && now + (if px then n else 1000 * n) <= LONG_MAX {
      ParseTtl(unit, k, v, Digits(n), px);
      ScanTtl(env, unit, k, v, n, px);
      SetMeans(env, now, s, [SET, k, v, unit, Digits(n)], n);
    }
  }

  /** SET k v EX n: n seconds from now; SET k v PX n: n milliseconds. With n = 0, or a time beyond a long long, it is refused. */
  lemma SetTtlMeans(env: Env, now: nat, s: Session, k: Bytes, v: Bytes, n: nat)
    requires Selects(s) && n <= LONG_MAX
    ensures var argv := [SET, k, v, OPTION_EX, Digits(n)];
            if 0 < n && now + 1000 * n <= LONG_MAX then SetsUntil(env, now, s, argv, SET, k, v, now + 1000 * n)
            else Perform(env, now, s, argv) == None
    ensures var argv := [SET, k, v, OPTION_PX, Digits(n)];
            if 0 < n && now + n <= LONG_MAX then SetsUntil(env, now, s, argv, SET, k, v, now + n)
            else Perform(env, now, s, argv) == None
  {
    hide *;
    SetUnitMeans(env, now, s, k, v, n, false);
    SetUnitMeans(env, now, s, k, v, n, true);
  }

  /** SET k v: the key holds the string, and no time to live it had stays. */
  lemma PlainSetMeans(env: Env, now: nat, s: Session, k: Bytes, v: Bytes)
    requires Selects(s)
    ensures var argv := [SET, k, v];
            && Does(env, now, s, argv, s.dbs[s.selected][k := Entry(Str(v), None)], argv)
            && Translate(env, now, argv) == [argv]
  {
    KeyNames(env);
    hide Lookup;
    assert ParseSet([SET, k, v], 3, NoOptions) == Some(NoOptions);
  }

  /** SET k v NX is performed exactly for a key that is missing, SET k v XX exactly for one that is there. */
  lemma ConditionalSetMeans(env: Env, now: nat, s: Session, k: Bytes, v: Bytes)
    requires Selects(s)
    ensures var argv, db := [SET, k, v, OPTION_NX], s.dbs[s.selected];
            if k in db then Perform(env, now, s, argv) == None
            else Does(env, now, s, argv, db[k := Entry(Str(v), None)], argv)
    ensures var argv, db := [SET, k, v, OPTION_XX], s.dbs[s.selected];
            if k !in db then Perform(env, now, s, argv) == None
            else Does(env, now, s, argv, db[k := Entry(Str(v), None)], argv)
    ensures Translate(env, now, [SET, k, v, OPTION_NX]) == Translate(env, now, [SET, k, v, OPTION_XX]) == [[SET, k, v]]
  {
    KeyNames(env);
    OptionNames();
    hide Lookup, Spells;
    forall o | o in {OPTION_NX, OPTION_XX} ensures Translate(env, now, [SET, k, v, o]) == [[SET, k, v]]
    {
      var argv := [SET, k, v, o];
      assert ScanUnit(argv, 3, EX, None) == ScanUnit(argv, 4, EX, None) && ScanUnit(argv, 3, PX, None) == ScanUnit(argv, 4, PX, None);
      assert argv[..3] == [SET, k, v];
    }
    assert ParseSet([SET, k, v, OPTION_NX], 3, NoOptions) == ParseSet([SET, k, v, OPTION_NX], 4, NoOptions.(nx := true));
    assert ParseSet([SET, k, v, OPTION_XX], 3, NoOptions) == ParseSet([SET, k, v, OPTION_XX], 4, NoOptions.(xx := true));
  }

  // ---------------------------------------------------------------- DEL and the commands that build collections

  /** DEL removes exactly the keys it names. */
  lemma DelMeans(env: Env, now: nat, s: Session, keys: Argv)
    requires Selects(s) && keys != []
    ensures var db := s.dbs[s.selected];
            var left: Db := map k | k in db && k !in keys :: db[k];
            Does(env, now, s, [DEL] + keys, left, [DEL] + keys)
  {
    KeyNames(env);
    hide Lookup;
    var argv, db := [DEL] + keys, s.dbs[s.selected];
    var left: Db := map k | k in db && k !in keys :: db[k];
    assert argv[1..] == keys;
    assert db - Elements(keys) == left;
  }

  /** What a key holds after its value became v: it keeps its time to live, and no other key is touched. */
  function Revalued(db: Db, k: Bytes, v: Value): Db
  {
    db[k := Entry(v, if k in db then db[k].expire else None)]
  }

  /** RPUSH appends in order, SADD adds members; on a value of another type they change nothing. */
  lemma PushMeans(env: Env, now: nat, s: Session, k: Bytes, args: Argv)
    requires Selects(s) && args != []
    ensures var db, argv := s.dbs[s.selected], [RPUSH, k] + args;
            && (k !in db ==> Does(env, now, s, argv, db[k := Entry(List(args), None)], argv))
            && (k in db && db[k].value.List? ==>
                  Does(env, now, s, argv, db[k := Entry(List(db[k].value.items + args), db[k].expire)], argv))
            && (k in db && !db[k].value.List? ==> Does(env, now, s, argv, db, argv))
  {
    BuilderNames(env);
    hide Lookup, Text;
    BuildMeans(env, now, s, RPUSH, RPush, k, args);
  }

  lemma AddMeans(env: Env, now: nat, s: Session, k: Bytes, args: Argv)
    requires Selects(s) && args != []
    ensures var db, argv, more := s.dbs[s.selected], [SADD, k] + args, set x | x in args;
            && (k !in db ==> Does(env, now, s, argv, db[k := Entry(Set(more), None)], argv))
            && (k in db && db[k].value.Set? ==>
                  Does(env, now, s, argv, db[k := Entry(Set(db[k].value.members + more), db[k].expire)], argv))
            && (k in db && !db[k].value.Set? ==> Does(env, now, s, argv, db, argv))
  {
    BuilderNames(env);
    hide Lookup, Text;
    BuildMeans(env, now, s, SADD, SAdd, k, args);
  }

  /** ZADD k score member and HMSET k field value; more pairs are added one after the other. */
  lemma PairMeans(env: Env, now: nat, s: Session, k: Bytes, a: Bytes, b: Bytes)
    requires Selects(s)
    ensures var db, argv := s.dbs[s.selected], [ZADD, k] + [a, b];
            && (k !in db ==> Does(env, now, s, argv, db[k := Entry(ZSet(map[b := a]), None)], argv))
            && (k in db && db[k].value.ZSet? ==>
                  Does(env, now, s, argv, db[k := Entry(ZSet(db[k].value.scores[b := a]), db[k].expire)], argv))
            && (k in db && !db[k].value.ZSet? ==> Does(env, now, s, argv, db, argv))
    ensures var db, argv := s.dbs[s.selected], [HMSET, k] + [a, b];
            && (k !in db ==> Does(env, now, s, argv, db[k := Entry(Hash(map[a := b]), None)], argv))
            && (k in db && db[k].value.Hash? ==>
                  Does(env, now, s, argv, db[k := Entry(Hash(db[k].value.fields[a := b]), db[k].expire)], argv))
            && (k in db && !db[k].value.Hash? ==> Does(env, now, s, argv, db, argv))
  {
    BuilderNames(env);
    hide Lookup, Text;
    hide AddPairs, Perform, Revalued;
    RevaluedIs(s.dbs[s.selected], k);
    BuildMeans(env, now, s, ZADD, ZAdd, k, [a, b]);
    BuildMeans(env, now, s, HMSET, HMSet, k, [a, b]);
    OnePair(a, b);
  }

  lemma RevaluedIs(db: Db, k: Bytes)
    ensures forall v :: Revalued(db, k, v) == db[k := Entry(v, if k in db then db[k].expire else None)]
  {
  }

  lemma OnePair(a: Bytes, b: Bytes)
    ensures forall m: map<Bytes, Bytes> :: AddPairs(m, [a, b], true) == m[b := a] && AddPairs(m, [a, b], false) == m[a := b]
    ensures map[][b := a] == map[b := a] && map[][a := b] == map[a := b]
  {
    forall m: map<Bytes, Bytes>
      ensures AddPairs(m, [a, b], true) == m[b := a] && AddPairs(m, [a, b], false) == m[a := b]
    {
      assert [a, b] + [] == [a, b];
      MorePairs(m, a, b, [], true);
      MorePairs(m, a, b, [], false);
    }
  }

  lemma MorePairs(m: map<Bytes, Bytes>, a: Bytes, b: Bytes, more: Argv, scoreFirst: bool)
    ensures AddPairs(m, [a, b] + more, scoreFirst) == AddPairs(if scoreFirst then m[b := a] else m[a := b], more, scoreFirst)
  {
    assert ([a, b] + more)[2..] == more;
  }

  lemma BuildMeans(env: Env, now: nat, s: Session, name: Bytes, cmd: Command, k: Bytes, args: Argv)
    requires Selects(s) && args != [] && Lookup(env, name) == cmd && cmd in {RPush, SAdd, ZAdd, HMSet}
    ensures var db, argv := s.dbs[s.selected], [name, k] + args;
            var v := Extend(cmd, if k in db then Some(db[k].value) else None, args);
            Does(env, now, s, argv, if v.Some? then Revalued(db, k, v.value) else db, argv)
  {
    hide Lookup, Extend;
    var argv := [name, k] + args;
    assert argv[2..] == args;
  }
}
