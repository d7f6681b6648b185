/**
 What a client command does at the time it runs, and how feedAppendOnlyFile
 (aof.c) writes it down so that replaying the log at any other time does the same.
 */
module AofFeed {
  import opened Basics
  import opened ByteStrings
  import opened AofLog
  import opened Dataset

  // ---------------------------------------------------------------- the options of SET

  function CString(a: Bytes): Bytes
  {
    if a == [] || a[0] == 0 then [] else [a[0]] + CString(a[1..])
  }

  predicate Spells(a: Bytes, word: Bytes) { Lower(CString(a)) == word }

  const NX: Bytes := [110, 120]
  const XX: Bytes := [120, 120]
  const EX: Bytes := [101, 120]
  const PX: Bytes := [112, 120]

  datatype SetOptions = SetOptions(nx: bool, xx: bool, ex: bool, px: bool, ttl: Option<Bytes>)

  const NoOptions := SetOptions(false, false, false, false, None)

  /** The option loop of setCommand; None is a syntax error. */
  function ParseSet(argv: Argv, j: nat, o: SetOptions): Option<SetOptions>
    decreases |argv| - j
  {
    if j >= |argv| then Some(o)
    else if Spells(argv[j], NX) && !o.xx then ParseSet(argv, j + 1, o.(nx := true))
    else if Spells(argv[j], XX) && !o.nx then ParseSet(argv, j + 1, o.(xx := true))
    else if Spells(argv[j], EX) && !o.px && j + 1 < |argv| then
      ParseSet(argv, j + 2, o.(ex := true, ttl := Some(argv[j + 1])))
    else if Spells(argv[j], PX) && !o.ex && j + 1 < |argv| then
      ParseSet(argv, j + 2, o.(px := true, ttl := Some(argv[j + 1])))
    else None
  }

  /** The option loop of feedAppendOnlyFile: the argument after the last one that spells unit. */
  function ScanUnit(argv: Argv, i: nat, unit: Bytes, found: Option<Bytes>): Option<Bytes>
    decreases |argv| - i
  {
    if i >= |argv| then found
    else ScanUnit(argv, i + 1, unit, if Spells(argv[i], unit) && i + 1 < |argv| then Some(argv[i + 1]) else found)
  }

  /** Does a time to live that setCommand skips over spell the other unit? */
  predicate MixedUnits(argv: Argv, j: nat, o: SetOptions)
    decreases |argv| - j
  {
    if j >= |argv| then false
    else if Spells(argv[j], NX) && !o.xx then MixedUnits(argv, j + 1, o.(nx := true))
    else if Spells(argv[j], XX) && !o.nx then MixedUnits(argv, j + 1, o.(xx := true))
    else if Spells(argv[j], EX) && !o.px && j + 1 < |argv| then
      Spells(argv[j + 1], PX) || MixedUnits(argv, j + 2, o.(ex := true, ttl := Some(argv[j + 1])))
    else if Spells(argv[j], PX) && !o.ex && j + 1 < |argv| then
      Spells(argv[j + 1], EX) || MixedUnits(argv, j + 2, o.(px := true, ttl := Some(argv[j + 1])))
    else false
  }

  function UnitOf(o: SetOptions): Bytes { if o.px then PX else EX }

  function OtherUnitOf(o: SetOptions): Bytes { if o.px then EX else PX }

  /** The scan for the unit in use finds the time to live that setCommand parsed. */
  lemma {:induction false} ScanFindsTtl(argv: Argv, j: nat, o: SetOptions, found: Option<Bytes>)
    requires !(o.ex && o.px) && (o.ttl.Some? <==> o.ex || o.px)
    requires ParseSet(argv, j, o).Some?
    requires var r := ParseSet(argv, j, o).value;
             r.ttl.Some? && !Spells(r.ttl.value, EX) && !Spells(r.ttl.value, PX)
    ensures var r := ParseSet(argv, j, o).value;
            !(r.ex && r.px) && (o.ttl.Some? ==> UnitOf(r) == UnitOf(o))
            && (found == o.ttl ==> ScanUnit(argv, j, UnitOf(r), found) == r.ttl)
            && (ScanUnit(argv, j, UnitOf(r), found) == r.ttl || (ScanUnit(argv, j, UnitOf(r), found) == found && r.ttl == o.ttl))
    decreases |argv| - j
  {
    hide Spells;
    if j < |argv| {
      DistinctWords(argv[j]);
      if Spells(argv[j], NX) && !o.xx {
        ScanFindsTtl(argv, j + 1, o.(nx := true), found);
      } else if Spells(argv[j], XX) && !o.nx {
        ScanFindsTtl(argv, j + 1, o.(xx := true), found);
      } else {
        var t := argv[j + 1];
        var o' := if Spells(argv[j], EX) then o.(ex := true, ttl := Some(t)) else o.(px := true, ttl := Some(t));
        var found' := if Spells(t, UnitOf(o')) && j + 2 < |argv| then Some(argv[j + 2]) else Some(t);
        ScanFindsTtl(argv, j + 2, o', found');
        assert ScanUnit(argv, j, UnitOf(o'), found) == ScanUnit(argv, j + 1, UnitOf(o'), Some(t));
      }
    }
  }

  lemma DistinctWords(a: Bytes)
    ensures Spells(a, NX) ==> !Spells(a, EX) && !Spells(a, PX)
    ensures Spells(a, XX) ==> !Spells(a, EX) && !Spells(a, PX)
    ensures Spells(a, EX) ==> !Spells(a, PX)
  {
  }

  /** The scan for the other unit finds something exactly when a skipped time to live spells it. */
  lemma {:induction false} ScanFindsOther(argv: Argv, j: nat, o: SetOptions)
    requires !(o.ex && o.px) && (o.ttl.Some? <==> o.ex || o.px)
    requires ParseSet(argv, j, o).Some?
    requires var r := ParseSet(argv, j, o).value;
             r.ttl.Some? && !Spells(r.ttl.value, EX) && !Spells(r.ttl.value, PX)
    ensures var r := ParseSet(argv, j, o).value;
            (o.ttl.Some? ==> UnitOf(r) == UnitOf(o)) &&
            (ScanUnit(argv, j, OtherUnitOf(r), None).Some? <==> MixedUnits(argv, j, o))
    decreases |argv| - j
  {
    hide Spells;
    if j < |argv| {
      DistinctWords(argv[j]);
      if Spells(argv[j], NX) && !o.xx {
        ScanFindsOther(argv, j + 1, o.(nx := true));
      } else if Spells(argv[j], XX) && !o.nx {
        ScanFindsOther(argv, j + 1, o.(xx := true));
      } else {
        var t := argv[j + 1];
        var o' := if Spells(argv[j], EX) then o.(ex := true, ttl := Some(t)) else o.(px := true, ttl := Some(t));
        ScanFindsOther(argv, j + 2, o');
        var unit := OtherUnitOf(o');
        assert ScanUnit(argv, j, unit, None) == ScanUnit(argv, j + 1, unit, None);
        if Spells(t, unit) && j + 2 < |argv| {
          ScanKeeps(argv, j + 2, unit, Some(argv[j + 2]));
        }
      }
    }
  }

  lemma {:induction false} ScanKeeps(argv: Argv, i: nat, unit: Bytes, found: Option<Bytes>)
    requires found.Some?
    ensures ScanUnit(argv, i, unit, found).Some?
    decreases |argv| - i
  {
    hide Spells;
    if i < |argv| {
      ScanKeeps(argv, i + 1, unit, if Spells(argv[i], unit) && i + 1 < |argv| then Some(argv[i + 1]) else found);
    }
  }

  // ---------------------------------------------------------------- a command at time now

  /** The absolute expire time of a command, in milliseconds. */
  function Deadline(cmd: Command, now: nat, text: Bytes): int
  {
    Strtol(text) * (if cmd == Expire || cmd == SetEx || cmd == ExpireAt then 1000 else 1)
    + (if cmd == Expire || cmd == PExpire || cmd == SetEx || cmd == PSetEx then now else 0)
  }

  /** A positive integer, as string2ll accepts it. */
  predicate PositiveText(t: Bytes) { Strtol(t) > 0 && t == Digits(Strtol(t)) }

  /** What a propagated command leaves: the databases, and the argument vector to log. */
  datatype Performed = Performed(db: Db, logged: Argv)

  /** The EXPIRE family on a master: a time in the past deletes the key, and is logged as DEL. */
  function PerformExpire(cmd: Command, now: nat, db: Db, argv: Argv): Option<Performed>
  {
    if |argv| != 3 || argv[1] !in db then None
    else
      var when := Deadline(cmd, now, argv[2]);
      if when <= now then Some(Performed(db - {argv[1]}, [DEL, argv[1]]))
      else if when > LONG_MAX then None
      else Some(Performed(db[argv[1] := Entry(db[argv[1]].value, Some(when))], argv))
  }

  function PerformSetEx(cmd: Command, now: nat, db: Db, argv: Argv): Option<Performed>
  {
    if |argv| != 4 || Strtol(argv[2]) <= 0 || Deadline(cmd, now, argv[2]) > LONG_MAX then None
    else Some(Performed(db[argv[1] := Entry(Str(argv[3]), Some(Deadline(cmd, now, argv[2])))], argv))
  }

  function TtlCommand(o: SetOptions): Command { if o.px then PExpire else Expire }

  function PerformSet(now: nat, db: Db, argv: Argv): Option<Performed>
  {
    if |argv| < 3 then None
    else match ParseSet(argv, 3, NoOptions)
      case None => None
      case Some(o) =>
        if (o.nx && argv[1] in db) || (o.xx && argv[1] !in db) then None
        else if o.ttl.None? then Some(Performed(db[argv[1] := Entry(Str(argv[2]), None)], argv))
        else if !PositiveText(o.ttl.value) || Deadline(TtlCommand(o), now, o.ttl.value) > LONG_MAX then None
        else Some(Performed(db[argv[1] := Entry(Str(argv[2]), Some(Deadline(TtlCommand(o), now, o.ttl.value)))], argv))
  }

  /**
   A client command at time now on the selected database.  None when nothing is
   propagated: an error, a condition not met, or an expire time beyond a long long.
   */
  function Perform(env: Env, now: nat, s: Session, argv: Argv): Option<(Session, Argv)>
    requires |argv| >= 1 && s.selected < |s.dbs|
  {
    var cmd := Lookup(env, argv[0]);
    if cmd == Select || cmd == Multi || cmd == Exec || cmd == Unknown then None
    else if cmd == Other || cmd == Del || cmd == RPush || cmd == SAdd || cmd == ZAdd || cmd == HMSet then
      Some((Replay(env, s, argv), argv))
    else
      var db := s.dbs[s.selected];
      var p := if cmd == SetKey then PerformSet(now, db, argv)
               else if cmd == SetEx || cmd == PSetEx then PerformSetEx(cmd, now, db, argv)
               else PerformExpire(cmd, now, db, argv);
      match p
      case None => None
      case Some(r) => Some((s.(dbs := s.dbs[s.selected := r.db]), r.logged))
  }

  // ---------------------------------------------------------------- the translation

  /** catAppendOnlyExpireAtCommand */
  function ExpireAtCommand(cmd: Command, now: nat, key: Bytes, text: Bytes): (argv: Argv)
    ensures |argv| == 3
  {
    var when := Deadline(cmd, now, text);
    [PEXPIREAT, key, if when >= 0 then Digits(when) else [45] + Digits(-when)]
  }

  /** The commands feedAppendOnlyFile writes for one argument vector. */
  function Translate(env: Env, now: nat, argv: Argv): (cmds: seq<Argv>)
    requires |argv| >= 1
    ensures forall i :: 0 <= i < |cmds| ==> |cmds[i]| >= 1
  {
    var cmd := Lookup(env, argv[0]);
    if (cmd == Expire || cmd == PExpire || cmd == ExpireAt) && |argv| == 3 then
      [ExpireAtCommand(cmd, now, argv[1], argv[2])]
    else if (cmd == SetEx || cmd == PSetEx) && |argv| == 4 then
      [[SET, argv[1], argv[3]], ExpireAtCommand(cmd, now, argv[1], argv[2])]
    else if cmd == SetKey && |argv| > 3 then
      var ex, px := ScanUnit(argv, 3, EX, None), ScanUnit(argv, 3, PX, None);
      [argv[..3]]
      + (if ex.Some? then [ExpireAtCommand(Expire, now, argv[1], ex.value)] else [])
      + (if px.Some? then [ExpireAtCommand(PExpire, now, argv[1], px.value)] else [])
    else [argv]
  }

  /** The server asserts, for SET, that not both units were found. */
  predicate FeedAssertion(env: Env, argv: Argv)
    requires |argv| >= 1
  {
    Lookup(env, argv[0]) == SetKey && |argv| > 3 ==>
      !(ScanUnit(argv, 3, EX, None).Some? && ScanUnit(argv, 3, PX, None).Some?)
  }

  lemma LookupControl(env: Env)
    ensures Lookup(env, SELECT) == Select && Lookup(env, MULTI) == Multi && Lookup(env, EXEC) == Exec
  {
    assert Lower(SELECT) == [115, 101, 108, 101, 99, 116];
    assert Lower(MULTI) == [109, 117, 108, 116, 105];
    assert Lower(EXEC) == [101, 120, 101, 99];
  }

  lemma LookupKeyCommands(env: Env)
    ensures Lookup(env, DEL) == Del && Lookup(env, SET) == SetKey && Lookup(env, PEXPIREAT) == PExpireAt
  {
    assert Lower(DEL) == [100, 101, 108];
    assert Lower(SET) == [115, 101, 116];
    assert Lower(PEXPIREAT) == [112, 101, 120, 112, 105, 114, 101, 97, 116];
  }

  lemma ReplayTwo(env: Env, s: Session, a: Argv, b: Argv)
    requires |a| >= 1 && |b| >= 1
    ensures ReplayAll(env, s, [a, b]) == Replay(env, Replay(env, s, a), b)
    ensures ReplayAll(env, s, [a]) == Replay(env, s, a)
  {
    hide Replay;
    assert [a, b][1..] == [b] && [b][1..] == [] && [a][1..] == [];
    assert ReplayAll(env, Replay(env, s, a), [b]) == ReplayAll(env, Replay(env, Replay(env, s, a), b), []);
  }

  ghost predicate Selects(s: Session) { s.selected < |s.dbs| }

  function WithDb(s: Session, db: Db): Session
    requires s.selected < |s.dbs|
  {
    s.(dbs := s.dbs[s.selected := db])
  }

  lemma ReplayExpireAt(env: Env, s: Session, cmd: Command, now: nat, key: Bytes, text: Bytes)
    requires Selects(s) && key in s.dbs[s.selected] && 0 <= Deadline(cmd, now, text) <= LONG_MAX
    ensures Replay(env, s, ExpireAtCommand(cmd, now, key, text))
         == WithDb(s, s.dbs[s.selected][key := Entry(s.dbs[s.selected][key].value, Some(Deadline(cmd, now, text)))])
  {
    LookupKeyCommands(env);
    var when := Deadline(cmd, now, text);
    assert Strtol(Digits(when)) == when by {
      StrtolOfDigits(when, []);
      assert Digits(when) + [] == Digits(when);
    }
    hide Lookup, Deadline, Strtol, Replay;
    ReplayPExpireAt(env, s, ExpireAtCommand(cmd, now, key, text));
  }

  lemma ReplaySet(env: Env, s: Session, argv: Argv)
    requires Selects(s) && |argv| == 3 && Lookup(env, argv[0]) == SetKey
    ensures Replay(env, s, argv) == WithDb(s, s.dbs[s.selected][argv[1] := Entry(Str(argv[2]), None)])
  {
    hide Lookup;
  }

  /** SET and an expire time leave the value with that expire time. */
  lemma ReplaySetAndExpire(env: Env, s: Session, argv: Argv, cmd: Command, now: nat, text: Bytes)
    requires Selects(s) && |argv| == 3 && Lookup(env, argv[0]) == SetKey
    requires 0 <= Deadline(cmd, now, text) <= LONG_MAX
    ensures ReplayAll(env, s, [argv, ExpireAtCommand(cmd, now, argv[1], text)])
         == WithDb(s, s.dbs[s.selected][argv[1] := Entry(Str(argv[2]), Some(Deadline(cmd, now, text)))])
  {
    var key, db := argv[1], s.dbs[s.selected];
    var s' := WithDb(s, db[key := Entry(Str(argv[2]), None)]);
    ReplaySet(env, s, argv);
    ReplayExpireAt(env, s', cmd, now, key, text);
    ReplayTwo(env, s, argv, ExpireAtCommand(cmd, now, key, text));
    hide Replay, ReplayAll, ExpireAtCommand;
    var e := Entry(Str(argv[2]), Some(Deadline(cmd, now, text)));
    assert s'.dbs[s.selected][key := e] == db[key := e];
  }

  lemma TranslateExpireCorrect(env: Env, now: nat, s: Session, argv: Argv)
    requires Selects(s) && |argv| >= 1
    requires Lookup(env, argv[0]) in {Expire, PExpire, ExpireAt, PExpireAt}
    requires PerformExpire(Lookup(env, argv[0]), now, s.dbs[s.selected], argv).Some?
    ensures var r := PerformExpire(Lookup(env, argv[0]), now, s.dbs[s.selected], argv).value;
            && |r.logged| >= 1
            && ReplayAll(env, s, Translate(env, now, r.logged)) == WithDb(s, r.db)
  {
    hide Lookup, Strtol, Replay, ReplayAll, ExpireAtCommand, Deadline;
    var cmd, db := Lookup(env, argv[0]), s.dbs[s.selected];
    var r := PerformExpire(cmd, now, db, argv).value;
    if Deadline(cmd, now, argv[2]) <= now {
      LookupKeyCommands(env);
      ReplayDel(env, s, argv[1]);
      LoggedAsOne(env, now, s, r.logged, r.logged);
    } else if cmd == PExpireAt {
      AbsoluteDeadline(now, argv[2]);
      ReplayPExpireAt(env, s, argv);
      LoggedAsOne(env, now, s, argv, argv);
    } else {
      ReplayExpireAt(env, s, cmd, now, argv[1], argv[2]);
      LoggedAsOne(env, now, s, argv, ExpireAtCommand(cmd, now, argv[1], argv[2]));
    }
  }

  lemma AbsoluteDeadline(now: nat, text: Bytes)
    ensures Deadline(PExpireAt, now, text) == Strtol(text)
  {
    hide Strtol;
  }

  lemma LoggedAsOne(env: Env, now: nat, s: Session, logged: Argv, c: Argv)
    requires |logged| >= 1 && |c| >= 1 && Translate(env, now, logged) == [c]
    ensures ReplayAll(env, s, Translate(env, now, logged)) == Replay(env, s, c)
  {
    ReplayTwo(env, s, c, c);
  }

  lemma ReplayDel(env: Env, s: Session, key: Bytes)
    requires Selects(s)
    ensures Replay(env, s, [DEL, key]) == WithDb(s, s.dbs[s.selected] - {key})
  {
    LookupKeyCommands(env);
    hide Lookup;
    assert [DEL, key][1..] == [key];
    assert Elements([key]) == {key};
  }

  lemma ReplayPExpireAt(env: Env, s: Session, argv: Argv)
    requires Selects(s) && |argv| == 3 && Lookup(env, argv[0]) == PExpireAt && argv[1] in s.dbs[s.selected]
    ensures Replay(env, s, argv)
         == WithDb(s, s.dbs[s.selected][argv[1] := Entry(s.dbs[s.selected][argv[1]].value, Some(Strtol(argv[2])))])
  {
    hide Lookup, Strtol;
  }

  lemma TranslateSetExCorrect(env: Env, now: nat, s: Session, argv: Argv)
    requires Selects(s) && |argv| >= 1
    requires Lookup(env, argv[0]) in {SetEx, PSetEx}
    requires PerformSetEx(Lookup(env, argv[0]), now, s.dbs[s.selected], argv).Some?
    ensures var r := PerformSetEx(Lookup(env, argv[0]), now, s.dbs[s.selected], argv).value;
            && |r.logged| >= 1
            && ReplayAll(env, s, Translate(env, now, r.logged)) == WithDb(s, r.db)
  {
    LookupKeyCommands(env);
    hide Lookup, Strtol, ReplayAll;
    ReplaySetAndExpire(env, s, [SET, argv[1], argv[3]], Lookup(env, argv[0]), now, argv[2]);
  }

  lemma DigitsSpellNoUnit(t: Bytes)
    requires PositiveText(t)
    ensures !Spells(t, EX) && !Spells(t, PX)
  {
    assert IsDigit(t[0]);
    assert CString(t) == [t[0]] + CString(t[1..]);
    assert Lower(CString(t))[0] == t[0];
  }

  /** A SET without options has no time to live; NX and XX are not logged. */
  lemma {:induction false} ScanFindsNothing(argv: Argv, j: nat, o: SetOptions, unit: Bytes)
    requires unit == EX || unit == PX
    requires ParseSet(argv, j, o).Some? && ParseSet(argv, j, o).value.ttl.None?
    ensures ScanUnit(argv, j, unit, None) == None
    decreases |argv| - j
  {
    hide Spells;
    if j < |argv| {
      DistinctWords(argv[j]);
      if Spells(argv[j], NX) && !o.xx {
        ScanFindsNothing(argv, j + 1, o.(nx := true), unit);
      } else if Spells(argv[j], XX) && !o.nx {
        ScanFindsNothing(argv, j + 1, o.(xx := true), unit);
      } else {
        var t := Some(argv[j + 1]);
        TtlStays(argv, j + 2, if Spells(argv[j], EX) then o.(ex := true, ttl := t) else o.(px := true, ttl := t));
      }
    }
  }

  lemma {:induction false} TtlStays(argv: Argv, j: nat, o: SetOptions)
    requires o.ttl.Some? && ParseSet(argv, j, o).Some?
    ensures ParseSet(argv, j, o).value.ttl.Some?
    decreases |argv| - j
  {
    hide Spells;
    if j < |argv| {
      if Spells(argv[j], NX) && !o.xx {
        TtlStays(argv, j + 1, o.(nx := true));
      } else if Spells(argv[j], XX) && !o.nx {
        TtlStays(argv, j + 1, o.(xx := true));
      } else {
        var t := Some(argv[j + 1]);
        TtlStays(argv, j + 2, if Spells(argv[j], EX) && !o.px then o.(ex := true, ttl := t) else o.(px := true, ttl := t));
      }
    }
  }

  /** The last argument of a SET is an option without value or the time to live, so it spells neither unit. */
  lemma {:induction false} LastOption(argv: Argv, j: nat, o: SetOptions)
    requires j < |argv| && ParseSet(argv, j, o).Some?
    requires var r := ParseSet(argv, j, o).value;
             r.ttl.Some? ==> !Spells(r.ttl.value, EX) && !Spells(r.ttl.value, PX)
    ensures !Spells(argv[|argv| - 1], EX) && !Spells(argv[|argv| - 1], PX)
    decreases |argv| - j
  {
    hide Spells;
    DistinctWords(argv[j]);
    if Spells(argv[j], NX) && !o.xx {
      if j + 1 < |argv| { LastOption(argv, j + 1, o.(nx := true)); }
    } else if Spells(argv[j], XX) && !o.nx {
      if j + 1 < |argv| { LastOption(argv, j + 1, o.(xx := true)); }
    } else {
      var t := Some(argv[j + 1]);
      var o' := if Spells(argv[j], EX) && !o.px then o.(ex := true, ttl := t) else o.(px := true, ttl := t);
      if j + 2 < |argv| { LastOption(argv, j + 2, o'); }
    }
  }

  /**
   The option loop of feedAppendOnlyFile takes the argument after one that spells
   a unit without looking whether there is one. For a SET that was performed
   there always is.
   */
  lemma ScanStaysInside(now: nat, db: Db, argv: Argv, i: nat)
    requires PerformSet(now, db, argv).Some? && 3 <= i < |argv| && (Spells(argv[i], EX) || Spells(argv[i], PX))
    ensures i + 1 < |argv|
  {
    var o := ParseSet(argv, 3, NoOptions).value;
    if o.ttl.Some? { DigitsSpellNoUnit(o.ttl.value); }
    hide Spells, PositiveText, ParseSet;
    LastOption(argv, 3, NoOptions);
  }

  /** What the scans find for a SET that was performed. */
  lemma ScansOfSet(now: nat, db: Db, argv: Argv)
    requires PerformSet(now, db, argv).Some?
    ensures var o := ParseSet(argv, 3, NoOptions).value;
            var own, other := ScanUnit(argv, 3, UnitOf(o), None), ScanUnit(argv, 3, OtherUnitOf(o), None);
            && own == o.ttl
            && (other.Some? <==> MixedUnits(argv, 3, NoOptions))
            && (o.ttl.None? ==> other.None?)
            && (o.ttl.Some? ==> |argv| > 3 && Deadline(TtlCommand(o), now, o.ttl.value) >= 0)
  {
    var o := ParseSet(argv, 3, NoOptions).value;
    if o.ttl.None? {
      ScanFindsNothing(argv, 3, NoOptions, EX);
      ScanFindsNothing(argv, 3, NoOptions, PX);
      NoTtlNotMixed(argv, 3, NoOptions);
    } else {
      DigitsSpellNoUnit(o.ttl.value);
      hide Spells, PositiveText;
      ScanFindsTtl(argv, 3, NoOptions, None);
      ScanFindsOther(argv, 3, NoOptions);
    }
  }

  lemma {:induction false} NoTtlNotMixed(argv: Argv, j: nat, o: SetOptions)
    requires ParseSet(argv, j, o).Some? && ParseSet(argv, j, o).value.ttl.None?
    ensures !MixedUnits(argv, j, o)
    decreases |argv| - j
  {
    hide Spells;
    if j < |argv| {
      if Spells(argv[j], NX) && !o.xx {
        NoTtlNotMixed(argv, j + 1, o.(nx := true));
      } else if Spells(argv[j], XX) && !o.nx {
        NoTtlNotMixed(argv, j + 1, o.(xx := true));
      } else {
        var t := Some(argv[j + 1]);
        TtlStays(argv, j + 2, if Spells(argv[j], EX) && !o.px then o.(ex := true, ttl := t) else o.(px := true, ttl := t));
      }
    }
  }

  /**
   The server's assertion about SET holds for a performed command if and only
   if no time to live that setCommand skipped spells the other unit, as in
   SET k v EX px EX 10.
   */
  lemma FeedAssertionHolds(env: Env, now: nat, db: Db, argv: Argv)
    requires |argv| >= 1 && Lookup(env, argv[0]) == SetKey && PerformSet(now, db, argv).Some?
    ensures FeedAssertion(env, argv) <==> !MixedUnits(argv, 3, NoOptions)
  {
    ScansOfSet(now, db, argv);
    hide Lookup, ParseSet, Spells;
    if |argv| > 3 {
      var o := ParseSet(argv, 3, NoOptions).value;
      if o.ttl.None? { NoTtlNotMixed(argv, 3, NoOptions); }
    }
  }

  lemma TenSeconds()
    ensures PositiveText([49, 48]) && Strtol([49, 48]) == 10
  {
    assert Digits(10) == Digits(1) + [48];
    assert Digits(10) == [49, 48];
    hide Digits, Strtol;
    StrtolOfDigits(10, []);
    assert [49, 48] + [] == [49, 48];
  }

  lemma UnitWords()
    ensures Spells(EX, EX) && Spells(PX, PX) && !Spells(EX, NX) && !Spells(EX, XX)
  {
    assert CString(EX) == EX && CString(PX) == PX;
    assert Lower(EX) == EX && Lower(PX) == PX;
  }

  /** The failing input: SET k v EX px EX 10 is performed, and breaks the server's assertion. */
  lemma FeedAssertionBroken(env: Env, now: nat, db: Db, k: Bytes, v: Bytes)
    requires now + 10000 <= LONG_MAX
    ensures var argv := [SET, k, v, EX, PX, EX, [49, 48]];
            PerformSet(now, db, argv).Some? && !FeedAssertion(env, argv)
  {
    var argv := [SET, k, v, EX, PX, EX, [49, 48]];
    LookupKeyCommands(env);
    TenSeconds();
    UnitWords();
    hide Spells, Lookup, PositiveText, Strtol;
    assert ParseSet(argv, 3, NoOptions) == ParseSet(argv, 5, NoOptions.(ex := true, ttl := Some(PX)));
    assert ParseSet(argv, 5, NoOptions.(ex := true, ttl := Some(PX))) == ParseSet(argv, 7, NoOptions.(ex := true, ttl := Some([49, 48])));
    assert MixedUnits(argv, 3, NoOptions);
    FeedAssertionHolds(env, now, db, argv);
  }

  lemma TranslateSetCorrect(env: Env, now: nat, s: Session, argv: Argv)
    requires Selects(s) && |argv| >= 1 && Lookup(env, argv[0]) == SetKey
    requires PerformSet(now, s.dbs[s.selected], argv).Some? && FeedAssertion(env, argv)
    ensures var r := PerformSet(now, s.dbs[s.selected], argv).value;
            && |r.logged| >= 1
            && ReplayAll(env, s, Translate(env, now, r.logged)) == WithDb(s, r.db)
  {
    hide Lookup, ParseSet, ScanUnit, MixedUnits, Replay, ReplayAll, ExpireAtCommand, PositiveText;
    var set3 := argv[..3];
    var o := ParseSet(argv, 3, NoOptions).value;
    ScansOfSet(now, s.dbs[s.selected], argv);
    if o.ttl.None? {
      assert Translate(env, now, argv) == [set3] by { assert |argv| == 3 ==> argv == set3; }
      ReplaySet(env, s, set3);
      ReplayTwo(env, s, set3, set3);
    } else {
      var e := ExpireAtCommand(TtlCommand(o), now, argv[1], o.ttl.value);
      assert Translate(env, now, argv) == [set3, e];
      ReplaySetAndExpire(env, s, set3, TtlCommand(o), now, o.ttl.value);
    }
  }

  /**
   Replaying what was logged for a command, at any later time, leaves the
   databases as the command left them.
   */
  lemma TranslateCorrect(env: Env, now: nat, s: Session, argv: Argv)
    requires Selects(s) && |argv| >= 1 && Perform(env, now, s, argv).Some?
    requires Lookup(env, argv[0]) == SetKey ==> FeedAssertion(env, argv)
    ensures var (s', logged) := Perform(env, now, s, argv).value;
            && |logged| >= 1
            && ReplayAll(env, s, Translate(env, now, logged)) == s'
  {
    var cmd := Lookup(env, argv[0]);
    hide Lookup, Strtol, ReplayAll, PerformSet, PerformSetEx, PerformExpire, Replay;
    if cmd == SetKey {
      TranslateSetCorrect(env, now, s, argv);
    } else if cmd == SetEx || cmd == PSetEx {
      TranslateSetExCorrect(env, now, s, argv);
    } else if cmd == Expire || cmd == PExpire || cmd == ExpireAt || cmd == PExpireAt {
      TranslateExpireCorrect(env, now, s, argv);
    } else {
      ReplayTwo(env, s, argv, argv);
    }
  }
}
