/**
 The append-only log format: catAppendOnlyGenericCommand prints commands,
 loadAppendOnlyFile reads them back (aof.c).  The functions here are the
 specification; module AofLoader runs the source's loops against it.
 */
module AofLog {
  import opened ByteStrings

  type Argv = seq<Bytes>

  const STAR: Byte := 42
  const DOLLAR: Byte := 36

  // ---------------------------------------------------------------- printing

  function Bulk(a: Bytes): Bytes
  {
    [DOLLAR] + Digits(|a|) + CRLF + a + CRLF
  }

  function Bulks(args: Argv): Bytes
  {
    if args == [] then [] else Bulk(args[0]) + Bulks(args[1..])
  }

  function Header(argc: nat): Bytes
  {
    [STAR] + Digits(argc) + CRLF
  }

  function Print(argv: Argv): Bytes
  {
    Header(|argv|) + Bulks(argv)
  }

  function PrintAll(cmds: seq<Argv>): Bytes
  {
    if cmds == [] then [] else Print(cmds[0]) + PrintAll(cmds[1..])
  }

  /** The C types of argc (int) and of a string length (long) bound what can be printed. */
  predicate Printable(argv: Argv)
  {
    1 <= |argv| <= INT_MAX && forall i :: 0 <= i < |argv| ==> |argv[i]| <= LONG_MAX
  }

  predicate AllPrintable(cmds: seq<Argv>) { forall i :: 0 <= i < |cmds| ==> Printable(cmds[i]) }

  lemma DecimalText()
    ensures Digits(3) == Text("3") && Digits(12) == Text("12") && Digits(1230) == Text("1230")
  {
    assert Digits(12) == Digits(1) + [50];
    assert Digits(123) == Digits(12) + [51];
    assert Digits(1230) == Digits(123) + [48];
  }

  lemma TextLength(s: string)
    requires forall i :: 0 <= i < |s| ==> s[i] as int < 256
    ensures |Text(s)| == |s|
  {
  }

  lemma LengthText()
    ensures [DOLLAR] + Digits(3) + CRLF == Text("$3\r\n") && [DOLLAR] + Digits(12) + CRLF == Text("$12\r\n")
    ensures CRLF == Text("\r\n")
  {
    DecimalText();
    hide Digits;
  }

  lemma HeaderText()
    ensures Header(3) == Text("*3\r\n")
  {
    DecimalText();
    hide Digits;
  }

  lemma ThreeBulks(a: Bytes, b: Bytes, c: Bytes)
    ensures Print([a, b, c]) == Header(3) + Bulk(a) + Bulk(b) + Bulk(c)
  {
    hide Header, Bulk;
    var argv: Argv := [a, b, c];
    assert argv[1..] == [b, c] && argv[1..][1..] == [c] && |argv[1..][1..][1..]| == 0;
    assert Bulks([b, c]) == Bulk(b) + Bulks([c]) && Bulks([c]) == Bulk(c) + Bulks(argv[1..][1..][1..]);
  }

  /** One command, byte for byte. */
  lemma PrintedText(k: Bytes, v: Bytes)
    requires |k| == 3 && |v| == 12
    ensures Print([Text("SET"), k, v])
            == Text("*3\r\n") + Text("$3\r\n") + Text("SET") + Text("\r\n") +
               Text("$3\r\n") + k + Text("\r\n") + Text("$12\r\n") + v + Text("\r\n")
  {
    hide Digits, Text;
    LengthText();
    HeaderText();
    ThreeBulks(Text("SET"), k, v);
    assert |Text("SET")| == 3 by { TextLength("SET"); }
  }

  // ---------------------------------------------------------------- reading

  /** The size of the loader's line buffer, less the terminator. */
  const LINE_MAX := 127

  /** How many bytes fgets consumes: up to and including a line feed, at most max. */
  function LineLength(s: Bytes, max: nat): (n: nat)
    ensures n <= |s| && n <= max
    ensures s != [] && max > 0 ==> n > 0
  {
    if s == [] || max == 0 then 0
    else if s[0] == LF then 1
    else 1 + LineLength(s[1..], max - 1)
  }

  /**
   Got: a value was read and rest remains.  Short: the file ended inside the
   value (readerr with feof).  Unreadable: readerr without feof.  Malformed: fmterr.
   */
  datatype Read<+T> = Got(value: T, rest: Bytes) | Short | Unreadable | Malformed

  function BulkLength(line: Bytes): nat
    requires line != []
  {
    ToUnsignedLong(Strtol(line[1..]))
  }

  function ReadBulk(s: Bytes): (r: Read<Bytes>)
    ensures r.Got? ==> |r.rest| < |s|
  {
    if s == [] then Short
    else
      var n := LineLength(s, LINE_MAX);
      var rest := s[n..];
      if s[0] != DOLLAR then Malformed
      else
        var len := BulkLength(s[..n]);
        if len > |rest| || |rest| - len < 2 then Short
        else Got(rest[..len], rest[len + 2..])
  }

  function ReadBulks(s: Bytes, count: nat): (r: Read<Argv>)
    ensures r.Got? ==> |r.rest| <= |s| && |r.value| == count
    decreases count
  {
    if count == 0 then Got([], s)
    else match ReadBulk(s)
      case Got(a, rest) =>
        (match ReadBulks(rest, count - 1)
         case Got(args, rest') => Got([a] + args, rest')
         case Short => Short
         case Unreadable => Unreadable
         case Malformed => Malformed)
      case Short => Short
      case Unreadable => Unreadable
      case Malformed => Malformed
  }

  /** Did reading this line run into the end of the file? */
  predicate HitEof(line: Bytes)
    requires line != []
  {
    |line| < LINE_MAX && line[|line| - 1] != LF
  }

  function ReadCommand(s: Bytes): (r: Read<Argv>)
    requires s != []
    ensures r.Got? ==> |r.rest| < |s| && |r.value| >= 1
  {
    var n := LineLength(s, LINE_MAX);
    var line := s[..n];
    if s[0] != STAR then Malformed
    else if n == 1 || line[1] == 0 then (if HitEof(line) then Short else Unreadable)
    else
      var argc := Atoi(line[1..]);
      if argc < 1 then Malformed else ReadBulks(s[n..], argc)
  }

  // ---------------------------------------------------------------- print then read

  lemma {:induction false} LineLengthAt(t: Bytes, rest: Bytes, max: nat)
    requires LF !in t && |t| < max
    ensures LineLength(t + [LF] + rest, max) == |t| + 1
  {
    var s := t + [LF] + rest;
    if t != [] {
      assert s[0] == t[0] && t[0] in t;
      assert s[1..] == t[1..] + [LF] + rest;
      LineLengthAt(t[1..], rest, max - 1);
    }
  }

  lemma {:induction false} LineLengthToEnd(s: Bytes, max: nat)
    requires LF !in s && |s| <= max
    ensures LineLength(s, max) == |s|
  {
    if s != [] {
      assert s[0] in s;
      LineLengthToEnd(s[1..], max - 1);
    }
  }

  /** The header line of a count: where it ends and what it reads as. */
  lemma HeaderLine(mark: Byte, n: nat, rest: Bytes)
    requires mark != LF && n <= LONG_MAX
    ensures var s := [mark] + Digits(n) + CRLF + rest;
            var len := 3 + |Digits(n)|;
            && LineLength(s, LINE_MAX) == len
            && s[len..] == rest
            && s[0] == mark && s[1] != 0
            && Strtol(s[..len][1..]) == n
  {
    var line := [mark] + Digits(n) + [CR];
    DigitsOfLong(n);
    assert [mark] + Digits(n) + CRLF + rest == line + [LF] + rest;
    LineLengthAt(line, rest, LINE_MAX);
    assert (line + [LF] + rest)[..3 + |Digits(n)|][1..] == Digits(n) + CRLF;
    StrtolOfDigits(n, CRLF);
  }

  lemma ReadPrintedBulk(a: Bytes, rest: Bytes)
    requires |a| <= LONG_MAX
    ensures ReadBulk(Bulk(a) + rest) == Got(a, rest)
  {
    var tail := a + CRLF + rest;
    assert Bulk(a) + rest == [DOLLAR] + Digits(|a|) + CRLF + tail;
    HeaderLine(DOLLAR, |a|, tail);
    assert tail[..|a|] == a && tail[|a| + 2..] == rest;
  }

  lemma {:induction false} ReadPrintedBulks(args: Argv, rest: Bytes)
    requires forall i :: 0 <= i < |args| ==> |args[i]| <= LONG_MAX
    ensures ReadBulks(Bulks(args) + rest, |args|) == Got(args, rest)
  {
    hide ReadBulk, Bulk;
    if args == [] {
      assert Bulks(args) + rest == rest;
    } else {
      var s, tail := Bulks(args) + rest, Bulks(args[1..]) + rest;
      ReadPrintedBulks(args[1..], rest);
      assert ReadBulk(s) == Got(args[0], tail) by {
        ReadPrintedBulk(args[0], tail);
        ConcatAssoc(Bulk(args[0]), Bulks(args[1..]), rest);
      }
      ReadBulksStep(s, |args|, args[0], tail);
      assert [args[0]] + args[1..] == args;
    }
  }

  /** Arguments already read, in front of the outcome of reading the others. */
  function Prepend(args: Argv, r: Read<Argv>): Read<Argv>
  {
    match r case Got(more, rest) => Got(args + more, rest) case _ => r
  }

  lemma ReadBulksStep(s: Bytes, count: nat, a: Bytes, rest: Bytes)
    requires count > 0 && ReadBulk(s) == Got(a, rest)
    ensures ReadBulks(s, count) == Prepend([a], ReadBulks(rest, count - 1))
  {
  }

  /** A command read through its header line: what remains is to read argc arguments. */
  lemma ReadCommandByHeader(s: Bytes, n: nat)
    requires s != [] && LineLength(s, LINE_MAX) == n >= 2
    requires s[0] == STAR && s[1] != 0 && 1 <= Atoi(s[..n][1..])
    ensures ReadCommand(s) == ReadBulks(s[n..], Atoi(s[..n][1..]))
  {
  }

  lemma ReadAfterHeader(argc: nat, rest: Bytes)
    requires 1 <= argc <= INT_MAX
    ensures ReadCommand(Header(argc) + rest) == ReadBulks(rest, argc)
  {
    HeaderLine(STAR, argc, rest);
    var s, n := Header(argc) + rest, 3 + |Digits(argc)|;
    assert Atoi(s[..n][1..]) == argc;
    ReadCommandByHeader(s, n);
  }

  /** Reading a printed command yields that command, for arbitrary binary arguments, and consumes exactly it. */
  lemma ReadPrinted(argv: Argv, rest: Bytes)
    requires Printable(argv)
    ensures ReadCommand(Print(argv) + rest) == Got(argv, rest)
  {
    ConcatAssoc(Header(|argv|), Bulks(argv), rest);
    ReadAfterHeader(|argv|, Bulks(argv) + rest);
    ReadPrintedBulks(argv, rest);
  }

  // ---------------------------------------------------------------- a command cut short

  lemma ReadCutBulk(a: Bytes, m: nat)
    requires |a| <= LONG_MAX && m < |Bulk(a)|
    ensures ReadBulk(Bulk(a)[..m]) == Short
  {
    if m > 0 {
      var s := Bulk(a)[..m];
      var h := [DOLLAR] + Digits(|a|) + CRLF;
      if m <= |h| {
        CutHeaderLine(DOLLAR, |a|, m);
        assert s == h[..m];
      } else {
        var tail := (a + CRLF)[..m - |h|];
        assert s == h + tail;
        HeaderLine(DOLLAR, |a|, tail);
      }
    }
  }

  /** A header line cut anywhere is consumed whole. */
  lemma CutHeaderLine(mark: Byte, n: nat, m: nat)
    requires mark != LF && n <= LONG_MAX && 0 < m <= 3 + |Digits(n)|
    ensures var s := ([mark] + Digits(n) + CRLF)[..m];
            LineLength(s, LINE_MAX) == m
  {
    var s := ([mark] + Digits(n) + CRLF)[..m];
    DigitsOfLong(n);
    if m < 3 + |Digits(n)| {
      assert LF !in s;
      LineLengthToEnd(s, LINE_MAX);
    } else {
      HeaderLine(mark, n, []);
      assert s == [mark] + Digits(n) + CRLF + [];
    }
  }

  lemma {:induction false} ReadCutBulks(args: Argv, m: nat)
    requires forall i :: 0 <= i < |args| ==> |args[i]| <= LONG_MAX
    requires m < |Bulks(args)|
    ensures ReadBulks(Bulks(args)[..m], |args|) == Short
  {
    var b, s := Bulk(args[0]), Bulks(args)[..m];
    TakeConcat(b, Bulks(args[1..]), m);
    if m < |b| {
      assert ReadBulk(s) == Short by { ReadCutBulk(args[0], m); }
    } else {
      var tail := Bulks(args[1..])[..m - |b|];
      assert ReadBulk(s) == Got(args[0], tail) by { ReadPrintedBulk(args[0], tail); }
      ReadCutBulks(args[1..], m - |b|);
      ReadBulksStep(s, |args|, args[0], tail);
    }
  }

  lemma CountText(n: nat, k: nat, t: Bytes)
    requires 0 < n <= INT_MAX && 0 < k <= |Digits(n)|
    requires t == [] || !IsDigit(t[0])
    ensures Atoi(Digits(n)[..k] + t) >= 1
  {
    var u := Digits(n)[..k];
    assert 1 <= Strtol(u + t) <= n by {
      DigitRunAppend(u, t, 0);
      DigitRunOfPrefix(n, k);
      StrtolOfDigitRun(u + t);
    }
  }

  /** The count in a cut header is still a positive int. */
  lemma CutCount(n: nat, m: nat)
    requires 0 < n <= INT_MAX && 1 < m <= |Header(n)|
    ensures var s := Header(n)[..m];
            Atoi(s[1..]) >= 1 && s[1] != 0
  {
    var d := Digits(n);
    TakeConcat(d, CRLF, m - 1);
    assert Header(n)[..m][1..] == (d + CRLF)[..m - 1];
    if m - 1 <= |d| {
      CountText(n, m - 1, []);
      assert d[..m - 1] + [] == d[..m - 1];
    } else {
      CountText(n, |d|, CRLF[..m - 1 - |d|]);
      assert d[..|d|] == d;
    }
  }

  lemma ReadCutHeader(argv: Argv, m: nat)
    requires Printable(argv) && 0 < m <= |Header(|argv|)|
    ensures ReadCommand(Header(|argv|)[..m]) == Short
  {
    var s := Header(|argv|)[..m];
    CutHeaderLine(STAR, |argv|, m);
    if m > 1 {
      CutCount(|argv|, m);
      assert s[..m] == s && s[m..] == [];
      ReadCommandByHeader(s, m);
    }
  }

  lemma ReadCutBody(argv: Argv, m: nat)
    requires Printable(argv) && m < |Bulks(argv)|
    ensures ReadCommand(Header(|argv|) + Bulks(argv)[..m]) == Short
  {
    ReadAfterHeader(|argv|, Bulks(argv)[..m]);
    ReadCutBulks(argv, m);
  }

  /** A printed command cut anywhere inside reads as an unexpected end of file, never as a format error. */
  lemma ReadCut(argv: Argv, m: nat)
    requires Printable(argv) && 0 < m < |Print(argv)|
    ensures ReadCommand(Print(argv)[..m]) == Short
  {
    var h := Header(|argv|);
    TakeConcat(h, Bulks(argv), m);
    if m <= |h| {
      ReadCutHeader(argv, m);
    } else {
      ReadCutBody(argv, m - |h|);
    }
  }
}
