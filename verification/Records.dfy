/** The statistics block (`append_stats`, request.c) and the log as a sequence of such blocks. */
module Records {
  import opened Memory
  import opened Clock
  import opened Format

  /** Counters of one worker thread (`struct Threads_stats`). */
  datatype Stats = Stats(id: nat, statReq: nat, dynmReq: nat, postReq: nat, totalReq: nat)

  datatype Record = Record(arrival: Timeval, dispatch: Timeval, stats: Stats)
  {
    predicate Printable()
    {
      arrival.sec >= 0 && arrival.Normal() && dispatch.sec >= 0 && dispatch.Normal()
    }
  }

  const ARRIVAL: seq<Piece> := [Literal("Stat-Req-Arrival:: "), Number, Literal("."), Micros, Literal("\r\n")]
  const DISPATCH: seq<Piece> := [Literal("Stat-Req-Dispatch:: "), Number, Literal("."), Micros, Literal("\r\n")]
  const ID: seq<Piece> := [Literal("Stat-Thread-Id:: "), Number, Literal("\r\n")]
  const COUNT: seq<Piece> := [Literal("Stat-Thread-Count:: "), Number, Literal("\r\n")]
  const STATIC: seq<Piece> := [Literal("Stat-Thread-Static:: "), Number, Literal("\r\n")]
  const DYNAMIC: seq<Piece> := [Literal("Stat-Thread-Dynamic:: "), Number, Literal("\r\n")]
  const POST: seq<Piece> := [Literal("Stat-Thread-Post:: "), Number, Literal("\r\n\r\n")]

  const FORMATS: seq<seq<Piece>> := [ARRIVAL, DISPATCH, ID, COUNT, STATIC, DYNAMIC, POST]

  /** The arguments of the seven calls of sprintf, in order. */
  function Arguments(r: Record): (vss: seq<seq<nat>>)
    requires r.Printable()
    ensures |vss| == 7
  {
    [[r.arrival.sec, r.arrival.usec], [r.dispatch.sec, r.dispatch.usec], [r.stats.id], [r.stats.totalReq],
     [r.stats.statReq], [r.stats.dynmReq], [r.stats.postReq]]
  }

  /** The record with the given arguments. */
  function FromArguments(vss: seq<seq<nat>>): Option<Record>
  {
    if |vss| == 7 && |vss[0]| == |vss[1]| == 2 && (forall i | 2 <= i < 7 :: |vss[i]| == 1) then
      Some(Record(Timeval(vss[0][0], vss[0][1]), Timeval(vss[1][0], vss[1][1]),
                  Stats(vss[2][0], vss[4][0], vss[5][0], vss[6][0], vss[3][0])))
    else None
  }

  predicate IsTimeFormat(f: seq<Piece>)
  {
    |f| == 5 && f[0].Literal? && f[1].Number? && f[2].Literal? && f[3].Micros? && f[4].Literal?
  }

  predicate IsCountFormat(f: seq<Piece>)
  {
    |f| == 3 && f[0].Literal? && f[1].Number? && f[2].Literal?
  }

  /** A time format takes exactly seconds and microseconds, a count format exactly one number. */
  lemma TimeFits(f: seq<Piece>, vs: seq<nat>)
    requires IsTimeFormat(f)
    ensures Fits(f, vs) <==> |vs| == 2 && vs[1] < MILLION
  {
    var f1 := f[1..];
    var f2 := f1[1..];
    var f3 := f2[1..];
    var f4 := f3[1..];
    assert f4[1..] == [];
    assert Fits(f, vs) == Fits(f1, vs);
    if |vs| > 0 {
      var vs1 := vs[1..];
      assert Fits(f1, vs) == Fits(f2, vs1);
      assert Fits(f2, vs1) == Fits(f3, vs1);
      if |vs1| > 0 {
        assert Fits(f3, vs1) == (vs1[0] < MILLION && Fits(f4, vs1[1..]));
        assert Fits(f4, vs1[1..]) == Fits([], vs1[1..]);
      }
    }
  }

  lemma CountFits(f: seq<Piece>, vs: seq<nat>)
    requires IsCountFormat(f)
    ensures Fits(f, vs) <==> |vs| == 1
  {
    var f1 := f[1..];
    var f2 := f1[1..];
    assert f2[1..] == [];
    assert Fits(f, vs) == Fits(f1, vs);
    if |vs| > 0 {
      assert Fits(f1, vs) == Fits(f2, vs[1..]);
      assert Fits(f2, vs[1..]) == Fits([], vs[1..]);
    }
  }

  /** The sprintf calls with the given formats and arguments. */
  function Pair(fs: seq<seq<Piece>>, vss: seq<seq<nat>>): (c: seq<(seq<Piece>, seq<nat>)>)
    requires |fs| == |vss|
    ensures |c| == |fs| && forall i | 0 <= i < |c| :: c[i] == (fs[i], vss[i])
  {
    seq(|fs|, i requires 0 <= i < |fs| => (fs[i], vss[i]))
  }

  ghost predicate AllFit(c: seq<(seq<Piece>, seq<nat>)>)
  {
    forall i | 0 <= i < |c| :: Fits(c[i].0, c[i].1)
  }

  lemma ArgumentsFit(r: Record)
    requires r.Printable()
    ensures AllFit(Pair(FORMATS, Arguments(r)))
  {
    TimeFits(ARRIVAL, Arguments(r)[0]);
    TimeFits(DISPATCH, Arguments(r)[1]);
    CountFits(ID, Arguments(r)[2]);
    CountFits(COUNT, Arguments(r)[3]);
    CountFits(STATIC, Arguments(r)[4]);
    CountFits(DYNAMIC, Arguments(r)[5]);
    CountFits(POST, Arguments(r)[6]);
  }

  /** Arguments that fit the formats are the arguments of a record. */
  lemma FittingArguments(vss: seq<seq<nat>>)
    requires |vss| == 7 && AllFit(Pair(FORMATS, vss))
    ensures FromArguments(vss).Some?
    ensures FromArguments(vss).value.Printable() && Arguments(FromArguments(vss).value) == vss
  {
    var c := Pair(FORMATS, vss);
    assert forall i | 0 <= i < 7 :: Fits(c[i].0, c[i].1);
    TimeFits(ARRIVAL, vss[0]);
    TimeFits(DISPATCH, vss[1]);
    assert c[2] == (ID, vss[2]) && c[3] == (COUNT, vss[3]) && c[4] == (STATIC, vss[4]);
    assert c[5] == (DYNAMIC, vss[5]) && c[6] == (POST, vss[6]);
    CountFits(ID, vss[2]);
    CountFits(COUNT, vss[3]);
    CountFits(STATIC, vss[4]);
    CountFits(DYNAMIC, vss[5]);
    CountFits(POST, vss[6]);
    assert forall i | 2 <= i < 7 :: |vss[i]| == 1;
    var args := Arguments(FromArguments(vss).value);
    forall i | 0 <= i < 7 ensures args[i] == vss[i] {
    }
  }

  /** The text of the sprintf calls from number `i` on. */
  function PrintCalls(c: seq<(seq<Piece>, seq<nat>)>): string
    requires AllFit(c)
  {
    if c == [] then "" else Print(c[0].0, c[0].1) + PrintCalls(c[1..])
  }

  /** The statistics block of a record. */
  function Block(r: Record): string
    requires r.Printable()
  {
    ArgumentsFit(r);
    PrintCalls(Pair(FORMATS, Arguments(r)))
  }

  lemma TimeText(f: seq<Piece>, sec: nat, usec: nat)
    requires IsTimeFormat(f) && usec < MILLION
    ensures Fits(f, [sec, usec])
    ensures Print(f, [sec, usec]) == f[0].text + Decimal(sec) + f[2].text + Padded(usec, 6) + f[4].text
  {
    TimeFits(f, [sec, usec]);
    var f1 := f[1..];
    var f2 := f1[1..];
    var f3 := f2[1..];
    var f4 := f3[1..];
    assert f4[1..] == [] && [sec, usec][1..] == [usec] && [usec][1..] == [];
    assert Print(f4, []) == f4[0].text + "";
    assert Print(f3, [usec]) == Padded(usec, 6) + Print(f4, []);
    assert Print(f2, [usec]) == f2[0].text + Print(f3, [usec]);
    assert Print(f1, [sec, usec]) == Decimal(sec) + Print(f2, [usec]);
  }

  lemma CountText(f: seq<Piece>, n: nat)
    requires IsCountFormat(f)
    ensures Fits(f, [n]) && Print(f, [n]) == f[0].text + Decimal(n) + f[2].text
  {
    CountFits(f, [n]);
    var f1 := f[1..];
    var f2 := f1[1..];
    assert f2[1..] == [] && [n][1..] == [];
    assert Print(f2, []) == f2[0].text + "";
    assert Print(f1, [n]) == Decimal(n) + Print(f2, []);
  }

  function Line(name: string, n: nat): string
  {
    name + ":: " + Decimal(n) + "\r\n"
  }

  function TimeLine(name: string, t: Timeval): string
    requires t.sec >= 0 && t.Normal()
  {
    name + ":: " + Decimal(t.sec) + "." + Padded(t.usec, 6) + "\r\n"
  }

  lemma TimePrints(f: seq<Piece>, name: string, t: Timeval)
    requires IsTimeFormat(f) && f[0].text == name + ":: " && f[2].text == "." && f[4].text == "\r\n"
    requires t.sec >= 0 && t.Normal()
    ensures Fits(f, [t.sec, t.usec]) && Print(f, [t.sec, t.usec]) == TimeLine(name, t)
  {
    TimeText(f, t.sec, t.usec);
  }

  lemma CountPrints(f: seq<Piece>, name: string, n: nat)
    requires IsCountFormat(f) && f[0].text == name + ":: " && f[2].text == "\r\n"
    ensures Fits(f, [n]) && Print(f, [n]) == Line(name, n)
  {
    CountText(f, n);
  }

  lemma LastCountPrints(f: seq<Piece>, name: string, n: nat, end: string)
    requires IsCountFormat(f) && f[0].text == name + ":: " && f[2].text == "\r\n" + end
    ensures Fits(f, [n]) && Print(f, [n]) == Line(name, n) + end
  {
    CountText(f, n);
    Associate(name + ":: " + Decimal(n), "\r\n", end);
  }

  lemma PrintCallsAt(c: seq<(seq<Piece>, seq<nat>)>, i: nat, text: string)
    requires AllFit(c) && i < |c| && Fits(c[i].0, c[i].1) && Print(c[i].0, c[i].1) == text
    ensures AllFit(c[i..]) && AllFit(c[i + 1..])
    ensures PrintCalls(c[i..]) == text + PrintCalls(c[i + 1..])
  {
    assert c[i..][1..] == c[i + 1..];
  }

  /** The lines about times, then the counters, of a block spelled out. */
  function CounterLines(st: Stats): string
  {
    Line("Stat-Thread-Id", st.id) + (Line("Stat-Thread-Count", st.totalReq)
    + (Line("Stat-Thread-Static", st.statReq) + (Line("Stat-Thread-Dynamic", st.dynmReq)
    + (Line("Stat-Thread-Post", st.postReq) + "\r\n"))))
  }

  lemma CounterText(r: Record)
    requires r.Printable() && AllFit(Pair(FORMATS, Arguments(r)))
    ensures AllFit(Pair(FORMATS, Arguments(r))[2..])
    ensures PrintCalls(Pair(FORMATS, Arguments(r))[2..]) == CounterLines(r.stats)
  {
    var c, st := Pair(FORMATS, Arguments(r)), r.stats;
    CountPrints(ID, "Stat-Thread-Id", st.id);
    PrintCallsAt(c, 2, Line("Stat-Thread-Id", st.id));
    CountPrints(COUNT, "Stat-Thread-Count", st.totalReq);
    PrintCallsAt(c, 3, Line("Stat-Thread-Count", st.totalReq));
    KindText(r);
  }

  lemma KindText(r: Record)
    requires r.Printable() && AllFit(Pair(FORMATS, Arguments(r)))
    ensures AllFit(Pair(FORMATS, Arguments(r))[4..])
    ensures PrintCalls(Pair(FORMATS, Arguments(r))[4..]) ==
              Line("Stat-Thread-Static", r.stats.statReq) + (Line("Stat-Thread-Dynamic", r.stats.dynmReq)
              + (Line("Stat-Thread-Post", r.stats.postReq) + "\r\n"))
  {
    var c, st := Pair(FORMATS, Arguments(r)), r.stats;
    CountPrints(STATIC, "Stat-Thread-Static", st.statReq);
    PrintCallsAt(c, 4, Line("Stat-Thread-Static", st.statReq));
    CountPrints(DYNAMIC, "Stat-Thread-Dynamic", st.dynmReq);
    PrintCallsAt(c, 5, Line("Stat-Thread-Dynamic", st.dynmReq));
    LastCountPrints(POST, "Stat-Thread-Post", st.postReq, "\r\n");
    PrintCallsAt(c, 6, Line("Stat-Thread-Post", st.postReq) + "\r\n");
    assert c[7..] == [];
  }

  /** The block spelled out: seven labelled lines and an empty one. */
  lemma BlockText(r: Record)
    requires r.Printable()
    ensures Block(r) == TimeLine("Stat-Req-Arrival", r.arrival)
                        + (TimeLine("Stat-Req-Dispatch", r.dispatch) + CounterLines(r.stats))
  {
    ArgumentsFit(r);
    var c := Pair(FORMATS, Arguments(r));
    TimePrints(ARRIVAL, "Stat-Req-Arrival", r.arrival);
    PrintCallsAt(c, 0, TimeLine("Stat-Req-Arrival", r.arrival));
    TimePrints(DISPATCH, "Stat-Req-Dispatch", r.dispatch);
    PrintCallsAt(c, 1, TimeLine("Stat-Req-Dispatch", r.dispatch));
    CounterText(r);
    assert c[0..] == c;
  }

  /** Numbers of 64 bits: no counter and no time of the source is wider. */
  const LIMIT: nat := 0x1_0000_0000_0000_0000

  predicate Narrow(r: Record)
  {
    && r.arrival.sec < LIMIT && r.dispatch.sec < LIMIT
    && r.stats.id < LIMIT && r.stats.totalReq < LIMIT
    && r.stats.statReq < LIMIT && r.stats.dynmReq < LIMIT && r.stats.postReq < LIMIT
  }

  const WIDTH: nat := 20

  /** 64 bits are at most 20 digits. */
  lemma LimitHasTwentyDigits()
    ensures LIMIT <= Pow10(WIDTH)
  {
    assert Pow10(4) == 10000;
    assert Pow10(8) == 10000 * Pow10(4);
    assert Pow10(12) == 10000 * Pow10(8);
    assert Pow10(16) == 10000 * Pow10(12);
    assert Pow10(20) == 10000 * Pow10(16);
  }

  lemma LineIsShort(name: string, n: nat)
    requires n < LIMIT
    ensures |Line(name, n)| <= |name| + 5 + WIDTH
  {
    LimitHasTwentyDigits();
    DecimalIsShort(n, WIDTH);
  }

  lemma TimeLineIsShort(name: string, t: Timeval)
    requires t.sec >= 0 && t.Normal() && t.sec < LIMIT
    ensures |TimeLine(name, t)| <= |name| + 12 + WIDTH
  {
    LimitHasTwentyDigits();
    DecimalIsShort(t.sec, WIDTH);
  }

  /** A block fits a buffer of MAXLINE characters, with its NUL. */
  lemma BlockFits(r: Record)
    requires r.Printable() && Narrow(r)
    ensures |Block(r)| < MAXLINE
  {
    BlockText(r);
    TimeLineIsShort("Stat-Req-Arrival", r.arrival);
    TimeLineIsShort("Stat-Req-Dispatch", r.dispatch);
    LineIsShort("Stat-Thread-Id", r.stats.id);
    LineIsShort("Stat-Thread-Count", r.stats.totalReq);
    LineIsShort("Stat-Thread-Static", r.stats.statReq);
    LineIsShort("Stat-Thread-Dynamic", r.stats.dynmReq);
    LineIsShort("Stat-Thread-Post", r.stats.postReq);
  }

  // ---------------------------------------------------------------- reading a block back

  /** Scan a series of formats. */
  function ScanCalls(fs: seq<seq<Piece>>, s: string): Option<(seq<seq<nat>>, string)>
  {
    if fs == [] then Some(([], s))
    else match Scan(fs[0], s)
      case None => None
      case Some((vs, rest)) =>
        match ScanCalls(fs[1..], rest)
        case None => None
        case Some((vss, end)) => Some(([vs] + vss, end))
  }

  lemma {:induction false} ScanUndoesPrintCalls(fs: seq<seq<Piece>>, vss: seq<seq<nat>>, rest: string)
    requires |fs| == |vss| && AllFit(Pair(fs, vss)) && (forall f | f in fs :: Separated(f))
    ensures ScanCalls(fs, PrintCalls(Pair(fs, vss)) + rest) == Some((vss, rest))
  {
    if fs == [] {
      assert "" + rest == rest;
    } else {
      assert Pair(fs, vss)[1..] == Pair(fs[1..], vss[1..]);
      var tail := PrintCalls(Pair(fs[1..], vss[1..]));
      assert PrintCalls(Pair(fs, vss)) + rest == Print(fs[0], vss[0]) + (tail + rest);
      assert Fits(Pair(fs, vss)[0].0, Pair(fs, vss)[0].1);
      ScanUndoesPrint(fs[0], vss[0], tail + rest);
      ScanUndoesPrintCalls(fs[1..], vss[1..], rest);
      assert [vss[0]] + vss[1..] == vss;
    }
  }

  /** `s` is what the calls print, followed by `rest`. */
  ghost predicate PrintedCalls(fs: seq<seq<Piece>>, s: string, vss: seq<seq<nat>>, rest: string)
  {
    |fs| == |vss| && AllFit(Pair(fs, vss)) && s == PrintCalls(Pair(fs, vss)) + rest
  }

  lemma {:induction false} PrintUndoesScanCalls(fs: seq<seq<Piece>>, s: string)
    requires ScanCalls(fs, s).Some?
    ensures PrintedCalls(fs, s, ScanCalls(fs, s).value.0, ScanCalls(fs, s).value.1)
  {
    if fs == [] {
      assert s == "" + s;
    } else {
      var (vs, rest) := Scan(fs[0], s).value;
      PrintUndoesScan(fs[0], s);
      PrintUndoesScanCalls(fs[1..], rest);
      var (vss, end) := ScanCalls(fs[1..], rest).value;
      PrintedCallsFront(fs, s, vs, rest, vss, end);
    }
  }

  lemma PrintedCallsFront(fs: seq<seq<Piece>>, s: string, vs: seq<nat>, rest: string, vss: seq<seq<nat>>, end: string)
    requires fs != [] && Printed(fs[0], s, vs, rest) && PrintedCalls(fs[1..], rest, vss, end)
    ensures PrintedCalls(fs, s, [vs] + vss, end)
  {
    PairFront(fs, vs, vss);
    Associate(Print(fs[0], vs), PrintCalls(Pair(fs[1..], vss)), end);
  }

  lemma Associate(a: string, b: string, c: string)
    ensures a + (b + c) == (a + b) + c
  {
  }

  lemma PairFront(fs: seq<seq<Piece>>, vs: seq<nat>, vss: seq<seq<nat>>)
    requires |fs| == |vss| + 1 && Fits(fs[0], vs) && AllFit(Pair(fs[1..], vss))
    ensures AllFit(Pair(fs, [vs] + vss))
    ensures PrintCalls(Pair(fs, [vs] + vss)) == Print(fs[0], vs) + PrintCalls(Pair(fs[1..], vss))
  {
    var c := Pair(fs, [vs] + vss);
    assert c[1..] == Pair(fs[1..], vss);
    forall i | 0 <= i < |c| ensures Fits(c[i].0, c[i].1) {
      if i > 0 {
        assert c[i] == Pair(fs[1..], vss)[i - 1];
      }
    }
  }

  /** Read one block off the front of a string. */
  function ScanBlock(s: string): Option<(Record, string)>
  {
    match ScanCalls(FORMATS, s)
    case None => None
    case Some((vss, rest)) =>
      match FromArguments(vss)
      case None => None
      case Some(r) => Some((r, rest))
  }

  lemma TimeSeparated(f: seq<Piece>)
    requires IsTimeFormat(f)
    requires |f[0].text| > 0 && !IsDigit(f[0].text[0])
    requires |f[2].text| > 0 && !IsDigit(f[2].text[0])
    requires |f[4].text| > 0 && !IsDigit(f[4].text[0])
    ensures Separated(f)
  {
  }

  lemma FormatsAreSeparated()
    ensures forall f | f in FORMATS :: Separated(f)
  {
    TimeSeparated(ARRIVAL);
    TimeSeparated(DISPATCH);
  }

  lemma RecordOfArguments(r: Record)
    requires r.Printable()
    ensures FromArguments(Arguments(r)) == Some(r)
  {
  }

  /** A block followed by anything reads back as the record, with the rest left over. */
  lemma ScanUndoesBlock(r: Record, rest: string)
    requires r.Printable()
    ensures ScanBlock(Block(r) + rest) == Some((r, rest))
  {
    ArgumentsFit(r);
    FormatsAreSeparated();
    ScanUndoesPrintCalls(FORMATS, Arguments(r), rest);
    RecordOfArguments(r);
  }

  /** Nothing but a block reads as a block. */
  lemma BlockUndoesScan(s: string)
    requires ScanBlock(s).Some?
    ensures var (r, rest) := ScanBlock(s).value; r.Printable() && s == Block(r) + rest
  {
    PrintUndoesScanCalls(FORMATS, s);
    FittingArguments(ScanCalls(FORMATS, s).value.0);
  }

  lemma BlockIsLong(r: Record)
    requires r.Printable()
    ensures Block(r) != ""
  {
    ArgumentsFit(r);
    assert Block(r) == PrintCalls(Pair(FORMATS, Arguments(r)));
    assert Pair(FORMATS, Arguments(r))[0] == (ARRIVAL, Arguments(r)[0]);
    TimeFits(ARRIVAL, Arguments(r)[0]);
    TimeSeparated(ARRIVAL);
    TailStartsNonDigit(ARRIVAL, Arguments(r)[0]);
  }

  // ---------------------------------------------------------------- reading a log back

  ghost predicate AllPrintable(rs: seq<Record>)
  {
    forall r | r in rs :: r.Printable()
  }

  /** A log: blocks with nothing between them. */
  ghost function Blocks(rs: seq<Record>): string
    requires AllPrintable(rs)
  {
    if rs == [] then "" else Block(rs[0]) + Blocks(rs[1..])
  }

  /** Read blocks until the string is used up. */
  function Decode(s: string): Option<seq<Record>>
    decreases |s|
  {
    if s == "" then Some([])
    else match ScanBlock(s)
      case None => None
      case Some((r, rest)) =>
        if |rest| >= |s| then None
        else match Decode(rest)
          case None => None
          case Some(rs) => Some([r] + rs)
  }

  /** A log reads back as exactly the records it was made of, in spite of there being no separators. */
  lemma {:induction false} DecodeUndoesBlocks(rs: seq<Record>)
    requires AllPrintable(rs)
    ensures Decode(Blocks(rs)) == Some(rs)
  {
    if rs != [] {
      ScanUndoesBlock(rs[0], Blocks(rs[1..]));
      BlockIsLong(rs[0]);
      DecodeUndoesBlocks(rs[1..]);
      assert rs == [rs[0]] + rs[1..];
    }
  }

  /** Only logs decode, and each in one way: decoding inverts printing in both directions. */
  lemma {:induction false} BlocksUndoDecode(s: string)
    requires Decode(s).Some?
    ensures AllPrintable(Decode(s).value) && s == Blocks(Decode(s).value)
    decreases |s|
  {
    if s != "" {
      var (r, rest) := ScanBlock(s).value;
      BlockUndoesScan(s);
      BlocksUndoDecode(rest);
      var rs := Decode(rest).value;
      assert Decode(s).value == [r] + rs && ([r] + rs)[1..] == rs;
    }
  }

  /** Two sequences of records with the same text are the same sequence. */
  lemma LogIsUnambiguous(rs: seq<Record>, rs': seq<Record>)
    requires AllPrintable(rs) && AllPrintable(rs') && Blocks(rs) == Blocks(rs')
    ensures rs == rs'
  {
    DecodeUndoesBlocks(rs);
    DecodeUndoesBlocks(rs');
  }

  // ---------------------------------------------------------------- append_stats in memory

  /** The C string at the start of a buffer: everything before the first NUL. */
  function CString(s: string): string
  {
    if s == "" || s[0] == '\0' then "" else [s[0]] + CString(s[1..])
  }

  lemma {:induction false} CStringIs(s: string, n: nat)
    requires n < |s| && s[n] == '\0' && NoNul(s[..n])
    ensures CString(s) == s[..n]
  {
    if n > 0 {
      assert s[..n][0] == s[0];
      assert s[..n][1..] == s[1..][..n - 1];
      CStringIs(s[1..], n - 1);
    }
  }

  /** strlen */
  method StrLen(buf: array<char>) returns (n: nat)
    requires '\0' in buf[..]
    ensures n < buf.Length && buf[n] == '\0' && NoNul(buf[..n]) && buf[..n] == CString(buf[..])
  {
    n := 0;
    while buf[n] != '\0'
      invariant n < buf.Length && NoNul(buf[..n])
      invariant exists k :: n <= k < buf.Length && buf[k] == '\0'
      decreases buf.Length - n
    {
      n := n + 1;
    }
    CStringIs(buf[..], n);
  }

  /** sprintf(buf + at, format, args...): the text and a terminating NUL; returns the text's length. */
  method Sprintf(buf: array<char>, at: nat, f: seq<Piece>, args: seq<nat>) returns (n: nat)
    requires Fits(f, args) && at + |Print(f, args)| < buf.Length
    modifies buf
    ensures n == |Print(f, args)|
    ensures buf[..at + n] == old(buf[..at]) + Print(f, args) && buf[at + n] == '\0'
  {
    var text := Print(f, args);
    Memcpy(buf, at, text + ['\0']);
    n := |text|;
    assert (text + ['\0'])[..n] == text;
    assert buf[at..at + n] == buf[at..at + n + 1][..n];
    assert buf[at + n] == buf[at..at + n + 1][n];
  }

  lemma {:induction false} PrintCallsFrom(c: seq<(seq<Piece>, seq<nat>)>, i: nat)
    requires AllFit(c) && i < |c|
    ensures AllFit(c[i..]) && AllFit(c[..i]) && AllFit(c[..i + 1])
    ensures PrintCalls(c[..i + 1]) == PrintCalls(c[..i]) + Print(c[i].0, c[i].1)
    decreases i
  {
    assert AllFit(c[1..]) by { assert forall k | 0 <= k < |c| - 1 :: c[1..][k] == c[k + 1]; }
    if i == 0 {
      assert c[..1][1..] == [] && c[..0] == [];
    } else {
      PrintCallsFrom(c[1..], i - 1);
      assert c[..i + 1][1..] == c[1..][..i] && c[..i][1..] == c[1..][..i - 1];
      Associate(Print(c[0].0, c[0].1), PrintCalls(c[1..][..i - 1]), Print(c[i].0, c[i].1));
    }
  }

  predicate TextsHaveNoNul(f: seq<Piece>)
  {
    forall p | p in f && p.Literal? :: NoNul(p.text)
  }

  lemma TimeHasNoNul(f: seq<Piece>)
    requires IsTimeFormat(f) && NoNul(f[0].text) && NoNul(f[2].text) && NoNul(f[4].text)
    ensures TextsHaveNoNul(f)
  {
  }

  lemma CountHasNoNul(f: seq<Piece>)
    requires IsCountFormat(f) && NoNul(f[0].text) && NoNul(f[2].text)
    ensures TextsHaveNoNul(f)
  {
  }

  lemma FormatsHaveNoNul(f: seq<Piece>)
    requires f in FORMATS
    ensures TextsHaveNoNul(f)
  {
    if f == ARRIVAL || f == DISPATCH {
      TimeHasNoNul(f);
    } else {
      CountsHaveNoNul(f);
    }
  }

  lemma CountsHaveNoNul(f: seq<Piece>)
    requires f in [ID, COUNT, STATIC, DYNAMIC, POST]
    ensures TextsHaveNoNul(f)
  {
    CountHasNoNul(f);
  }

  lemma {:induction false} CallsHaveNoNul(c: seq<(seq<Piece>, seq<nat>)>)
    requires AllFit(c) && forall i | 0 <= i < |c| :: c[i].0 in FORMATS
    ensures NoNul(PrintCalls(c))
  {
    if c != [] {
      FormatsHaveNoNul(c[0].0);
      PrintHasNoNul(c[0].0, c[0].1);
      CallsHaveNoNul(c[1..]);
    }
  }

  lemma BlockHasNoNul(r: Record)
    requires r.Printable()
    ensures NoNul(Block(r))
  {
    ArgumentsFit(r);
    CallsHaveNoNul(Pair(FORMATS, Arguments(r)));
  }

  /** The first `i` sprintf calls have been made after `start`. */
  ghost predicate Written(buf: string, at: nat, start: string, c: seq<(seq<Piece>, seq<nat>)>, i: nat)
    requires AllFit(c)
  {
    && i <= |c| && AllFit(c[..i]) && at < |buf|
    && buf[..at] == start + PrintCalls(c[..i]) && buf[at] == '\0'
  }

  /** One sprintf of append_stats and the advance of `offset`. */
  method AppendCall(buf: array<char>, at: nat, ghost start: string, c: seq<(seq<Piece>, seq<nat>)>, i: nat)
    returns (next: nat)
    requires AllFit(c) && i < |c| && Written(buf[..], at, start, c, i)
    requires |start| + |PrintCalls(c)| < buf.Length
    modifies buf
    ensures Written(buf[..], next, start, c, i + 1)
  {
    PrintCallsFrom(c, i);
    PrefixIsShorter(c, i + 1);
    Associate(start, PrintCalls(c[..i]), Print(c[i].0, c[i].1));
    var n := Sprintf(buf, at, c[i].0, c[i].1);
    next := at + n;
  }

  lemma {:induction false} PrefixIsShorter(c: seq<(seq<Piece>, seq<nat>)>, i: nat)
    requires AllFit(c) && i <= |c|
    ensures AllFit(c[..i]) && |PrintCalls(c[..i])| <= |PrintCalls(c)|
    decreases |c| - i
  {
    if i < |c| {
      PrefixIsShorter(c, i + 1);
      PrintCallsFrom(c, i);
    } else {
      assert c[..i] == c;
    }
  }

  /** The last three calls of append_stats. */
  method AppendKinds(buf: array<char>, at: nat, ghost start: string, calls: seq<(seq<Piece>, seq<nat>)>)
    returns (offset: nat)
    requires AllFit(calls) && |calls| == 7 && Written(buf[..], at, start, calls, 4)
    requires |start| + |PrintCalls(calls)| < buf.Length
    modifies buf
    ensures Written(buf[..], offset, start, calls, 7)
  {
    offset := AppendCall(buf, at, start, calls, 4);
    offset := AppendCall(buf, offset, start, calls, 5);
    offset := AppendCall(buf, offset, start, calls, 6);
  }

  /** append_stats: the block is appended to the C string already in `buf`; the result is its new
      length. As in the source, the caller provides room and non-negative values. */
  method AppendStats(buf: array<char>, r: Record) returns (offset: nat)
    requires r.Printable() && '\0' in buf[..]
    requires |CString(buf[..])| + |Block(r)| < buf.Length
    modifies buf
    ensures offset < buf.Length && CString(buf[..]) == buf[..offset] == CString(old(buf[..])) + Block(r)
  {
    ArgumentsFit(r);
    var calls := Pair(FORMATS, Arguments(r));
    offset := StrLen(buf);
    ghost var start := buf[..offset];
    assert start + "" == start && calls[..0] == [];
    offset := AppendCall(buf, offset, start, calls, 0);
    offset := AppendCall(buf, offset, start, calls, 1);
    offset := AppendCall(buf, offset, start, calls, 2);
    offset := AppendCall(buf, offset, start, calls, 3);
    offset := AppendKinds(buf, offset, start, calls);
    assert calls[..7] == calls;
    AppendedString(buf[..], offset, start, r);
  }

  lemma AppendedString(buf: string, offset: nat, start: string, r: Record)
    requires r.Printable() && offset < |buf| && buf[offset] == '\0' && NoNul(start)
    requires buf[..offset] == start + Block(r)
    ensures CString(buf) == buf[..offset]
  {
    BlockHasNoNul(r);
    CStringIs(buf, offset);
  }
}
