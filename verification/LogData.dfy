/** The data invariant of the log: what the buffer holds at every point of an append, what each
    reader has copied so far, and what every finished `get_log` returned. */
module LogData {
  import opened Sums
  import opened Memory
  import opened Growth
  import opened LogMachine
  import opened LogControl

  /** The text of a sequence of entries: plain concatenation, no separator. */
  function Text(h: seq<Entry>): string
  {
    if h == [] then "" else Text(h[..|h| - 1]) + h[|h| - 1].data
  }

  lemma TextAppend(h: seq<Entry>, e: Entry)
    ensures Text(h + [e]) == Text(h) + e.data
  {
    assert (h + [e])[..|h|] == h;
  }

  /** Earlier text is a prefix of later text. */
  lemma {:induction false} TextPrefix(h: seq<Entry>, n: nat)
    requires n <= |h|
    ensures Text(h[..n]) <= Text(h)
  {
    if n == |h| {
      assert h[..n] == h;
    } else {
      TextPrefix(h[..|h| - 1], n);
      assert h[..|h| - 1][..n] == h[..n];
    }
  }

  /** The buffer holds `text`, terminated, within its capacity. */
  ghost predicate Holds(buffer: string, u: Usage, text: string)
  {
    && |buffer| == u.capacity
    && u.size == |text| < u.capacity
    && buffer[..u.size] == text
    && buffer[u.size] == NUL
    && Bounded(u, 0)
  }

  ghost predicate WriterData(buffer: string, u: Usage, text: string, data: string, pc: Pc)
  {
    match pc
    case WriteTest => Holds(buffer, u, text)
    case WriteMove(block, moved) =>
      && Holds(buffer, u, text)
      && MustGrow(u.capacity, u.size, |data|) && |block| == MakeRoom(u, |data|).capacity
      && moved <= u.size <= |block| && block[..moved] == text[..moved]
    case WriteCopy(copied) =>
      && |buffer| == u.capacity && u.size == |text| && Bounded(u, |data|)
      && copied <= |data|
      && buffer[..u.size + copied] == text + data[..copied]
    case WriteTerminate =>
      && |buffer| == u.capacity && u.size == |text + data| && Bounded(u, 0)
      && buffer[..u.size] == text + data
    case WriteLeave => Holds(buffer, u, text + data)
    case _ => true
  }

  ghost predicate ReaderData(h: seq<Entry>, u: Usage, pc: Pc)
  {
    var all := Text(h) + [NUL];
    match pc
    case ReadAllocate(seen) => seen == |h|
    case ReadMeasure(seen, room) => seen == |h| && room == |all|
    case ReadCopy(seen, room, len, dst) => seen == |h| && room == len == |all| && dst <= all
    case ReadResult(seen, dst) => seen == |h| && dst == all
    case ReadLeave(seen, dst, result) => seen == |h| && dst == all && result == |Text(h)|
    case _ => true
  }

  ghost predicate SnapshotCorrect(h: seq<Entry>, x: Snapshot)
  {
    && x.seen <= |h|
    && x.dst == Text(h[..x.seen]) + [NUL]
    && x.result == |Text(h[..x.seen])|
  }

  ghost predicate Data(s: State)
  {
    && (s.counters.writers == 0 ==> Holds(s.buffer, s.usage, Text(s.history)))
    && (forall t: nat | t < |s.threads| ::
          WriterData(s.buffer, s.usage, Text(s.history), DataOf(s, t), s.threads[t].pc))
    && (forall t: nat | t < |s.threads| :: ReaderData(s.history, s.usage, s.threads[t].pc))
    && (forall x | x in s.snapshots :: SnapshotCorrect(s.history, x))
  }

  // ---------------------------------------------------------------- who excludes whom

  lemma WriterIsAlone(s: State, t: nat)
    requires Control(s) && t < |s.threads| && Writing(s.threads[t].pc)
    ensures s.counters.writers == 1 && s.counters.readers == 0 && s.mutex == Held(t)
    ensures forall u: nat | u < |s.threads| :: !Reading(s.threads[u].pc) && (u != t ==> !Writing(s.threads[u].pc))
  {
    assert HoldsMutex(s.threads[t].pc) <==> s.mutex == Held(t);
    SumAtLeast(s.threads, WritingBit, t);
    forall u: nat | u < |s.threads|
      ensures !Reading(s.threads[u].pc) && (u != t ==> !Writing(s.threads[u].pc))
    {
      SumAtLeast(s.threads, ReadingBit, u);
      assert HoldsMutex(s.threads[u].pc) <==> s.mutex == Held(u);
    }
  }

  lemma ReaderSeesSettledLog(s: State, t: nat)
    requires Control(s) && Data(s) && t < |s.threads| && Reading(s.threads[t].pc)
    ensures s.counters.writers == 0 && Holds(s.buffer, s.usage, Text(s.history))
  {
    SumAtLeast(s.threads, ReadingBit, t);
  }

  /** The thread at the writer gate holds the mutex, so nobody is writing. */
  lemma GateIsQuiet(s: State, t: nat)
    requires Control(s) && t < |s.threads| && s.threads[t].pc in {ReadGate, WriteGate}
    ensures s.counters.writers == 0
  {
    assert HoldsMutex(s.threads[t].pc) <==> s.mutex == Held(t);
    NobodyWrites(s.threads, s.mutex);
  }

  lemma OthersAreUntouched(s: State, a: Action, u: nat)
    requires Enabled(s, a) && u < |s.threads| && u != a.t
    ensures var s' := Apply(s, a);
            && |s'.threads| == |s.threads|
            && s'.threads[u].todo == s.threads[u].todo
            && s'.threads[u].pc in {s.threads[u].pc, Woken(s.threads[u].pc)}
  {
    if Quiet(s, a) {
      QuietStepMovesOneThread(s, a);
    } else {
      LeavingTouchesOnlyPc(s, a, u);
    }
  }

  lemma LeavingTouchesOnlyPc(s: State, a: Action, u: nat)
    requires Enabled(s, a) && !Quiet(s, a) && u < |s.threads| && u != a.t
    ensures var s' := Apply(s, a);
            && |s'.threads| == |s.threads|
            && s'.threads[u].todo == s.threads[u].todo
            && s'.threads[u].pc in {s.threads[u].pc, Woken(s.threads[u].pc)}
  {
    match s.threads[a.t].pc
    case ReadLeave(_, _, _) => assert Apply(s, a) == LeaveRead(s, a.t, a.wake);
    case WriteLeave => assert Apply(s, a) == LeaveWrite(s, a.t, a.wake);
  }

  // ---------------------------------------------------------------- preservation

  lemma InitData(s: State)
    requires Init(s)
    ensures Data(s)
  {
    CreatedBounded();
  }

  /** Steps of threads that are not writing leave buffer, size and history alone. */
  lemma NonWriterStepFrame(s: State, a: Action)
    requires Control(s) && Enabled(s, a) && !Writing(s.threads[a.t].pc)
    ensures var s' := Apply(s, a);
            && s'.buffer == s.buffer && s'.usage == s.usage && s'.history == s.history
            && |s'.threads| == |s.threads|
            && (s'.counters.writers == 0 ==> s.counters.writers == 0)
            && (Writing(s'.threads[a.t].pc) ==> s.threads[a.t].pc == WriteGate && s'.threads[a.t].pc == WriteTest)
            && s'.snapshots == s.snapshots + (if s.threads[a.t].pc.ReadLeave?
                 then [Snapshot(a.t, s.threads[a.t].pc.seen, s.threads[a.t].pc.dst, s.threads[a.t].pc.result)] else [])
  {
  }

  lemma CopyingOut(s: State, t: nat)
    requires t < |s.threads| && s.threads[t].pc.ReadCopy? && Ready(s, t)
    requires ReaderData(s.history, s.usage, s.threads[t].pc) && Holds(s.buffer, s.usage, Text(s.history))
    ensures ReaderData(s.history, s.usage, CopyOut(s, t).threads[t].pc)
  {
    assert s.buffer[..s.usage.size + 1] == Text(s.history) + [NUL];
  }

  lemma ReaderMoves(s: State, a: Action)
    requires Control(s) && Data(s) && Enabled(s, a) && !Writing(s.threads[a.t].pc)
    requires |Apply(s, a).threads| == |s.threads|
    ensures ReaderData(s.history, s.usage, Apply(s, a).threads[a.t].pc)
  {
    assert ReaderData(s.history, s.usage, s.threads[a.t].pc);
    if Reading(s.threads[a.t].pc) {
      ReaderSeesSettledLog(s, a.t);
      if s.threads[a.t].pc.ReadCopy? {
        assert Apply(s, a) == CopyOut(s, a.t);
        CopyingOut(s, a.t);
      }
    }
  }

  lemma NonWriterStepKeepsData(s: State, a: Action)
    requires Control(s) && Data(s) && Enabled(s, a) && !Writing(s.threads[a.t].pc)
    ensures Data(Apply(s, a))
  {
    var s' := Apply(s, a);
    NonWriterStepFrame(s, a);
    ReaderMoves(s, a);
    forall u: nat | u < |s.threads|
      ensures WriterData(s'.buffer, s'.usage, Text(s'.history), DataOf(s', u), s'.threads[u].pc)
      ensures ReaderData(s'.history, s'.usage, s'.threads[u].pc)
    {
      assert WriterData(s.buffer, s.usage, Text(s.history), DataOf(s, u), s.threads[u].pc);
      assert ReaderData(s.history, s.usage, s.threads[u].pc);
      if u != a.t {
        OthersAreUntouched(s, a, u);
      } else if s.threads[u].pc == WriteGate {
        GateIsQuiet(s, u);
      }
    }
    forall x | x in s'.snapshots ensures SnapshotCorrect(s'.history, x) {
      if x !in s.snapshots {
        assert ReaderData(s.history, s.usage, s.threads[a.t].pc);
        assert s.history[..|s.history|] == s.history;
      }
    }
  }

  /** One step of the writer's body, up to its last, changes only memory and the writer itself. */
  lemma WriterBodyFrame(s: State, a: Action)
    requires Control(s) && Enabled(s, a) && Writing(s.threads[a.t].pc) && !s.threads[a.t].pc.WriteLeave?
    ensures var s' := Apply(s, a);
            && s'.history == s.history && s'.snapshots == s.snapshots && s'.counters == s.counters
            && |s'.threads| == |s.threads|
            && s'.threads == s.threads[a.t := s'.threads[a.t]] && s'.threads[a.t].todo == s.threads[a.t].todo
            && Writing(s'.threads[a.t].pc)
  {
  }

  ghost predicate WriterHas(s: State, t: nat)
  {
    t < |s.threads| && WriterData(s.buffer, s.usage, Text(s.history), DataOf(s, t), s.threads[t].pc)
  }

  lemma TestingCapacity(s: State, t: nat, block: string)
    requires WriterHas(s, t) && s.threads[t].pc.WriteTest?
    requires |block| == MakeRoom(s.usage, |DataOf(s, t)|).capacity
    ensures WriterHas(TestCapacity(s, t, block), t)
  {
    MakeRoomKeepsBound(s.usage, |DataOf(s, t)|);
  }

  lemma MovingByte(s: State, t: nat)
    requires WriterHas(s, t) && s.threads[t].pc.WriteMove? && Ready(s, t)
    ensures WriterHas(MoveByte(s, t), t)
  {
    MakeRoomKeepsBound(s.usage, |DataOf(s, t)|);
  }

  /** One more byte of `data` after `text`. */
  lemma OneMoreByte(buffer: string, text: string, data: string, c: nat)
    requires c < |data| && |text| + c < |buffer| && buffer[..|text| + c] == text + data[..c]
    ensures buffer[|text| + c := data[c]][..|text| + c + 1] == text + data[..c + 1]
  {
    var b := buffer[|text| + c := data[c]];
    assert b[..|text| + c] == buffer[..|text| + c];
    assert b[..|text| + c + 1] == b[..|text| + c] + [data[c]];
    assert data[..c + 1] == data[..c] + [data[c]];
  }

  lemma CopyingIn(s: State, t: nat)
    requires WriterHas(s, t) && s.threads[t].pc.WriteCopy? && Ready(s, t)
    ensures WriterHas(CopyIn(s, t), t)
  {
    var copied, data := s.threads[t].pc.copied, DataOf(s, t);
    if copied < |data| {
      OneMoreByte(s.buffer, Text(s.history), data, copied);
    } else {
      assert data[..copied] == data;
    }
  }

  lemma WriterBodyStep(s: State, a: Action)
    requires Control(s) && Data(s) && Enabled(s, a) && Writing(s.threads[a.t].pc) && !s.threads[a.t].pc.WriteLeave?
    ensures WriterHas(Apply(s, a), a.t)
  {
    var t := a.t;
    assert WriterHas(s, t);
    match s.threads[t].pc
    case WriteTest =>
      assert Apply(s, a) == TestCapacity(s, t, a.block);
      TestingCapacity(s, t, a.block);
    case WriteMove(_, _) =>
      assert Apply(s, a) == MoveByte(s, t);
      MovingByte(s, t);
    case WriteCopy(_) =>
      assert Apply(s, a) == CopyIn(s, t);
      CopyingIn(s, t);
    case WriteTerminate =>
  }

  lemma WriterStepKeepsData(s: State, a: Action)
    requires Control(s) && Data(s) && Enabled(s, a) && Writing(s.threads[a.t].pc) && !s.threads[a.t].pc.WriteLeave?
    ensures Data(Apply(s, a))
  {
    var s' := Apply(s, a);
    WriterIsAlone(s, a.t);
    WriterBodyFrame(s, a);
    WriterBodyStep(s, a);
    forall u: nat | u < |s.threads|
      ensures WriterData(s'.buffer, s'.usage, Text(s'.history), DataOf(s', u), s'.threads[u].pc)
      ensures ReaderData(s'.history, s'.usage, s'.threads[u].pc)
    {
    }
  }

  lemma SnapshotsSurvive(s: State, e: Entry)
    requires forall x | x in s.snapshots :: SnapshotCorrect(s.history, x)
    ensures forall x | x in s.snapshots :: SnapshotCorrect(s.history + [e], x)
  {
    forall x | x in s.snapshots ensures SnapshotCorrect(s.history + [e], x) {
      assert SnapshotCorrect(s.history, x);
      assert (s.history + [e])[..x.seen] == s.history[..x.seen];
    }
  }

  lemma LeaveWriteKeepsData(s: State, a: Action)
    requires Control(s) && Data(s) && Enabled(s, a) && s.threads[a.t].pc.WriteLeave?
    ensures Data(Apply(s, a))
  {
    var s' := Apply(s, a);
    WriterIsAlone(s, a.t);
    TextAppend(s.history, Entry(a.t, DataOf(s, a.t)));
    SnapshotsSurvive(s, Entry(a.t, DataOf(s, a.t)));
    assert WriterData(s.buffer, s.usage, Text(s.history), DataOf(s, a.t), s.threads[a.t].pc);
    forall u: nat | u < |s.threads|
      ensures WriterData(s'.buffer, s'.usage, Text(s'.history), DataOf(s', u), s'.threads[u].pc)
      ensures ReaderData(s'.history, s'.usage, s'.threads[u].pc)
    {
      if u != a.t {
        OthersAreUntouched(s, a, u);
      }
    }
  }

  lemma StepKeepsData(s: State, a: Action)
    requires Control(s) && Data(s) && Enabled(s, a)
    ensures Data(Apply(s, a))
  {
    if !Writing(s.threads[a.t].pc) {
      NonWriterStepKeepsData(s, a);
    } else if s.threads[a.t].pc.WriteLeave? {
      LeaveWriteKeepsData(s, a);
    } else {
      WriterStepKeepsData(s, a);
    }
  }
}
