/** Runs that show what Hazards and Switches speak of can happen, for all choices of the
    constants: an orphan, two threads that share a buffer, and a thread that fails because
    another one dropped a batch. */
module Witnesses {
  import opened Protocol
  import opened Bookkeeping
  import opened Ownership
  import opened Safety
  import opened Hazards
  import SkipWitness

  // ---------------------------------------------------------------- a thread that fills its buffer

  /** Only thread `t` has moved, and without the manager. */
  ghost predicate OnlyLogged(s: State, s': State, t: ThreadId) {
    && InRange(s) && InRange(s') && t < |s.threads|
    && |s'.sh.bufs| == |s.sh.bufs| && s'.sh == s.sh.(bufs := s'.sh.bufs)
    && s' == s.(sh := s'.sh, threads := s'.threads)
    && |s'.threads| == |s.threads|
    && (forall u | 0 <= u < |s.threads| && u != t :: s'.threads[u] == s.threads[u])
    && s'.threads[t].ref.logBuf == s.threads[t].ref.logBuf
  }

  /** Thread `t` is between two events or inside one that will be counted. */
  ghost predicate Logging(s: State, t: ThreadId) {
    && t < |s.threads| && t < |s.sh.cells| && s.fault.None? && s.sh.cells[t].ptr.Some?
    && match s.threads[t].pc
       case Ready => true
       case Loaded(_, cur) => cur.Some?
       case Stored(_, cur) => cur.Some?
       case _ => false
  }

  function LoggingLabel(t: ThreadId, pc: Pc): Label {
    match pc
    case Loaded(_, _) => Store(t)
    case Stored(_, _) => Count(t)
    case _ => LoadPtr(t, 0)
  }

  ghost predicate LogsOn(c: Config, s: State, s': State, t: ThreadId)
    requires c.Valid() && Logging(s, t) && s.threads[t].ref.events <= LastIndex(c)
  {
    && OnlyLogged(s, s', t) && s'.fault.None?
    && (|| s'.threads[t].pc.Full?
        || (&& Logging(s', t) && s'.threads[t].ref.events <= LastIndex(c)
            && SkipWitness.StepsLeft(c, s'.threads[t]) < SkipWitness.StepsLeft(c, s.threads[t])))
  }

  lemma LogOnBy(c: Config, s: State, t: ThreadId, l: Label)
    requires c.Valid() && InRange(s) && Logging(s, t) && l == LoggingLabel(t, s.threads[t].pc)
    requires IsLogLabel(l) && Enabled(c, s, l) && s.threads[t].ref.events <= LastIndex(c)
    requires s.threads[t].ref.events < |s.sh.bufs[s.threads[t].ref.logBuf].slots|
    requires var r := s.threads[t].ref;
             r.events >= r.nextRdtscTime ==> r.events + 1 >= c.maxEvents || r.events < LastIndex(c)
    requires s.threads[t].ref.events == LastIndex(c) ==>
               s.threads[t].ref.events >= s.threads[t].ref.nextRdtscTime
    requires LastIndex(c) + 1 >= c.maxEvents
    ensures LogsOn(c, s, LogStep(c, s, l), t)
  {
  }

  lemma LogOn(c: Config, s: State, t: ThreadId)
    requires Local(c, s, t) && Logging(s, t)
    ensures s.threads[t].ref.events <= LastIndex(c)
    ensures var l := LoggingLabel(t, s.threads[t].pc);
            IsLogLabel(l) && Enabled(c, s, l) && LogsOn(c, s, LogStep(c, s, l), t)
  {
    var r := s.threads[t].ref;
    LastIndexInside(c);
    assert BufferOwn(c, s, r.logBuf);
    LogOnBy(c, s, t, LoggingLabel(t, s.threads[t].pc));
  }

  lemma LogsOnTrans(s: State, s1: State, s2: State, t: ThreadId)
    requires OnlyLogged(s, s1, t) && OnlyLogged(s1, s2, t)
    ensures OnlyLogged(s, s2, t)
  {
  }

  lemma LocalAt(c: Config, ls: seq<Label>, t: ThreadId)
    requires c.Valid() && Legal(c, ls) && DropFree(c, ls) && t < |After(c, ls).threads|
    ensures Local(c, After(c, ls), t)
  {
    BasicRun(c, ls);
    OwnRun(c, ls);
    assert PointerOk(After(c, ls), t);
  }

  lemma LogOnce(c: Config, ls: seq<Label>, t: ThreadId) returns (ls': seq<Label>)
    requires c.Valid() && Legal(c, ls) && DropFree(c, ls) && Logging(After(c, ls), t)
    ensures After(c, ls).threads[t].ref.events <= LastIndex(c)
    ensures Legal(c, ls') && DropFree(c, ls') && LogsOn(c, After(c, ls), After(c, ls'), t)
  {
    var s := After(c, ls);
    var l := LoggingLabel(t, s.threads[t].pc);
    LocalAt(c, ls, t);
    LogOn(c, s, t);
    SkipWitness.Extend(c, ls, l);
    ls' := ls + [l];
  }

  /** On a run that dropped nothing, a thread that logs on its own fills its buffer. */
  lemma {:induction false} FillAlone(c: Config, ls: seq<Label>, t: ThreadId) returns (ls': seq<Label>)
    requires c.Valid() && Legal(c, ls) && DropFree(c, ls) && Logging(After(c, ls), t)
    requires After(c, ls).threads[t].ref.events <= LastIndex(c)
    ensures Legal(c, ls') && DropFree(c, ls') && OnlyLogged(After(c, ls), After(c, ls'), t)
    ensures After(c, ls').fault.None? && After(c, ls').threads[t].pc.Full?
    decreases SkipWitness.StepsLeft(c, After(c, ls).threads[t])
  {
    ls' := LogOnce(c, ls, t);
    var ls1 := ls';
    if !After(c, ls1).threads[t].pc.Full? {
      ls' := FillAlone(c, ls1, t);
      LogsOnTrans(After(c, ls), After(c, ls1), After(c, ls'), t);
    }
  }

  // ---------------------------------------------------------------- a thread that gets its first Ref

  /** Thread `t` is new. */
  ghost predicate IsNew(s: State, t: ThreadId) {
    && t < |s.threads| && t < |s.sh.cells| && s.fault.None?
    && s.threads[t].pc.Idle? && s.sh.cells[t] == Cell(None, None)
  }

  /** Thread `t` got a buffer and a Ref on it; the others, and the workers, are as before. */
  ghost predicate Joined(s: State, s': State, t: ThreadId) {
    && InRange(s) && InRange(s') && t < |s.threads| && |s'.threads| == |s.threads|
    && (forall u | 0 <= u < |s.threads| && u != t ::
          s'.threads[u] == s.threads[u] && s'.sh.cells[u] == s.sh.cells[u])
    && s'.workers == s.workers && s'.sh.activeWorkers == s.sh.activeWorkers
    && s'.dropped == s.dropped && s'.orphaned == s.orphaned && s'.fault.None?
    && s'.threads[t].pc.Ready? && s'.threads[t].ref.events == 0
    && s'.sh.freeBufs == (if s.sh.freeBufs == [] then [] else s.sh.freeBufs[..|s.sh.freeBufs| - 1])
    && var b := s'.threads[t].ref.logBuf;
       b == NextBuffer(s.sh) && s'.sh.cells[t] == Cell(Some(b), Some(b)) && s'.sh.allocatedBufs == s.sh.allocatedBufs + [b]
  }

  function FirstAlloc(c: Config, t: ThreadId): Label {
    AllocForRef(t, SkipWitness.Zeros(c.Capacity()))
  }

  lemma JoinSteps(c: Config, s: State, t: ThreadId)
    requires InRange(s) && IsNew(s, t)
    ensures Enabled(c, s, LoadForRef(t))
    ensures var s1 := DoLoadForRef(s, t);
            && Enabled(c, s1, FirstAlloc(c, t))
            && var s2 := DoAllocForRef(c, s1, t, FirstAlloc(c, t).mem);
               && Enabled(c, s2, MakeRef(t)) && s2.threads[t].pc.buf.Some? && s2.threads[t].pc.buf.value < |s2.sh.bufs|
               && Joined(s, DoMakeRef(s2, t, s2.threads[t].pc.buf.value), t)
  {
  }

  lemma Join(c: Config, ls: seq<Label>, t: ThreadId) returns (ls': seq<Label>)
    requires Legal(c, ls) && IsNew(After(c, ls), t)
    ensures Legal(c, ls') && Joined(After(c, ls), After(c, ls'), t)
  {
    var s := After(c, ls);
    JoinSteps(c, s, t);
    SkipWitness.Extend(c, ls, LoadForRef(t));
    SkipWitness.Extend(c, ls + [LoadForRef(t)], FirstAlloc(c, t));
    SkipWitness.Extend(c, ls + [LoadForRef(t)] + [FirstAlloc(c, t)], MakeRef(t));
    ls' := ls + [LoadForRef(t)] + [FirstAlloc(c, t)] + [MakeRef(t)];
  }

  lemma SpawnNew(c: Config, ls: seq<Label>) returns (ls': seq<Label>, t: ThreadId)
    requires Legal(c, ls) && After(c, ls).fault.None?
    ensures Legal(c, ls')
    ensures var s, s' := After(c, ls), After(c, ls');
            && t == |s.threads| && |s'.threads| == t + 1 && IsNew(s', t)
            && (forall u | 0 <= u < t :: s'.threads[u] == s.threads[u] && s'.sh.cells[u] == s.sh.cells[u])
            && s'.sh == s.sh.(cells := s'.sh.cells) && s'.workers == s.workers && s'.dropped == s.dropped
            && s'.orphaned == s.orphaned
  {
    SkipWitness.Extend(c, ls, Spawn);
    ls' := ls + [Spawn];
    t := |After(c, ls).threads|;
  }

  // ---------------------------------------------------------------- an orphan

  /** Thread `t` has no Ref, and the buffer of its context is still its pointer. */
  ghost predicate Paused(s: State, t: ThreadId) {
    && t < |s.threads| && t < |s.sh.cells|
    && s.threads[t].pc.Idle? && s.sh.cells[t].ptr.Some? && s.sh.cells[t].ctx.Some?
  }

  lemma PauseSteps(c: Config, s: State, t: ThreadId)
    requires InRange(s) && s.fault.None? && t < |s.threads| && s.threads[t].pc.Ready?
    requires s.sh.cells[t].ptr.Some? && s.sh.cells[t].ctx.Some?
    ensures Enabled(c, s, DropEvents(t)) && Enabled(c, DoDropEvents(s, t), DropDeadline(t))
    ensures var s' := DoDropDeadline(DoDropEvents(s, t), t);
            && Paused(s', t) && s'.sh == s.sh.(bufs := s'.sh.bufs)
            && |s'.threads| == |s.threads| && (forall u | 0 <= u < |s.threads| && u != t :: s'.threads[u] == s.threads[u])
            && s'.workers == s.workers && s'.dropped == s.dropped && s'.fault.None?
  {
  }

  /** Its Ref is destroyed. */
  lemma Pause(c: Config, ls: seq<Label>, t: ThreadId) returns (ls': seq<Label>)
    requires Legal(c, ls) && After(c, ls).fault.None? && t < |After(c, ls).threads|
    requires After(c, ls).threads[t].pc.Ready?
    requires After(c, ls).sh.cells[t].ptr.Some? && After(c, ls).sh.cells[t].ctx.Some?
    ensures Legal(c, ls')
    ensures var s, s' := After(c, ls), After(c, ls');
            && Paused(s', t) && s'.sh == s.sh.(bufs := s'.sh.bufs)
            && |s'.threads| == |s.threads| && (forall u | 0 <= u < |s.threads| && u != t :: s'.threads[u] == s.threads[u])
            && s'.workers == s.workers && s'.dropped == s.dropped && s'.fault.None?
  {
    PauseSteps(c, After(c, ls), t);
    SkipWitness.Extend(c, ls, DropEvents(t));
    SkipWitness.Extend(c, ls + [DropEvents(t)], DropDeadline(t));
    ls' := ls + [DropEvents(t)] + [DropDeadline(t)];
  }

  /** A paused thread and one that is about to end the epoch, with a worker to spare. */
  ghost predicate BeforeEnd(c: Config, s: State, t: ThreadId, u: ThreadId) {
    && t != u && u < |s.threads| && s.fault.None? && Paused(s, t) && s.threads[u].pc.Full?
    && s.sh.activeWorkers < c.maxWorkers
  }

  lemma EndSteps(c: Config, s: State, t: ThreadId, u: ThreadId)
    requires InRange(s) && BeforeEnd(c, s, t, u) && PointerOk(s, t)
    requires s.sh.bufs[s.threads[u].ref.logBuf].epoch == s.sh.epoch
    ensures Enabled(c, s, TryInc(u)) && Enabled(c, DoTryInc(c, s, u), LoadForRef(t))
    ensures var s' := DoLoadForRef(DoTryInc(c, s, u), t);
            && Enabled(c, s', FirstAlloc(c, t)) && s'.sh.cells[t].ctx.Some?
            && s'.dropped == s.dropped
  {
  }

  /** A full buffer of the current epoch, if the thread has not seen its pointer taken. */
  lemma FullIsCurrent(c: Config, s: State, u: ThreadId)
    requires Basic(c, s) && u < |s.threads| && s.threads[u].pc.Full? && s.sh.cells[u].ptr.Some?
    ensures s.threads[u].ref.logBuf in s.sh.allocatedBufs
    ensures s.sh.bufs[s.threads[u].ref.logBuf].epoch == s.sh.epoch
  {
    assert PointerOk(s, u);
  }

  /** Two threads: one pauses, the other fills its buffer and ends the epoch, the first one
      builds a Ref again. */
  lemma RebuildAfter(c: Config, ls: seq<Label>, t: ThreadId, u: ThreadId) returns (ls': seq<Label>, w: nat, b: BufId)
    requires c.Valid() && Legal(c, ls) && DropFree(c, ls) && BeforeEnd(c, After(c, ls), t, u)
    requires After(c, ls).sh.cells[u].ptr.Some?
    ensures Legal(c, ls') && DropFree(c, ls') && Orphan(After(c, ls'), w, b)
  {
    var s := After(c, ls);
    BasicRun(c, ls);
    FullIsCurrent(c, s, u);
    EndSteps(c, s, t, u);
    SkipWitness.Extend(c, ls, TryInc(u));
    SkipWitness.Extend(c, ls + [TryInc(u)], LoadForRef(t));
    ls', w, b := Rebuild(c, ls + [TryInc(u)] + [LoadForRef(t)], t);
  }

  lemma Rebuild(c: Config, ls: seq<Label>, t: ThreadId) returns (ls': seq<Label>, w: nat, b: BufId)
    requires c.Valid() && Legal(c, ls) && DropFree(c, ls) && Enabled(c, After(c, ls), FirstAlloc(c, t))
    requires After(c, ls).sh.cells[t].ctx.Some?
    ensures Legal(c, ls') && DropFree(c, ls') && Orphan(After(c, ls'), w, b)
  {
    var s := After(c, ls);
    BasicRun(c, ls);
    OwnRun(c, ls);
    RebuildOrphans(c, s, FirstAlloc(c, t));
    SkipWitness.Extend(c, ls, FirstAlloc(c, t));
    RefKeepsDrops(c, s, FirstAlloc(c, t));
    ls' := ls + [FirstAlloc(c, t)];
    b := s.sh.cells[t].ctx.value;
    w :| Orphan(After(c, ls'), w, b);
  }

  lemma RefKeepsDrops(c: Config, s: State, l: Label)
    requires InRange(s) && Enabled(c, s, l) && l.AllocForRef?
    ensures Next(c, s, l).dropped == s.dropped
  {
  }

  /** With room for one worker there is a run, on which no batch was dropped, that leaves
      a worker waiting for a buffer nobody can close. */
  lemma OrphanCanArise(c: Config) returns (ls: seq<Label>, w: nat, b: BufId)
    requires c.Valid() && c.maxWorkers >= 1
    ensures Legal(c, ls) && DropFree(c, ls) && Orphan(After(c, ls), w, b)
  {
    ls := [];
    var t, u;
    ls, t := SpawnNew(c, ls);
    ls, u := SpawnNew(c, ls);
    ls := Join(c, ls, t);
    ls := Pause(c, ls, t);
    ls := Join(c, ls, u);
    LocalAt(c, ls, u);
    LogOn(c, After(c, ls), u);
    ls := FillAlone(c, ls, u);
    ls, w, b := RebuildAfter(c, ls, t, u);
  }

  // ---------------------------------------------------------------- two Refs on one buffer

  /** Thread 0, alone, leaves buffer `b`, the batch of worker 0. */
  ghost predicate Leaving(c: Config, s: State, b: BufId) {
    && InRange(s) && s.fault.None? && !s.dropped && |s.threads| == 1 && b < |s.sh.bufs|
    && s.threads[0].ref.logBuf == b
    && |s.workers| == 1 && s.workers[0].batch == [b]
  }

  /** ... and the worker has not begun. */
  ghost predicate LeavingFirst(c: Config, s: State, b: BufId) {
    Leaving(c, s, b) && s.sh.freeBufs == [] && s.workers[0].pc == Waiting(0)
  }

  /** ... and has closed it. */
  ghost predicate Left(c: Config, s: State, b: BufId, pc: WorkerPc) {
    && Leaving(c, s, b) && s.sh.freeBufs == [] && s.threads[0].pc.Detached? && s.sh.bufs[b].closed
    && s.workers[0].pc == pc
  }

  lemma LeaveInc(c: Config, s: State, b: BufId)
    requires InRange(s) && s.fault.None? && !s.dropped && |s.threads| == 1 && s.threads[0].pc.Full?
    requires s.threads[0].ref.logBuf == b && b < |s.sh.bufs| && s.sh.bufs[b].epoch == s.sh.epoch
    requires s.sh.allocatedBufs == [b] && s.sh.freeBufs == [] && s.workers == []
    requires s.sh.activeWorkers < c.maxWorkers && 0 in s.sh.tlsBufAddrs
    ensures Enabled(c, s, TryInc(0))
    ensures var s' := Next(c, s, TryInc(0));
            LeavingFirst(c, s', b) && s'.threads[0].pc.Allocating? && s'.sh.cells[0].ptr.None?
  {
  }

  lemma LeaveAlloc(c: Config, s: State, b: BufId, mem: seq<Word>)
    requires LeavingFirst(c, s, b) && s.threads[0].pc.Allocating? && s.sh.cells[0].ptr.None? && |mem| == c.Capacity()
    ensures Enabled(c, s, Alloc(0, mem))
    ensures var s' := Next(c, s, Alloc(0, mem));
            LeavingFirst(c, s', b) && s'.threads[0].pc.Switching? && s'.threads[0].pc.newBuf != b
  {
  }

  lemma LeaveWriteBack(c: Config, s: State, b: BufId)
    requires LeavingFirst(c, s, b) && s.threads[0].pc.Switching? && s.threads[0].pc.newBuf != b
    ensures Enabled(c, s, WriteBack(0))
    ensures LeavingFirst(c, Next(c, s, WriteBack(0)), b) && Next(c, s, WriteBack(0)).threads[0].pc.WroteBack?
  {
  }

  lemma LeaveClose(c: Config, s: State, b: BufId)
    requires LeavingFirst(c, s, b) && s.threads[0].pc.WroteBack?
    ensures Enabled(c, s, Close(0)) && Left(c, Next(c, s, Close(0)), b, Waiting(0))
  {
  }

  lemma LeftPoll(c: Config, s: State, b: BufId, i: nat)
    requires Left(c, s, b, Waiting(i)) && i <= 1
    ensures Enabled(c, s, Poll(0))
    ensures Left(c, Next(c, s, Poll(0)), b, if i == 0 then Waiting(1) else Counting(0, 0))
  {
  }

  lemma LeftRead(c: Config, s: State, b: BufId)
    requires Left(c, s, b, Counting(0, 0))
    ensures Enabled(c, s, Read(0))
    ensures Left(c, Next(c, s, Read(0)), b, Counting(1, s.sh.bufs[b].events))
  {
  }

  lemma LeftRelease(c: Config, s: State, b: BufId, sum: nat)
    requires Left(c, s, b, Counting(1, sum))
    ensures Enabled(c, s, ReleaseBatch(0))
    ensures var s' := Next(c, s, ReleaseBatch(0));
            Leaving(c, s', b) && s'.sh.freeBufs == [b] && s'.threads[0].pc.Detached?
  {
  }

  lemma FirstFull(c: Config) returns (ls: seq<Label>, b: BufId)
    requires c.Valid() && c.maxWorkers >= 1
    ensures Legal(c, ls) && LeavingFirst(c, After(c, ls), b)
    ensures After(c, ls).threads[0].pc.Allocating? && After(c, ls).sh.cells[0].ptr.None?
  {
    var t;
    ls, t := SpawnNew(c, []);
    ls := Join(c, ls, 0);
    LocalAt(c, ls, 0);
    LogOn(c, After(c, ls), 0);
    ls := FillAlone(c, ls, 0);
    b := After(c, ls).threads[0].ref.logBuf;
    BasicRun(c, ls);
    FullIsCurrent(c, After(c, ls), 0);
    assert PointerOk(After(c, ls), 0);
    LeaveInc(c, After(c, ls), b);
    SkipWitness.Extend(c, ls, TryInc(0));
    ls := ls + [TryInc(0)];
  }

  lemma LeaveBuffer(c: Config) returns (ls: seq<Label>, b: BufId)
    requires c.Valid() && c.maxWorkers >= 1
    ensures Legal(c, ls) && Left(c, After(c, ls), b, Waiting(0))
  {
    var l := Alloc(0, SkipWitness.Zeros(c.Capacity()));
    ls, b := FirstFull(c);
    LeaveAlloc(c, After(c, ls), b, l.mem);
    SkipWitness.Extend(c, ls, l);
    ls := ls + [l];
    LeaveWriteBack(c, After(c, ls), b);
    SkipWitness.Extend(c, ls, WriteBack(0));
    ls := ls + [WriteBack(0)];
    LeaveClose(c, After(c, ls), b);
    SkipWitness.Extend(c, ls, Close(0));
    ls := ls + [Close(0)];
  }

  lemma ReleaseLeft(c: Config, ls: seq<Label>, b: BufId) returns (ls': seq<Label>)
    requires Legal(c, ls) && Left(c, After(c, ls), b, Waiting(0))
    ensures Legal(c, ls') && Leaving(c, After(c, ls'), b)
    ensures After(c, ls').sh.freeBufs == [b] && After(c, ls').threads[0].pc.Detached?
  {
    LeftPoll(c, After(c, ls), b, 0);
    SkipWitness.Extend(c, ls, Poll(0));
    ls' := ls + [Poll(0)];
    LeftPoll(c, After(c, ls'), b, 1);
    SkipWitness.Extend(c, ls', Poll(0));
    ls' := ls' + [Poll(0)];
    LeftRead(c, After(c, ls'), b);
    SkipWitness.Extend(c, ls', Read(0));
    ls' := ReleaseRead(c, ls' + [Read(0)], b, After(c, ls').sh.bufs[b].events);
  }

  lemma ReleaseRead(c: Config, ls: seq<Label>, b: BufId, sum: nat) returns (ls': seq<Label>)
    requires Legal(c, ls) && Left(c, After(c, ls), b, Counting(1, sum))
    ensures Legal(c, ls') && Leaving(c, After(c, ls'), b)
    ensures After(c, ls').sh.freeBufs == [b] && After(c, ls').threads[0].pc.Detached?
  {
    LeftRelease(c, After(c, ls), b, sum);
    SkipWitness.Extend(c, ls, ReleaseBatch(0));
    ls' := ls + [ReleaseBatch(0)];
  }

  /** On a run that drops no batch, a worker has recycled the buffer that thread 0's Ref is
      still on, and thread 1 has it. */
  lemma RefsCanCoincide(c: Config) returns (ls: seq<Label>)
    requires c.Valid() && c.maxWorkers >= 1
    ensures Legal(c, ls) && DropFree(c, ls) && |After(c, ls).threads| == 2
    ensures var s := After(c, ls);
            && s.threads[0].pc.Detached? && s.threads[1].pc.Ready?
            && s.threads[0].ref.logBuf == s.threads[1].ref.logBuf
  {
    var b, t;
    ls, b := LeaveBuffer(c);
    ls := ReleaseLeft(c, ls, b);
    ls, t := SpawnNew(c, ls);
    ls := Join(c, ls, 1);
  }

  // ---------------------------------------------------------------- a dropped batch of two buffers

  /** Thread 0 will drop the batch of its epoch, and thread 1, between two events, took the
      last buffer of it. */
  ghost predicate SecondTookLast(c: Config, s: State) {
    && WillSkip(c, s, 0) && |s.threads| == 2 && s.threads[1].pc.Ready?
    && s.sh.cells[1].ptr.Some? && s.threads[1].ref.events < |s.sh.bufs[s.threads[1].ref.logBuf].slots|
    && s.sh.allocatedBufs == [s.threads[0].ref.logBuf, s.threads[1].ref.logBuf]
    && s.threads[0].ref.logBuf != s.threads[1].ref.logBuf
  }

  /** The thread that fills its buffer is the only one but a second, that joins late. */
  lemma DropIsNear(c: Config, s: State)
    requires Basic(c, s) && Own(c, s) && s.fault.None? && |s.threads| == 2
    requires s.threads[0].pc.Full? && s.sh.cells[0].ptr.Some? && s.threads[1].pc.Ready?
    requires s.sh.activeWorkers >= c.maxWorkers
    requires var b := s.threads[1].ref.logBuf;
             s.sh.cells[1] == Cell(Some(b), Some(b)) && s.sh.allocatedBufs == [s.threads[0].ref.logBuf, b]
    ensures SecondTookLast(c, s) && s.threads[0].ref.events == LastIndex(c) + 1
  {
    FullIsCurrent(c, s, 0);
    LastIndexInside(c);
    assert ThreadOwn(c, s, 0) && ThreadOwn(c, s, 1);
    assert BufferOwn(c, s, s.threads[1].ref.logBuf);
  }

  /** Thread 0 logs, no worker is to spare, and thread 1 has just joined. */
  ghost predicate JustJoined(c: Config, s: State) {
    && s.fault.None? && |s.threads| == 2 && Logging(s, 0) && s.threads[1].pc.Ready?
    && |s.sh.cells| == 2 && s.sh.activeWorkers >= c.maxWorkers
    && s.threads[1].ref.events == 0 && !s.orphaned && s.sh.freeBufs == []
    && var b := s.threads[1].ref.logBuf;
       s.sh.cells[1] == Cell(Some(b), Some(b)) && s.sh.allocatedBufs == [s.threads[0].ref.logBuf, b]
  }

  lemma AtLimit(c: Config) returns (ls: seq<Label>)
    requires c.Valid()
    ensures Legal(c, ls) && DropFree(c, ls) && After(c, ls).fault.None? && |After(c, ls).threads| == 1
    ensures Logging(After(c, ls), 0) && After(c, ls).sh.activeWorkers >= c.maxWorkers
    ensures !After(c, ls).orphaned && After(c, ls).sh.freeBufs == []
    ensures After(c, ls).sh.allocatedBufs == [After(c, ls).threads[0].ref.logBuf]
  {
    var b;
    ls := SkipWitness.Start(c);
    ls, b := SkipWitness.ToLimit(c, ls, 0, 0);
  }

  lemma Latecomer(c: Config) returns (ls: seq<Label>)
    requires c.Valid()
    ensures Legal(c, ls) && DropFree(c, ls) && JustJoined(c, After(c, ls))
  {
    var t;
    ls := AtLimit(c);
    ls, t := SpawnNew(c, ls);
    ls := Join(c, ls, 1);
  }

  lemma Crowded(c: Config) returns (ls: seq<Label>)
    requires c.Valid()
    ensures Legal(c, ls) && DropFree(c, ls) && SecondTookLast(c, After(c, ls))
    ensures After(c, ls).threads[0].ref.events == LastIndex(c) + 1 && After(c, ls).threads[1].ref.events == 0
    ensures After(c, ls).sh.freeBufs == [] && !After(c, ls).orphaned
  {
    ls := Latecomer(c);
    LocalAt(c, ls, 0);
    LogOn(c, After(c, ls), 0);
    ls := FillAlone(c, ls, 0);
    BasicRun(c, ls);
    OwnRun(c, ls);
    DropIsNear(c, After(c, ls));
  }

  lemma SkipRun(c: Config, ls: seq<Label>, mem: seq<Word>) returns (ls': seq<Label>)
    requires Legal(c, ls) && WillSkip(c, After(c, ls), 0) && |mem| == c.Capacity()
    ensures Legal(c, ls') && After(c, ls') == SkipSequence(c, After(c, ls), 0, mem)
  {
    SkipThenAlloc(c, After(c, ls), 0, mem);
    SkipWitness.Extend(c, ls, TryInc(0));
    ls' := SwitchRun(c, ls + [TryInc(0)], mem);
  }

  lemma SwitchRun(c: Config, ls: seq<Label>, mem: seq<Word>) returns (ls': seq<Label>)
    requires Legal(c, ls) && After(c, ls).fault.None? && |After(c, ls).threads| > 0 && |mem| == c.Capacity()
    requires After(c, ls).threads[0].pc.Allocating? && After(c, ls).sh.cells[0].ptr.None?
    ensures var s := After(c, ls);
            && Legal(c, ls')
            && After(c, ls') == DoWriteBack(CallAlloc(c, s, 0, mem, Switching(NextBuffer(s.sh))), 0)
  {
    SkipWitness.Extend(c, ls, Alloc(0, mem));
    SkipWitness.Extend(c, ls + [Alloc(0, mem)], WriteBack(0));
    ls' := ls + [Alloc(0, mem)] + [WriteBack(0)];
  }

  /** There is a run without a fault on which two threads can write to one buffer. */
  lemma SharingCanArise(c: Config) returns (ls: seq<Label>, b: BufId)
    requires c.Valid()
    ensures Legal(c, ls) && After(c, ls).fault.None? && |After(c, ls).threads| == 2
    ensures CanReach(After(c, ls), 0, b) && CanReach(After(c, ls), 1, b)
  {
    ls := Crowded(c);
    var s, mem := After(c, ls), SkipWitness.Zeros(c.Capacity());
    b := LastTaken(s);
    LastOwner(c, s);
    SkipSafeIff(c, s, 0, mem);
    ls := SkipRun(c, ls, mem);
  }

  lemma LastOwner(c: Config, s: State)
    requires SecondTookLast(c, s)
    ensures LastTaken(s) < |s.sh.bufs| && s.sh.bufs[LastTaken(s)].threadId == 1
  {
    OwnerOfLast(c, s, 0);
    assert PointerOk(s, 1);
  }

  // ---------------------------------------------------------------- a bystander that fails

  /** Thread 1 goes through a call on a NULL pointer while its own buffer is next. */
  ghost predicate Doomed(s: State, b: BufId, pc: Pc) {
    && InRange(s) && s.fault.None? && |s.threads| == 2 && b < |s.sh.bufs|
    && s.sh.cells[1].ptr.None? && NextBuffer(s.sh) == b
    && s.threads[1].pc == pc && s.threads[1].ref.logBuf == b && s.threads[1].ref.events < |s.sh.bufs[b].slots|
  }

  lemma DropDooms(c: Config, s: State)
    requires SecondTookLast(c, s)
    ensures Enabled(c, s, TryInc(0)) && Doomed(Next(c, s, TryInc(0)), LastTaken(s), Ready)
  {
    SkipReturnsLast(c, s, 0);
    assert PointerOk(s, 1);
  }

  lemma DoomedLoad(c: Config, s: State, b: BufId)
    requires Doomed(s, b, Ready)
    ensures Enabled(c, s, LoadPtr(1, 0)) && Doomed(Next(c, s, LoadPtr(1, 0)), b, Loaded(0, None))
  {
  }

  lemma DoomedStore(c: Config, s: State, b: BufId)
    requires Doomed(s, b, Loaded(0, None))
    ensures Enabled(c, s, Store(1)) && Doomed(Next(c, s, Store(1)), b, Stored(0, None))
  {
  }

  lemma DoomedCount(c: Config, s: State, b: BufId)
    requires Doomed(s, b, Stored(0, None))
    ensures Enabled(c, s, Count(1)) && Doomed(Next(c, s, Count(1)), b, Allocating)
  {
  }

  lemma DoomedAlloc(c: Config, s: State, b: BufId, mem: seq<Word>)
    requires Doomed(s, b, Allocating) && |mem| == c.Capacity()
    ensures Enabled(c, s, Alloc(1, mem))
    ensures var s' := Next(c, s, Alloc(1, mem));
            && Enabled(c, s', WriteBack(1)) && s'.threads[1].pc.Switching?
            && DoWriteBack(s', 1).fault == Some(UpdateAssertion)
  {
  }

  lemma DoomedEvent(c: Config, ls: seq<Label>, b: BufId) returns (ls': seq<Label>)
    requires Legal(c, ls) && Doomed(After(c, ls), b, Ready)
    ensures ls <= ls' && Legal(c, ls') && Doomed(After(c, ls'), b, Allocating)
  {
    DoomedLoad(c, After(c, ls), b);
    SkipWitness.Extend(c, ls, LoadPtr(1, 0));
    ls' := ls + [LoadPtr(1, 0)];
    DoomedStore(c, After(c, ls'), b);
    SkipWitness.Extend(c, ls', Store(1));
    ls' := ls' + [Store(1)];
    DoomedCount(c, After(c, ls'), b);
    SkipWitness.Extend(c, ls', Count(1));
    ls' := ls' + [Count(1)];
  }

  lemma DoomedSwitch(c: Config, ls: seq<Label>, b: BufId) returns (ls': seq<Label>)
    requires Legal(c, ls) && Doomed(After(c, ls), b, Allocating)
    ensures ls <= ls' && Legal(c, ls') && ls' != [] && ls'[|ls'| - 1] == WriteBack(1)
    ensures After(c, ls').fault == Some(UpdateAssertion)
  {
    var l := Alloc(1, SkipWitness.Zeros(c.Capacity()));
    DoomedAlloc(c, After(c, ls), b, l.mem);
    SkipWitness.Extend(c, ls, l);
    SkipWitness.Extend(c, ls + [l], WriteBack(1));
    ls' := ls + [l] + [WriteBack(1)];
  }

  /** The assertion of updateLogBuffer fails in a thread that is not the coordinator, after
      the coordinator dropped a batch whose last buffer was not its own. */
  lemma BystanderCanFail(c: Config) returns (before: seq<Label>, ls: seq<Label>)
    requires c.Valid()
    ensures Legal(c, before) && DropFree(c, before) && SecondTookLast(c, After(c, before))
    ensures before <= ls && Legal(c, ls) && ls != [] && ls[|ls| - 1] == WriteBack(1)
    ensures After(c, ls).fault == Some(UpdateAssertion)
  {
    before := Crowded(c);
    var b := LastTaken(After(c, before));
    DropDooms(c, After(c, before));
    SkipWitness.Extend(c, before, TryInc(0));
    ls := DoomedEvent(c, before + [TryInc(0)], b);
    ls := DoomedSwitch(c, ls, b);
  }
}
