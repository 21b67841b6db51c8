/** What the two hypotheses rule out: a run where a batch is skipped, and a Ref built
    anew on a NULL pointer. */
module Hazards {
  import opened Protocol
  import opened Bookkeeping
  import opened Ownership
  import opened Safety
  import opened Trace
  import opened Pool
  import opened Progress

  // ---------------------------------------------------------------- skipping a batch

  /** The coordinator, about to call tryIncEpoch, will find too many workers. */
  ghost predicate WillSkip(c: Config, s: State, t: ThreadId) {
    && Basic(c, s) && s.fault.None? && t < |s.threads| && s.threads[t].pc.Full?
    && IncOutcome(c, s.sh, s.threads[t].ref.logBuf).Skipped?
  }

  /** The buffer handed out last in the current epoch. */
  function LastTaken(s: State): BufId
    requires s.sh.allocatedBufs != []
  {
    s.sh.allocatedBufs[|s.sh.allocatedBufs| - 1]
  }

  /** Its call, followed at once by allocBuffer and the first statement of updateLogBuffer. */
  ghost function SkipSequence(c: Config, s: State, t: ThreadId, mem: seq<Word>): (s': State)
    requires WillSkip(c, s, t)
    ensures InRange(s')
  {
    SkipThenAlloc(c, s, t, mem);
    var s1 := DoTryInc(c, s, t);
    DoWriteBack(CallAlloc(c, s1, t, mem, Switching(NextBuffer(s1.sh))), t)
  }

  /** Skipping a batch puts it at the end of the pool. */
  lemma SkipReturnsLast(c: Config, s: State, t: ThreadId)
    requires WillSkip(c, s, t)
    ensures s.sh.allocatedBufs != [] && LastTaken(s) < |s.sh.bufs|
    ensures var s1 := DoTryInc(c, s, t);
            && s1.threads[t].pc == Allocating && s1.threads[t].ref == s.threads[t].ref
            && NextBuffer(s1.sh) == LastTaken(s) && s1.sh.cells[t].ptr.None?
            && s1.sh.bufs == s.sh.bufs && s1.fault.None? && |s1.threads| == |s.threads|
            && forall u | 0 <= u < |s.threads| && u != t ::
                 s1.threads[u] == s.threads[u] && s1.sh.cells[u].ctx == s.sh.cells[u].ctx
  {
    assert s.threads[t].ref.logBuf in s.sh.allocatedBufs;
    IncThread(c, s, t, t);
  }

  lemma SkipThenAlloc(c: Config, s: State, t: ThreadId, mem: seq<Word>)
    requires WillSkip(c, s, t)
    ensures s.sh.allocatedBufs != [] && LastTaken(s) < |s.sh.bufs|
    ensures var s1, last := DoTryInc(c, s, t), LastTaken(s);
            && s1.threads[t].pc == Allocating && NextBuffer(s1.sh) == last && s1.sh.cells[t].ptr.None?
            && var s2 := CallAlloc(c, s1, t, mem, Switching(last));
               && s2.threads[t].pc == Switching(last) && s2.threads[t].ref == s.threads[t].ref
               && s2.sh.cells[t] == Cell(Some(last), Some(last))
               && s2.fault.None? && |s2.threads| == |s.threads|
               && forall u | 0 <= u < |s.threads| && u != t ::
                    s2.threads[u] == s.threads[u] && s2.sh.cells[u].ctx == s.sh.cells[u].ctx
  {
    SkipReturnsLast(c, s, t);
  }

  lemma OwnerOfLast(c: Config, s: State, t: ThreadId)
    requires WillSkip(c, s, t) && s.sh.allocatedBufs != []
    ensures var last := LastTaken(s);
            && last < |s.sh.bufs|
            && var u := s.sh.bufs[last].threadId;
               && (u == t ==> last == s.threads[t].ref.logBuf)
               && (!s.threads[u].pc.Exited? ==> s.sh.cells[u].ctx == Some(last))
  {
    var u := s.sh.bufs[LastTaken(s)].threadId;
    assert PointerOk(s, t) && PointerOk(s, u);
  }

  /** A coordinator that drops a batch and switches at once: the assertion
      `curBuf != logBuf` fails exactly if its own buffer was the last one handed out in this
      epoch.  If it was not, it is handed the buffer of another thread, which can write to
      it as well unless it has exited.  Runs where others step in between are in Switches. */
  lemma SkipSafeIff(c: Config, s: State, t: ThreadId, mem: seq<Word>)
    requires WillSkip(c, s, t)
    ensures s.sh.allocatedBufs != [] && LastTaken(s) < |s.sh.bufs|
    ensures var s', last := SkipSequence(c, s, t, mem), LastTaken(s);
            var u := s.sh.bufs[last].threadId;
            if last == s.threads[t].ref.logBuf then s'.fault == Some(UpdateAssertion)
            else
              && s'.fault.None? && u != t && |s'.threads| == |s.threads|
              && CanReach(s', t, last)
              && (CanReach(s', u, last) <==> !s.threads[u].pc.Exited?)
  {
    SkipThenAlloc(c, s, t, mem);
    OwnerOfLast(c, s, t);
  }

  // ---------------------------------------------------------------- building a Ref on a NULL pointer

  /** Worker `w` waits for buffer `b`, which is open and out of every thread's reach. */
  ghost predicate Orphan(s: State, w: nat, b: BufId)
    requires |s.sh.cells| == |s.threads|
  {
    HeldBy(s, w, b) && Open(s, b) && forall t | 0 <= t < |s.threads| :: !CanReach(s, t, b)
  }

  /** getLogBufferRef orphans a buffer exactly if its thread had one before and finds its
      pointer NULL: that buffer is with a worker already and nobody will ever close it. */
  lemma RebuildOrphans(c: Config, s: State, l: Label)
    requires Basic(c, s) && Own(c, s) && Enabled(c, s, l) && l.AllocForRef?
    ensures var s', ctx := Next(c, s, l), s.sh.cells[l.t].ctx;
            && (s'.orphaned <==> s.orphaned || ctx.Some?)
            && (ctx.Some? ==> exists w :: Orphan(s', w, ctx.value))
  {
    AllocFindsNull(c, s, l);
    assert Local(c, s, l.t);
    var ctx := s.sh.cells[l.t].ctx;
    if ctx.Some? {
      ContextHeld(c, s, l.t);
      var w :| HeldBy(s, w, ctx.value);
      forall u | 0 <= u < |s.threads| && u != l.t ensures !CanReach(s, u, ctx.value) {
        if CanReach(s, u, ctx.value) { ReachedIsOpen(c, s, u, ctx.value); }
      }
      NextBufferUnused(s);
      AbandonContext(c, s, l, w);
    }
  }

  lemma ContextHeld(c: Config, s: State, t: ThreadId)
    requires Basic(c, s) && Own(c, s) && t < |s.threads| && !s.threads[t].pc.Exited?
    requires s.sh.cells[t].ptr.None? && s.sh.cells[t].ctx.Some?
    ensures exists w :: HeldBy(s, w, s.sh.cells[t].ctx.value)
  {
    var b := s.sh.cells[t].ctx.value;
    assert ThreadOwn(c, s, t);
    assert b !in s.sh.allocatedBufs;
    assert Held(s, b);
    var w :| 0 <= w < |s.workers| && InFlight(s.workers[w]) && b in s.workers[w].batch;
    assert HeldBy(s, w, b);
  }

  lemma AbandonContext(c: Config, s: State, l: Label, w: nat)
    requires InRange(s) && Enabled(c, s, l) && l.AllocForRef? && s.sh.cells[l.t].ptr.None?
    requires s.sh.cells[l.t].ctx.Some? && HeldBy(s, w, s.sh.cells[l.t].ctx.value)
    requires Open(s, s.sh.cells[l.t].ctx.value) && NextBuffer(s.sh) != s.sh.cells[l.t].ctx.value
    requires forall u | 0 <= u < |s.threads| && u != l.t :: !CanReach(s, u, s.sh.cells[l.t].ctx.value)
    ensures Orphan(Next(c, s, l), w, s.sh.cells[l.t].ctx.value)
  {
    var s', b := Next(c, s, l), s.sh.cells[l.t].ctx.value;
    forall u | 0 <= u < |s'.threads| ensures !CanReach(s', u, b) {
      if u != l.t { assert !CanReach(s, u, b); }
    }
  }

  lemma OrphanWorker(c: Config, s: State, l: Label, w: nat, b: BufId)
    requires InRange(s) && Partition(s) && Enabled(c, s, l) && Orphan(s, w, b) && l != ReleaseBatch(w)
    requires l.Spawn? || IsWorkerLabel(l)
    ensures Orphan(Next(c, s, l), w, b)
  {
    var s' := Next(c, s, l);
    forall u | 0 <= u < |s'.threads| ensures !CanReach(s', u, b) {
      if u < |s.threads| { assert !CanReach(s, u, b); }
    }
  }

  lemma OrphanQuiet(c: Config, s: State, l: Label, w: nat, b: BufId)
    requires Basic(c, s) && Enabled(c, s, l) && IsThreadLabel(l) && IsQuiet(l) && Orphan(s, w, b)
    ensures Orphan(Next(c, s, l), w, b)
  {
    var s' := Next(c, s, l);
    assert !CanReach(s, l.t, b);
    assert PointerOk(s, l.t) && LogsOk(s, l.t);
    LocalThread(c, s, l);
    OwnReach(c, s, l, b);
    forall u | 0 <= u < |s'.threads| ensures !CanReach(s', u, b) {
      assert !CanReach(s, u, b);
    }
  }

  /** A quiet step gives its thread no new way to a buffer. */
  lemma RefReach(c: Config, s: State, l: Label, b: BufId)
    requires InRange(s) && Enabled(c, s, l) && IsRefLabel(l) && IsQuiet(l) && !CanReach(s, l.t, b)
    ensures !CanReach(RefStep(c, s, l), l.t, b)
  {
  }

  lemma LogReach(c: Config, s: State, l: Label, b: BufId)
    requires InRange(s) && Enabled(c, s, l) && IsLogLabel(l) && IsQuiet(l) && !CanReach(s, l.t, b)
    ensures !CanReach(LogStep(c, s, l), l.t, b)
  {
  }

  lemma OwnReach(c: Config, s: State, l: Label, b: BufId)
    requires InRange(s) && Enabled(c, s, l) && IsThreadLabel(l) && IsQuiet(l) && !CanReach(s, l.t, b)
    ensures !CanReach(Next(c, s, l), l.t, b)
  {
    if IsRefLabel(l) { RefReach(c, s, l, b); } else { LogReach(c, s, l, b); }
  }

  lemma MonitorReach(c: Config, s: State, l: Label, u: ThreadId, b: BufId)
    requires InRange(s) && Enabled(c, s, l) && IsThreadLabel(l) && !IsQuiet(l)
    requires NextBuffer(s.sh) != b && u < |s.threads| && !CanReach(s, u, b)
    ensures u < |Next(c, s, l).threads| && !CanReach(Next(c, s, l), u, b)
  {
    if IsRefLabel(l) { RefMonitorReach(c, s, l, u, b); } else { LogMonitorReach(c, s, l, u, b); }
  }

  lemma RefMonitorReach(c: Config, s: State, l: Label, u: ThreadId, b: BufId)
    requires InRange(s) && Enabled(c, s, l) && IsRefLabel(l) && !IsQuiet(l)
    requires NextBuffer(s.sh) != b && u < |s.threads| && !CanReach(s, u, b)
    ensures u < |RefStep(c, s, l).threads| && !CanReach(RefStep(c, s, l), u, b)
  {
  }

  lemma LogMonitorReach(c: Config, s: State, l: Label, u: ThreadId, b: BufId)
    requires InRange(s) && Enabled(c, s, l) && IsLogLabel(l) && !IsQuiet(l)
    requires NextBuffer(s.sh) != b && u < |s.threads| && !CanReach(s, u, b)
    ensures u < |LogStep(c, s, l).threads| && !CanReach(LogStep(c, s, l), u, b)
  {
  }

  lemma RefMonitorHolds(c: Config, s: State, l: Label, w: nat, b: BufId)
    requires InRange(s) && Enabled(c, s, l) && IsRefLabel(l) && !IsQuiet(l)
    requires NextBuffer(s.sh) != b && HeldBy(s, w, b) && Open(s, b) && !CanReach(s, l.t, b)
    ensures HeldBy(RefStep(c, s, l), w, b) && Open(RefStep(c, s, l), b)
  {
  }

  lemma LogMonitorHolds(c: Config, s: State, l: Label, w: nat, b: BufId)
    requires InRange(s) && Enabled(c, s, l) && IsLogLabel(l) && !IsQuiet(l)
    requires NextBuffer(s.sh) != b && HeldBy(s, w, b) && Open(s, b) && b !in s.sh.allocatedBufs
    ensures HeldBy(LogStep(c, s, l), w, b) && Open(LogStep(c, s, l), b)
  {
  }

  lemma OrphanMonitor(c: Config, s: State, l: Label, w: nat, b: BufId)
    requires InRange(s) && Partition(s) && Enabled(c, s, l) && IsThreadLabel(l) && !IsQuiet(l) && Orphan(s, w, b)
    ensures Orphan(Next(c, s, l), w, b)
  {
    var s' := Next(c, s, l);
    NextBufferUnused(s);
    HeldNotFree(s, w, b);
    if IsRefLabel(l) { RefMonitorHolds(c, s, l, w, b); } else { LogMonitorHolds(c, s, l, w, b); }
    NewThread(c, s, l);
    forall u | 0 <= u < |s'.threads| ensures !CanReach(s', u, b) {
      MonitorReach(c, s, l, u, b);
    }
  }

  // What a worker has waited for stays closed, on every run.

  ghost predicate WaitOk(s: State, w: nat)
    requires InRange(s) && w < |s.workers|
  {
    var wk := s.workers[w];
    match wk.pc
    case Waiting(i) => forall j | 0 <= j < i && j < |wk.batch| :: s.sh.bufs[wk.batch[j]].closed
    case Counting(_, _) => forall j | 0 <= j < |wk.batch| :: s.sh.bufs[wk.batch[j]].closed
    case Finished(_) => true
  }

  lemma WorkerWaits(c: Config, s: State, l: Label, w: nat)
    requires InRange(s) && Enabled(c, s, l) && IsWorkerLabel(l) && w < |s.workers| && WaitOk(s, w)
    ensures w < |WorkerStep(c, s, l).workers| && WaitOk(WorkerStep(c, s, l), w)
  {
  }

  lemma OthersWait(c: Config, s: State, l: Label, w: nat)
    requires InRange(s) && Partition(s) && Enabled(c, s, l) && !IsWorkerLabel(l) && w < |s.workers| && WaitOk(s, w)
    requires w < |Next(c, s, l).workers| && Next(c, s, l).workers[w] == s.workers[w]
    ensures WaitOk(Next(c, s, l), w)
  {
    var wk := s.workers[w];
    if InFlight(wk) {
      forall j | 0 <= j < |wk.batch| && s.sh.bufs[wk.batch[j]].closed
        ensures Next(c, s, l).sh.bufs[wk.batch[j]].closed
      {
        HeldKept(c, s, l, w, wk.batch[j]);
      }
    }
  }

  lemma KeepsWorkers(c: Config, s: State, l: Label)
    requires InRange(s) && Enabled(c, s, l) && !IsWorkerLabel(l)
    ensures |s.workers| <= |Next(c, s, l).workers| <= |s.workers| + 1
    ensures forall w | 0 <= w < |s.workers| :: Next(c, s, l).workers[w] == s.workers[w]
    ensures |Next(c, s, l).workers| > |s.workers| ==> Next(c, s, l).workers[|s.workers|].pc == Waiting(0)
  {
    if IsLogLabel(l) { LogKeepsWorkers(c, s, l); }
  }

  lemma LogKeepsWorkers(c: Config, s: State, l: Label)
    requires InRange(s) && Enabled(c, s, l) && IsLogLabel(l)
    ensures |s.workers| <= |LogStep(c, s, l).workers| <= |s.workers| + 1
    ensures forall w | 0 <= w < |s.workers| :: LogStep(c, s, l).workers[w] == s.workers[w]
    ensures |LogStep(c, s, l).workers| > |s.workers| ==> LogStep(c, s, l).workers[|s.workers|].pc == Waiting(0)
  {
  }

  lemma WaitedStep(c: Config, s: State, l: Label, w: nat)
    requires InRange(s) && Partition(s) && Enabled(c, s, l) && w < |Next(c, s, l).workers|
    requires w < |s.workers| ==> WaitOk(s, w)
    ensures WaitOk(Next(c, s, l), w)
  {
    if IsWorkerLabel(l) {
      WorkerWaits(c, s, l, w);
    } else {
      KeepsWorkers(c, s, l);
      if w < |s.workers| { OthersWait(c, s, l, w); }
    }
  }

  lemma {:induction false} WaitedRun(c: Config, ls: seq<Label>, w: nat)
    requires Legal(c, ls) && w < |After(c, ls).workers|
    ensures WaitOk(After(c, ls), w)
  {
    if ls != [] {
      var before := ls[..|ls| - 1];
      if w < |After(c, before).workers| { WaitedRun(c, before, w); }
      BasicRun(c, before);
      WaitedStep(c, After(c, before), ls[|ls| - 1], w);
    }
  }

  lemma NotReleased(c: Config, s: State, w: nat, b: BufId)
    requires InRange(s) && Orphan(s, w, b) && WaitOk(s, w)
    ensures !Enabled(c, s, ReleaseBatch(w))
  {
  }

  lemma OrphanStep(c: Config, s: State, l: Label, w: nat, b: BufId)
    requires Basic(c, s) && Enabled(c, s, l) && Orphan(s, w, b) && WaitOk(s, w)
    ensures Orphan(Next(c, s, l), w, b)
  {
    if l.Spawn? || IsWorkerLabel(l) {
      NotReleased(c, s, w, b);
      OrphanWorker(c, s, l, w, b);
    } else if IsQuiet(l) {
      OrphanQuiet(c, s, l, w, b);
    } else {
      OrphanMonitor(c, s, l, w, b);
    }
  }

  lemma OrphanOne(c: Config, ls: seq<Label>, i: nat, w: nat, b: BufId)
    requires Legal(c, ls) && i < |ls| && Orphan(At(c, ls, i), w, b)
    ensures Orphan(At(c, ls, i + 1), w, b)
  {
    LegalPrefix(c, ls, i);
    AtBasic(c, ls, i);
    WaitedRun(c, ls[..i], w);
    AtStep(c, ls, i);
    OrphanStep(c, At(c, ls, i), ls[i], w, b);
  }

  /** A worker never gets past an orphan: whatever happens, it holds the open buffer,
      and with it the batch and its place among the active workers, for ever. */
  lemma {:induction false} OrphanWaitsForever(c: Config, ls: seq<Label>, i: nat, j: nat, w: nat, b: BufId)
    requires Legal(c, ls) && i <= j <= |ls| && Orphan(At(c, ls, i), w, b)
    ensures Orphan(At(c, ls, j), w, b)
    decreases j - i
  {
    if i < j {
      OrphanOne(c, ls, i, w, b);
      OrphanWaitsForever(c, ls, i + 1, j, w, b);
    }
  }

  // ---------------------------------------------------------------- workers that are stuck

  ghost predicate Stuck(s: State, w: nat)
    requires |s.sh.cells| == |s.threads|
  {
    exists b :: Orphan(s, w, b)
  }

  /** As many workers are in flight as any set of them has members. */
  lemma {:induction false} CountAtLeast(ws: seq<Worker>, some: set<nat>)
    requires forall w | w in some :: w < |ws| && InFlight(ws[w])
    ensures InFlightCount(ws) >= |some|
  {
    if ws == [] {
      assert some == {};
    } else {
      var n := |ws| - 1;
      var rest := some - {n};
      CountAtLeast(ws[..n], rest);
      if n in some { assert some == rest + {n}; } else { assert some == rest; }
    }
  }

  /** Stuck workers keep their places for ever; once every place is taken by one, each
      epoch that ends from then on has its batch dropped. */
  lemma StuckWorkersDrop(c: Config, ls: seq<Label>, i: nat, j: nat, some: set<nat>)
    requires Legal(c, ls) && i <= j <= |ls| && forall w | w in some :: Stuck(At(c, ls, i), w)
    ensures At(c, ls, j).sh.activeWorkers >= |some|
    ensures j < |ls| && ls[j].TryInc? && |some| >= c.maxWorkers ==>
              && ls[j].t < |At(c, ls, j).threads| && HoldsRef(At(c, ls, j).threads[ls[j].t].pc)
              && !IncOutcome(c, At(c, ls, j).sh, At(c, ls, j).threads[ls[j].t].ref.logBuf).Spawned?
  {
    var s := At(c, ls, j);
    forall w | w in some ensures w < |s.workers| && InFlight(s.workers[w]) {
      var b :| Orphan(At(c, ls, i), w, b);
      OrphanWaitsForever(c, ls, i, j, w, b);
    }
    CountAtLeast(s.workers, some);
    AtBasic(c, ls, j);
    if j < |ls| { AtStep(c, ls, j); }
  }
}
