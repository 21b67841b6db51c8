/** Safety over whole runs: who can still write where, the code's assertions,
    and what a worker reads. */
module Safety {
  import opened Protocol
  import opened Bookkeeping
  import opened Ownership

  // ---------------------------------------------------------------- the states along a run

  lemma {:induction false} LegalPrefix(c: Config, ls: seq<Label>, i: nat)
    requires Legal(c, ls) && i <= |ls|
    ensures Legal(c, ls[..i])
  {
    if i == |ls| {
      assert ls[..i] == ls;
    } else {
      LegalPrefix(c, ls[..|ls| - 1], i);
      assert ls[..|ls| - 1][..i] == ls[..i];
    }
  }

  /** The state after the first `i` steps. */
  ghost function At(c: Config, ls: seq<Label>, i: nat): (s: State)
    requires Legal(c, ls) && i <= |ls|
    ensures InRange(s)
  {
    LegalPrefix(c, ls, i);
    After(c, ls[..i])
  }

  lemma AtStep(c: Config, ls: seq<Label>, i: nat)
    requires Legal(c, ls) && i < |ls|
    ensures Enabled(c, At(c, ls, i), ls[i]) && At(c, ls, i + 1) == Next(c, At(c, ls, i), ls[i])
  {
    LegalPrefix(c, ls, i + 1);
    assert ls[..i + 1][..i] == ls[..i];
  }

  lemma AtBasic(c: Config, ls: seq<Label>, i: nat)
    requires Legal(c, ls) && i <= |ls|
    ensures Basic(c, At(c, ls, i))
  {
    LegalPrefix(c, ls, i);
    BasicRun(c, ls[..i]);
  }

  lemma {:induction false} DroppedForever(c: Config, ls: seq<Label>, i: nat, j: nat)
    requires Legal(c, ls) && i <= j <= |ls| && At(c, ls, i).dropped
    ensures At(c, ls, j).dropped
    decreases j - i
  {
    if i < j {
      AtStep(c, ls, i);
      DropsStay(c, At(c, ls, i), ls[i]);
      DroppedForever(c, ls, i + 1, j);
    }
  }

  /** A run is drop-free when no successful tryIncEpoch on it found too many workers. */
  ghost predicate DropFree(c: Config, ls: seq<Label>)
    requires Legal(c, ls)
  {
    !After(c, ls).dropped
  }

  lemma AtOwn(c: Config, ls: seq<Label>, i: nat)
    requires c.Valid() && Legal(c, ls) && DropFree(c, ls) && i <= |ls|
    ensures Basic(c, At(c, ls, i)) && Own(c, At(c, ls, i))
  {
    LegalPrefix(c, ls, i);
    AtBasic(c, ls, i);
    assert ls[..|ls|] == ls;
    if At(c, ls, i).dropped { DroppedForever(c, ls, i, |ls|); }
    OwnRun(c, ls[..i]);
  }

  // ---------------------------------------------------------------- who can still write

  /** Thread `t` is able to reach buffer `b`: through its Ref while it is not closed,
      its pointer, its context, or the buffer it was just handed. */
  ghost predicate CanReach(s: State, t: ThreadId, b: BufId)
    requires |s.sh.cells| == |s.threads| && t < |s.threads|
  {
    !s.threads[t].pc.Exited? &&
    (|| LiveRef(s, t, b)
     || s.sh.cells[t].ptr == Some(b)
     || s.sh.cells[t].ctx == Some(b)
     || s.threads[t].pc == Acquired(Some(b))
     || (MidSwitch(s.threads[t].pc) && s.threads[t].pc.newBuf == b))
  }

  /** A worker has got past its wait for buffer `b`. */
  ghost predicate PastWait(s: State, b: BufId) {
    exists w | 0 <= w < |s.workers| :: PastWaitOf(s.workers[w], b)
  }

  ghost predicate PastWaitOf(wk: Worker, b: BufId) {
    match wk.pc
    case Waiting(i) => exists j | 0 <= j < i && j < |wk.batch| :: wk.batch[j] == b
    case Counting(_, _) => b in wk.batch
    case Finished(_) => false
  }

  lemma PastWaitClosed(c: Config, s: State, b: BufId)
    requires Basic(c, s) && Own(c, s) && PastWait(s, b)
    ensures b < |s.sh.bufs| && s.sh.bufs[b].closed
  {
    var w :| 0 <= w < |s.workers| && PastWaitOf(s.workers[w], b);
    assert WorkerOwn(s, w);
  }

  lemma ReachedIsOpen(c: Config, s: State, t: ThreadId, b: BufId)
    requires Basic(c, s) && Own(c, s) && t < |s.threads| && CanReach(s, t, b)
    ensures OwnedBy(s, b, t)
  {
    assert PointerOk(s, t) && ThreadOwn(c, s, t);
  }

  /** On a drop-free run, a buffer that is closed, free, or past a worker's wait is
      out of reach of every thread, and no two threads reach the same buffer. */
  lemma NoWriterLeft(c: Config, ls: seq<Label>, b: BufId, t: ThreadId, u: ThreadId)
    requires c.Valid() && Legal(c, ls) && DropFree(c, ls)
    requires var s := After(c, ls); b < |s.sh.bufs| && t < |s.threads| && u < |s.threads|
    ensures var s := After(c, ls);
            && (s.sh.bufs[b].closed || b in s.sh.freeBufs || PastWait(s, b) ==> !CanReach(s, t, b))
            && (CanReach(s, t, b) && CanReach(s, u, b) ==> t == u)
  {
    var s := After(c, ls);
    BasicRun(c, ls);
    OwnRun(c, ls);
    if PastWait(s, b) { PastWaitClosed(c, s, b); }
    if CanReach(s, t, b) { ReachedIsOpen(c, s, t, b); }
    if CanReach(s, u, b) { ReachedIsOpen(c, s, u, b); }
  }

  /** A Ref that is in scope, whether its buffer is closed or not. */
  predicate HasRefInScope(pc: Pc) {
    HoldsRef(pc) || pc.Detached?
  }

  /** Refs of two threads are on the same buffer only if one of them has closed it and is
      about to adopt its new one. */
  lemma RefsApart(c: Config, ls: seq<Label>, t: ThreadId, u: ThreadId)
    requires c.Valid() && Legal(c, ls) && DropFree(c, ls)
    requires t < |After(c, ls).threads| && u < |After(c, ls).threads| && t != u
    requires HasRefInScope(After(c, ls).threads[t].pc) && HasRefInScope(After(c, ls).threads[u].pc)
    requires After(c, ls).threads[t].ref.logBuf == After(c, ls).threads[u].ref.logBuf
    ensures After(c, ls).threads[t].pc.Detached? || After(c, ls).threads[u].pc.Detached?
  {
    var s := After(c, ls);
    if HoldsRef(s.threads[t].pc) && HoldsRef(s.threads[u].pc) {
      NoWriterLeft(c, ls, s.threads[t].ref.logBuf, t, u);
    }
  }

  // ---------------------------------------------------------------- what a worker reads is stable

  /** Worker `w` has not released buffer `b`, and its owner has closed it. */
  ghost predicate ClosedAndHeld(s: State, w: nat, b: BufId) {
    && w < |s.workers| && InFlight(s.workers[w]) && b in s.workers[w].batch
    && b < |s.sh.bufs| && s.sh.bufs[b].closed
  }

  lemma HeldStep(c: Config, s: State, l: Label, w: nat, b: BufId)
    requires Basic(c, s) && Own(c, s) && Enabled(c, s, l) && ClosedAndHeld(s, w, b)
    ensures var s' := Next(c, s, l);
            && s'.sh.bufs[b] == s.sh.bufs[b]
            && w < |s'.workers| && s'.workers[w].batch == s.workers[w].batch
            && (l != ReleaseBatch(w) ==> InFlight(s'.workers[w]))
            && (l == ReleaseBatch(w) ==> !InFlight(s'.workers[w]))
  {
    if l.Spawn? {
    } else if IsWorkerLabel(l) {
      HeldWorker(c, s, l, w, b);
    } else if IsQuiet(l) {
      assert Local(c, s, l.t);
      HeldQuiet(c, s, l, w, b);
    } else {
      HeldMonitor(c, s, l, w, b);
    }
  }

  lemma HeldQuiet(c: Config, s: State, l: Label, w: nat, b: BufId)
    requires Enabled(c, s, l) && ClosedAndHeld(s, w, b) && IsThreadLabel(l) && IsQuiet(l) && Local(c, s, l.t)
    ensures var s' := Next(c, s, l);
            s'.sh.bufs[b] == s.sh.bufs[b] && s'.workers == s.workers
  {
    LocalThread(c, s, l);
  }

  lemma HeldWorker(c: Config, s: State, l: Label, w: nat, b: BufId)
    requires InRange(s) && Enabled(c, s, l) && ClosedAndHeld(s, w, b) && IsWorkerLabel(l)
    ensures var s' := WorkerStep(c, s, l);
            && s'.sh.bufs == s.sh.bufs
            && w < |s'.workers| && s'.workers[w].batch == s.workers[w].batch
            && (l != ReleaseBatch(w) ==> InFlight(s'.workers[w]))
            && (l == ReleaseBatch(w) ==> !InFlight(s'.workers[w]))
  {
  }

  lemma HeldMonitor(c: Config, s: State, l: Label, w: nat, b: BufId)
    requires InRange(s) && Partition(s) && Enabled(c, s, l) && ClosedAndHeld(s, w, b)
    requires IsThreadLabel(l) && !IsQuiet(l)
    ensures var s' := Next(c, s, l);
            && s'.sh.bufs[b] == s.sh.bufs[b]
            && w < |s'.workers| && s'.workers[w].batch == s.workers[w].batch && InFlight(s'.workers[w])
  {
    NextBufferUnused(s);
  }

  /** From the time a buffer is closed until its worker releases it, nothing about it
      changes: neither its words, nor its count, owner, epoch or `closed`. */
  lemma {:induction false} WorkerReadsStable(c: Config, ls: seq<Label>, i: nat, j: nat, w: nat, b: BufId)
    requires c.Valid() && Legal(c, ls) && DropFree(c, ls) && i <= j <= |ls|
    requires ClosedAndHeld(At(c, ls, i), w, b)
    requires forall k | i <= k < j :: ls[k] != ReleaseBatch(w)
    ensures ClosedAndHeld(At(c, ls, j), w, b) && At(c, ls, j).sh.bufs[b] == At(c, ls, i).sh.bufs[b]
    decreases j - i
  {
    if i < j {
      AtOwn(c, ls, i);
      AtStep(c, ls, i);
      HeldStep(c, At(c, ls, i), ls[i], w, b);
      WorkerReadsStable(c, ls, i + 1, j, w, b);
    }
  }

  // ---------------------------------------------------------------- the assertions of the code

  /** `allocBuffer` finds the caller's pointer NULL whenever it is called: by
      getLogBufferRef, and in the slow path whether or not tryIncEpoch succeeded. */
  lemma {:induction false} AllocAssertionHolds(c: Config, ls: seq<Label>)
    requires Legal(c, ls)
    ensures After(c, ls).fault != Some(AllocAssertion)
  {
    if ls != [] {
      var s, l := After(c, ls[..|ls| - 1]), ls[|ls| - 1];
      BasicRun(c, ls[..|ls| - 1]);
      if l.Alloc? || l.AllocForRef? {
        AllocFindsNull(c, s, l);
        AllocNoFault(c, s, l);
      } else {
        OtherFaults(c, s, l);
      }
    }
  }

  lemma OtherFaults(c: Config, s: State, l: Label)
    requires InRange(s) && Enabled(c, s, l) && !(l.Alloc? || l.AllocForRef?)
    ensures Next(c, s, l).fault != Some(AllocAssertion)
  {
  }

  /** Only four kinds of step can fault. */
  lemma OtherStepsNoFault(c: Config, s: State, l: Label)
    requires InRange(s) && Enabled(c, s, l)
    requires !(l.Alloc? || l.AllocForRef? || l.WriteBack? || l.Store?)
    ensures Next(c, s, l).fault.None?
  {
  }

  lemma AllocNoFault(c: Config, s: State, l: Label)
    requires InRange(s) && Enabled(c, s, l) && (l.Alloc? || l.AllocForRef?) && s.sh.cells[l.t].ptr.None?
    ensures Next(c, s, l).fault.None?
  {
  }

  lemma RefNoFault(c: Config, s: State, l: Label)
    requires Enabled(c, s, l) && (l.WriteBack? || l.Store?) && Local(c, s, l.t)
    ensures Next(c, s, l).fault.None?
  {
    if l.WriteBack? { OwnWriteBack(c, s, l.t); } else { OwnStore(c, s, l.t); }
  }

  lemma NoFaultStep(c: Config, s: State, l: Label)
    requires Basic(c, s) && Own(c, s) && Enabled(c, s, l)
    ensures Next(c, s, l).fault.None?
  {
    if l.Alloc? || l.AllocForRef? {
      AllocFindsNull(c, s, l);
      AllocNoFault(c, s, l);
    } else if l.WriteBack? || l.Store? {
      assert Local(c, s, l.t);
      RefNoFault(c, s, l);
    } else {
      OtherStepsNoFault(c, s, l);
    }
  }

  /** On a drop-free run no assertion fails (`curBuf != logBuf` of updateLogBuffer
      included) and no event is stored past the end of a buffer. */
  lemma NoFault(c: Config, ls: seq<Label>)
    requires c.Valid() && Legal(c, ls) && DropFree(c, ls)
    ensures After(c, ls).fault.None?
  {
    if ls != [] {
      var i := |ls| - 1;
      AtOwn(c, ls, i);
      AtStep(c, ls, i);
      NoFaultStep(c, At(c, ls, i), ls[i]);
      assert ls[..|ls|] == ls;
    }
  }

  // ---------------------------------------------------------------- the bound of a buffer

  /** Every store lands at most at LastIndex, inside the storage; the deadline stays a
      multiple of the batch; and the end of the epoch is proposed exactly when the
      count reaches LastIndex + 1, across any number of Refs and buffer switches. */
  lemma FullExactly(c: Config, ls: seq<Label>, t: ThreadId)
    requires c.Valid() && Legal(c, ls) && DropFree(c, ls) && t < |After(c, ls).threads|
    ensures c.maxEvents - 1 <= LastIndex(c) <= c.maxEvents + c.batchSize - 2 < c.Capacity()
    ensures var th := After(c, ls).threads[t];
            && (HoldsRef(th.pc) ==> th.ref.events <= LastIndex(c) + 1)
            && (th.pc.Full? ==> th.ref.events == LastIndex(c) + 1)
            && (th.pc.Ready? || th.pc.Loaded? || th.pc.Stored? || th.pc.Dropping? ==>
                  && th.ref.events <= th.ref.nextRdtscTime <= LastIndex(c)
                  && th.ref.nextRdtscTime % c.batchSize == 0
                  && (th.ref.nextRdtscTime == c.batchSize || th.ref.nextRdtscTime - c.batchSize < th.ref.events))
  {
    OwnRun(c, ls);
    LastIndexInside(c);
    assert ThreadOwn(c, After(c, ls), t);
  }

  lemma SourceFullAt()
    ensures SOURCE_CONFIG.Valid() && LastIndex(SOURCE_CONFIG) + 1 == 10_000_001
  {
    assert 10_000_062 / 64 == 156_250;
  }
}
