/** Progress of the wait loop of a worker, and how stale a revoked buffer can get. */
module Progress {
  import opened Protocol
  import opened Bookkeeping
  import opened Ownership
  import opened Pool
  import opened Safety
  import opened Trace

  // ---------------------------------------------------------------- the open buffers of a batch

  ghost predicate Open(s: State, b: BufId) {
    b < |s.sh.bufs| && !s.sh.bufs[b].closed && b !in s.sh.freeBufs
  }

  /** The owner of an open buffer is alive and is either on it (its context) or about
      to write back its count and close it. */
  ghost predicate OpenOk(s: State, b: BufId)
    requires InRange(s) && b < |s.sh.bufs|
  {
    var t := s.sh.bufs[b].threadId;
    && !s.threads[t].pc.Exited?
    && (s.sh.cells[t].ctx == Some(b) || LiveRef(s, t, b))
  }

  /** No buffer was orphaned, so every open one is still on its owner's way. */
  ghost predicate Attended(s: State)
    requires InRange(s)
  {
    !s.orphaned && forall b | 0 <= b < |s.sh.bufs| && Open(s, b) :: OpenOk(s, b)
  }

  lemma LocalOpen(c: Config, s: State, l: Label, b: BufId)
    requires Enabled(c, s, l) && IsQuiet(l) && IsThreadLabel(l) && Local(c, s, l.t)
    requires OnlyTouches(s, Next(c, s, l), l.t, Touched(s, l))
    requires b < |s.sh.bufs| && OpenOk(s, b) && Open(Next(c, s, l), b)
    ensures OpenOk(Next(c, s, l), b)
  {
    var t := l.t;
    if s.sh.bufs[b].threadId == t && s.sh.cells[t].ctx != Some(b) {
      SwitchKeepsOld(c, s, l);
    }
  }

  /** The old buffer of a switch stays under the Ref until it is closed. */
  lemma SwitchKeepsOld(c: Config, s: State, l: Label)
    requires Enabled(c, s, l) && IsQuiet(l) && IsThreadLabel(l) && Local(c, s, l.t)
    requires HoldsRef(s.threads[l.t].pc) && s.sh.cells[l.t].ctx != Some(s.threads[l.t].ref.logBuf)
    ensures var t, b, s' := l.t, s.threads[l.t].ref.logBuf, Next(c, s, l);
            LiveRef(s', t, b) || s'.sh.bufs[b].closed
  {
  }

  lemma RefMonitorOpen(c: Config, s: State, l: Label, b: BufId)
    requires InRange(s) && Enabled(c, s, l) && (l.AllocForRef? || l.Exit?) && !RefStep(c, s, l).orphaned
    requires PointerOk(s, l.t) && (s.sh.cells[l.t].ctx.Some? ==> Open(s, s.sh.cells[l.t].ctx.value))
    requires l.AllocForRef? ==> s.sh.cells[l.t].ptr.None?
    requires b < |s.sh.bufs| && Open(s, b) && OpenOk(s, b) && Open(RefStep(c, s, l), b)
    ensures OpenOk(RefStep(c, s, l), b)
  {
    if s.sh.freeBufs != [] { assert NextBuffer(s.sh) in s.sh.freeBufs; }
  }

  lemma LogMonitorOpen(c: Config, s: State, l: Label, b: BufId)
    requires InRange(s) && Enabled(c, s, l) && (l.Alloc? || l.TryInc?)
    requires PointerOk(s, l.t) && (l.Alloc? ==> s.sh.cells[l.t].ptr.None?)
    requires b < |s.sh.bufs| && Open(s, b) && OpenOk(s, b) && Open(LogStep(c, s, l), b)
    ensures OpenOk(LogStep(c, s, l), b)
  {
    if s.sh.freeBufs != [] { assert NextBuffer(s.sh) in s.sh.freeBufs; }
  }

  lemma MonitorOpen(c: Config, s: State, l: Label, b: BufId)
    requires InRange(s) && Enabled(c, s, l) && IsThreadLabel(l) && !IsQuiet(l) && !Next(c, s, l).orphaned
    requires PointerOk(s, l.t) && (s.sh.cells[l.t].ctx.Some? ==> Open(s, s.sh.cells[l.t].ctx.value))
    requires (l.Alloc? || l.AllocForRef?) ==> s.sh.cells[l.t].ptr.None?
    requires b < |s.sh.bufs| && Open(s, b) && OpenOk(s, b) && Open(Next(c, s, l), b)
    ensures OpenOk(Next(c, s, l), b)
  {
    if IsRefLabel(l) { RefMonitorOpen(c, s, l, b); } else { LogMonitorOpen(c, s, l, b); }
  }

  /** A buffer is opened by allocBuffer alone, for its caller. */
  lemma OpenedByAlloc(c: Config, s: State, l: Label, b: BufId)
    requires InRange(s) && Enabled(c, s, l) && b < |Next(c, s, l).sh.bufs|
    requires Open(Next(c, s, l), b) && !Open(s, b)
    requires l.TryInc? ==> IncOutcome(c, s.sh, s.threads[l.t].ref.logBuf) != Skipped
    ensures l.Alloc? || l.AllocForRef?
  {
  }

  lemma AllocOpens(c: Config, s: State, l: Label, b: BufId)
    requires InRange(s) && Enabled(c, s, l) && (l.Alloc? || l.AllocForRef?)
    requires b < |Next(c, s, l).sh.bufs| && Open(Next(c, s, l), b) && !Open(s, b)
    requires forall x | x in s.sh.freeBufs :: s.sh.bufs[x].closed
    ensures OpenOk(Next(c, s, l), b)
  {
  }

  lemma WorkerOpen(c: Config, s: State, l: Label, b: BufId)
    requires InRange(s) && Enabled(c, s, l) && (l.Spawn? || IsWorkerLabel(l)) && b < |s.sh.bufs|
    requires Open(Next(c, s, l), b) && OpenOk(s, b)
    ensures Open(s, b) && OpenOk(Next(c, s, l), b)
  {
  }

  lemma AttendedStep(c: Config, s: State, l: Label)
    requires Basic(c, s) && Own(c, s) && Attended(s) && Enabled(c, s, l)
    requires !Next(c, s, l).dropped && !Next(c, s, l).orphaned
    ensures Attended(Next(c, s, l))
  {
    var s' := Next(c, s, l);
    forall b | 0 <= b < |s'.sh.bufs| && Open(s', b) ensures OpenOk(s', b) {
      OpenStep(c, s, l, b);
    }
  }

  lemma ThreadOpen(c: Config, s: State, l: Label, b: BufId)
    requires IsThreadLabel(l) && Enabled(c, s, l) && Local(c, s, l.t) && !Next(c, s, l).orphaned
    requires (l.Alloc? || l.AllocForRef?) ==> s.sh.cells[l.t].ptr.None?
    requires b < |s.sh.bufs| && Open(s, b) && OpenOk(s, b) && Open(Next(c, s, l), b)
    ensures OpenOk(Next(c, s, l), b)
  {
    if IsQuiet(l) {
      LocalThread(c, s, l);
      LocalOpen(c, s, l, b);
    } else {
      MonitorOpen(c, s, l, b);
    }
  }

  lemma OpenStep(c: Config, s: State, l: Label, b: BufId)
    requires Basic(c, s) && Own(c, s) && Attended(s) && Enabled(c, s, l)
    requires !Next(c, s, l).dropped && !Next(c, s, l).orphaned
    requires b < |Next(c, s, l).sh.bufs| && Open(Next(c, s, l), b)
    ensures OpenOk(Next(c, s, l), b)
  {
    if !Open(s, b) {
      SkipsDrop(c, s, l);
      OpenedByAlloc(c, s, l, b);
      forall x | x in s.sh.freeBufs ensures s.sh.bufs[x].closed {
        assert BufferOwn(c, s, x);
      }
      AllocOpens(c, s, l, b);
    } else if l.Spawn? || IsWorkerLabel(l) {
      WorkerOpen(c, s, l, b);
    } else {
      assert Local(c, s, l.t);
      if l.Alloc? || l.AllocForRef? { AllocFindsNull(c, s, l); }
      ThreadOpen(c, s, l, b);
    }
  }

  lemma OrphansStay(c: Config, s: State, l: Label)
    requires InRange(s) && Enabled(c, s, l) && s.orphaned
    ensures Next(c, s, l).orphaned
  {
  }

  lemma {:induction false} OrphanedForever(c: Config, ls: seq<Label>, i: nat, j: nat)
    requires Legal(c, ls) && i <= j <= |ls| && At(c, ls, i).orphaned
    ensures At(c, ls, j).orphaned
    decreases j - i
  {
    if i < j {
      AtStep(c, ls, i);
      OrphansStay(c, At(c, ls, i), ls[i]);
      OrphanedForever(c, ls, i + 1, j);
    }
  }

  /** A run is free of orphans when getLogBufferRef never replaces a buffer that its
      thread has not closed. */
  ghost predicate OrphanFree(c: Config, ls: seq<Label>)
    requires Legal(c, ls)
  {
    !After(c, ls).orphaned
  }

  lemma NotOrphaned(c: Config, ls: seq<Label>, i: nat)
    requires c.Valid() && Legal(c, ls) && DropFree(c, ls) && OrphanFree(c, ls) && i <= |ls|
    ensures Basic(c, At(c, ls, i)) && Own(c, At(c, ls, i)) && !At(c, ls, i).orphaned
  {
    AtOwn(c, ls, i);
    assert ls[..|ls|] == ls;
    if At(c, ls, i).orphaned { OrphanedForever(c, ls, i, |ls|); }
  }

  lemma AttendedOne(c: Config, ls: seq<Label>, i: nat)
    requires c.Valid() && Legal(c, ls) && DropFree(c, ls) && OrphanFree(c, ls) && i < |ls|
    requires Attended(At(c, ls, i))
    ensures Attended(At(c, ls, i + 1))
  {
    NotOrphaned(c, ls, i);
    NotOrphaned(c, ls, i + 1);
    AtStep(c, ls, i);
    AttendedStep(c, At(c, ls, i), ls[i]);
  }

  lemma {:induction false} AttendedFrom(c: Config, ls: seq<Label>, i: nat, j: nat)
    requires c.Valid() && Legal(c, ls) && DropFree(c, ls) && OrphanFree(c, ls) && i <= j <= |ls|
    requires Attended(At(c, ls, i))
    ensures Attended(At(c, ls, j))
    decreases j - i
  {
    if i < j {
      AttendedOne(c, ls, i);
      AttendedFrom(c, ls, i + 1, j);
    }
  }

  lemma AtAttended(c: Config, ls: seq<Label>, i: nat)
    requires c.Valid() && Legal(c, ls) && DropFree(c, ls) && OrphanFree(c, ls) && i <= |ls|
    ensures Basic(c, At(c, ls, i)) && Own(c, At(c, ls, i)) && Attended(At(c, ls, i))
  {
    NotOrphaned(c, ls, i);
    assert At(c, ls, 0) == INIT;
    AttendedFrom(c, ls, 0, i);
  }

  /** The open buffers of a batch in flight and the threads alive that are on one of them
      correspond one to one: a buffer is open exactly if its owner is alive and on it, and
      outside the middle of a switch "on it" means that it is the owner's context. */
  lemma OpenIffOwnerOnIt(c: Config, ls: seq<Label>, w: nat, i: nat)
    requires c.Valid() && Legal(c, ls) && DropFree(c, ls) && OrphanFree(c, ls)
    requires var s := After(c, ls); w < |s.workers| && InFlight(s.workers[w]) && i < |s.workers[w].batch|
    ensures var s := After(c, ls);
            var b, t := s.workers[w].batch[i], s.workers[w].owners[i];
            && (!s.sh.bufs[b].closed <==> OnBuffer(s, t, b))
            && (OnBuffer(s, t, b) && !MidSwitch(s.threads[t].pc) ==> s.sh.cells[t].ctx == Some(b))
            && (forall u | 0 <= u < |s.threads| && OnBuffer(s, u, b) :: u == t)
            && (forall j | 0 <= j < |s.workers[w].owners| && j != i :: s.workers[w].owners[j] != t)
  {
    assert ls[..|ls|] == ls;
    AtAttended(c, ls, |ls|);
    OpenIffOnIt(c, After(c, ls), w, i);
  }

  lemma OpenIffOnIt(c: Config, s: State, w: nat, i: nat)
    requires Basic(c, s) && Own(c, s) && Attended(s)
    requires w < |s.workers| && InFlight(s.workers[w]) && i < |s.workers[w].batch|
    ensures var b, t := s.workers[w].batch[i], s.workers[w].owners[i];
            && (!s.sh.bufs[b].closed <==> OnBuffer(s, t, b))
            && (OnBuffer(s, t, b) && !MidSwitch(s.threads[t].pc) ==> s.sh.cells[t].ctx == Some(b))
            && (forall u | 0 <= u < |s.threads| && OnBuffer(s, u, b) :: u == t)
            && (forall j | 0 <= j < |s.workers[w].owners| && j != i :: s.workers[w].owners[j] != t)
  {
    var b, t := s.workers[w].batch[i], s.workers[w].owners[i];
    assert WorkerOk(s, w) && b in s.workers[w].batch;
    BatchBuffer(c, s, w, i);
    forall u | 0 <= u < |s.threads| && OnBuffer(s, u, b)
      ensures u == t && !s.sh.bufs[b].closed && (!MidSwitch(s.threads[u].pc) ==> s.sh.cells[u].ctx == Some(b))
    {
      assert Local(c, s, u);
      OnBufferOwned(c, s, u, b);
    }
  }

  lemma BatchBuffer(c: Config, s: State, w: nat, i: nat)
    requires InRange(s) && Partition(s) && Attended(s) && w < |s.workers| && WorkerOk(s, w)
    requires InFlight(s.workers[w]) && i < |s.workers[w].batch|
    ensures var b, t := s.workers[w].batch[i], s.workers[w].owners[i];
            && s.sh.bufs[b].threadId == t
            && (!s.sh.bufs[b].closed ==> OnBuffer(s, t, b))
  {
    var b := s.workers[w].batch[i];
    assert b in s.workers[w].batch;
    if !s.sh.bufs[b].closed { assert Open(s, b); }
  }

  lemma OnBufferOwned(c: Config, s: State, u: ThreadId, b: BufId)
    requires Local(c, s, u) && OnBuffer(s, u, b)
    ensures OwnedBy(s, b, u) && (!MidSwitch(s.threads[u].pc) ==> s.sh.cells[u].ctx == Some(b))
  {
  }

  ghost predicate OnBuffer(s: State, t: ThreadId, b: BufId)
    requires |s.sh.cells| == |s.threads| && t < |s.threads|
  {
    !s.threads[t].pc.Exited? && (s.sh.cells[t].ctx == Some(b) || LiveRef(s, t, b))
  }

  // ---------------------------------------------------------------- the rank of an open buffer

  /** How many more steps of its own a thread can take before it closes the revoked
      buffer that is its context. */
  function ContextRank(pc: Pc): nat {
    match pc
    case Acquired(None) => 1
    case Idle => 2
    case Dropping => 3
    case Allocating => 3
    case Full => 4
    case Stored(_, None) => 4
    case Loaded(_, None) => 5
    case Ready => 6
    case Stored(_, Some(_)) => 7
    case Acquired(Some(_)) => 7
    case Detached(_) => 7
    case Loaded(_, Some(_)) => 8
    case WroteBack(_) => 8
    case Switching(_) => 9
    case Exited => 0
  }

  /** ... and before it closes the buffer it is just leaving. */
  function LeavingRank(pc: Pc): nat {
    match pc
    case WroteBack(_) => 1
    case Switching(_) => 2
    case _ => 0
  }

  ghost function Rank(s: State, b: BufId): nat
    requires InRange(s)
  {
    if !Open(s, b) then 0
    else
      var t := s.sh.bufs[b].threadId;
      if s.sh.cells[t].ctx == Some(b) then ContextRank(s.threads[t].pc) else LeavingRank(s.threads[t].pc)
  }

  /** The buffer has been taken away from its owner: it is not the current pointer. */
  ghost predicate Revoked(s: State, b: BufId)
    requires InRange(s) && b < |s.sh.bufs|
  {
    s.sh.cells[s.sh.bufs[b].threadId].ptr != Some(b)
  }

  /** A step by the owner of an open, revoked buffer. */
  ghost predicate OwnersStep(c: Config, s: State, l: Label, b: BufId) {
    && IsThreadLabel(l) && Enabled(c, s, l) && Local(c, s, l.t)
    && b < |s.sh.bufs| && Open(s, b) && OpenOk(s, b) && Revoked(s, b) && s.sh.bufs[b].threadId == l.t
    && !Next(c, s, l).orphaned && Next(c, s, l).fault.None?
    && (l.TryInc? ==> IncOutcome(c, s.sh, s.threads[l.t].ref.logBuf) != Skipped)
  }

  predicate IsSwitchLabel(l: Label) {
    l.WriteBack? || l.Close? || l.Adopt?
  }

  lemma OwnerRefStep(c: Config, s: State, l: Label, b: BufId)
    requires OwnersStep(c, s, l, b) && IsRefLabel(l)
    ensures Rank(RefStep(c, s, l), b) < Rank(s, b)
  {
  }

  lemma OwnerSwitchStep(c: Config, s: State, l: Label, b: BufId)
    requires OwnersStep(c, s, l, b) && IsSwitchLabel(l)
    ensures Rank(LogStep(c, s, l), b) < Rank(s, b)
  {
  }

  lemma OwnerLogStep(c: Config, s: State, l: Label, b: BufId)
    requires OwnersStep(c, s, l, b) && IsLogLabel(l) && !IsSwitchLabel(l)
    ensures Rank(LogStep(c, s, l), b) < Rank(s, b)
  {
  }

  // ---------------------------------------------------------------- the measure of the wait loop

  /** Worker `w` waits for or reads buffer `b`. */
  ghost predicate HeldBy(s: State, w: nat, b: BufId) {
    w < |s.workers| && InFlight(s.workers[w]) && b in s.workers[w].batch
  }

  lemma HeldNotFree(s: State, w: nat, b: BufId)
    requires InRange(s) && Partition(s) && HeldBy(s, w, b)
    ensures b < |s.sh.bufs| && b !in s.sh.freeBufs && b !in s.sh.allocatedBufs
  {
  }

  lemma HeldIsRevoked(c: Config, s: State, w: nat, b: BufId)
    requires Basic(c, s) && HeldBy(s, w, b)
    ensures b < |s.sh.bufs| && b !in s.sh.freeBufs
    ensures !s.threads[s.sh.bufs[b].threadId].pc.Exited? ==> Revoked(s, b)
  {
    HeldNotFree(s, w, b);
    assert PointerOk(s, s.sh.bufs[b].threadId);
  }

  /** A step of anybody else leaves thread, context and buffer alone. */
  ghost predicate Unmoved(s: State, s': State, b: BufId)
    requires InRange(s) && InRange(s') && b < |s.sh.bufs|
  {
    var t := s.sh.bufs[b].threadId;
    && b < |s'.sh.bufs| && s'.sh.bufs[b] == s.sh.bufs[b] && t < |s'.threads|
    && s'.threads[t] == s.threads[t] && s'.sh.cells[t].ctx == s.sh.cells[t].ctx
  }

  lemma WorkerBystander(c: Config, s: State, l: Label, b: BufId)
    requires InRange(s) && Enabled(c, s, l) && b < |s.sh.bufs| && (l.Spawn? || IsWorkerLabel(l))
    ensures Unmoved(s, Next(c, s, l), b)
  {
  }

  lemma RefMonitorBystander(c: Config, s: State, l: Label, b: BufId)
    requires InRange(s) && Enabled(c, s, l) && b < |s.sh.bufs| && b !in s.sh.freeBufs
    requires (l.AllocForRef? || l.Exit?) && l.t != s.sh.bufs[b].threadId && s.sh.cells[l.t].ctx != Some(b)
    ensures Unmoved(s, RefStep(c, s, l), b)
  {
    if s.sh.freeBufs != [] { assert NextBuffer(s.sh) in s.sh.freeBufs; }
  }

  lemma LogMonitorBystander(c: Config, s: State, l: Label, b: BufId)
    requires InRange(s) && Enabled(c, s, l) && b < |s.sh.bufs| && b !in s.sh.freeBufs
    requires (l.Alloc? || l.TryInc?) && l.t != s.sh.bufs[b].threadId
    ensures Unmoved(s, LogStep(c, s, l), b)
  {
    if s.sh.freeBufs != [] { assert NextBuffer(s.sh) in s.sh.freeBufs; }
  }

  lemma MonitorBystander(c: Config, s: State, l: Label, b: BufId)
    requires InRange(s) && Enabled(c, s, l) && b < |s.sh.bufs| && b !in s.sh.freeBufs
    requires IsThreadLabel(l) && !IsQuiet(l) && l.t != s.sh.bufs[b].threadId
    requires s.sh.cells[l.t].ctx != Some(b)
    ensures Unmoved(s, Next(c, s, l), b)
  {
    if IsRefLabel(l) { RefMonitorBystander(c, s, l, b); } else { LogMonitorBystander(c, s, l, b); }
  }

  lemma Bystander(c: Config, s: State, l: Label, b: BufId)
    requires InRange(s) && Enabled(c, s, l) && b < |s.sh.bufs| && b !in s.sh.freeBufs
    requires IsThreadLabel(l) ==> Local(c, s, l.t) && l.t != s.sh.bufs[b].threadId
    requires l.Exit? ==> s.sh.cells[l.t].ctx != Some(b)
    requires l.Alloc? || l.AllocForRef? || l.TryInc? ==> s.sh.cells[l.t].ctx != Some(b)
    ensures Unmoved(s, Next(c, s, l), b)
  {
    if l.Spawn? || IsWorkerLabel(l) {
      WorkerBystander(c, s, l, b);
    } else if IsQuiet(l) {
      LocalThread(c, s, l);
    } else {
      MonitorBystander(c, s, l, b);
    }
  }

  lemma RankStep(c: Config, s: State, l: Label, w: nat, b: BufId)
    requires Basic(c, s) && Own(c, s) && Attended(s) && Enabled(c, s, l)
    requires !Next(c, s, l).dropped && !Next(c, s, l).orphaned && Partition(Next(c, s, l))
    requires HeldBy(s, w, b) && HeldBy(Next(c, s, l), w, b)
    ensures Rank(Next(c, s, l), b) <= Rank(s, b)
    ensures IsThreadLabel(l) && Open(s, b) && l.t == s.sh.bufs[b].threadId ==> Rank(Next(c, s, l), b) < Rank(s, b)
  {
    HeldIsRevoked(c, s, w, b);
    if IsThreadLabel(l) && l.t == s.sh.bufs[b].threadId {
      if Open(s, b) {
        assert Local(c, s, l.t);
        NoFaultStep(c, s, l);
        SkipsDrop(c, s, l);
        OwnerStep(c, s, l, b);
      } else {
        HeldStep(c, s, l, w, b);
      }
    } else {
      OthersRank(c, s, l, w, b);
    }
  }

  lemma OthersRank(c: Config, s: State, l: Label, w: nat, b: BufId)
    requires Basic(c, s) && Own(c, s) && Enabled(c, s, l) && Partition(Next(c, s, l))
    requires HeldBy(s, w, b) && HeldBy(Next(c, s, l), w, b)
    requires IsThreadLabel(l) ==> l.t != s.sh.bufs[b].threadId
    ensures Rank(Next(c, s, l), b) == Rank(s, b)
  {
    if IsThreadLabel(l) { assert Local(c, s, l.t); }
    HeldNotFree(s, w, b);
    HeldNotFree(Next(c, s, l), w, b);
    Bystander(c, s, l, b);
    SameRank(s, Next(c, s, l), b);
  }

  lemma SameRank(s: State, s': State, b: BufId)
    requires InRange(s) && InRange(s') && b < |s.sh.bufs| && Unmoved(s, s', b)
    requires b !in s.sh.freeBufs && b !in s'.sh.freeBufs
    ensures Rank(s', b) == Rank(s, b)
  {
  }

  lemma OwnerStep(c: Config, s: State, l: Label, b: BufId)
    requires OwnersStep(c, s, l, b)
    ensures Rank(Next(c, s, l), b) < Rank(s, b)
  {
    if IsRefLabel(l) { OwnerRefStep(c, s, l, b); }
    else if IsSwitchLabel(l) { OwnerSwitchStep(c, s, l, b); }
    else { OwnerLogStep(c, s, l, b); }
  }

  ghost function SumRanks(s: State, batch: seq<BufId>): nat
    requires InRange(s)
  {
    if batch == [] then 0 else SumRanks(s, batch[..|batch| - 1]) + Rank(s, batch[|batch| - 1])
  }

  lemma {:induction false} RanksBounded(s: State, batch: seq<BufId>)
    requires InRange(s)
    ensures SumRanks(s, batch) <= 9 * |batch|
  {
    if batch != [] { RanksBounded(s, batch[..|batch| - 1]); }
  }

  lemma {:induction false} RanksStep(s: State, s': State, batch: seq<BufId>, x: BufId)
    requires InRange(s) && InRange(s')
    requires forall b | b in batch :: Rank(s', b) <= Rank(s, b)
    ensures SumRanks(s', batch) <= SumRanks(s, batch)
    ensures x in batch && Rank(s', x) < Rank(s, x) ==> SumRanks(s', batch) < SumRanks(s, batch)
  {
    if batch != [] {
      var n := |batch| - 1;
      assert batch == batch[..n] + [batch[n]];
      RanksStep(s, s', batch[..n], x);
    }
  }

  /** What is left for worker `w` to wait for. */
  ghost function WaitMeasure(s: State, w: nat): nat
    requires InRange(s) && w < |s.workers|
  {
    SumRanks(s, s.workers[w].batch)
  }

  /** The step is taken by the owner of an open buffer of the batch. */
  ghost predicate TakenByOwner(s: State, l: Label, w: nat)
    requires w < |s.workers|
  {
    IsThreadLabel(l) && exists b :: b in s.workers[w].batch && Open(s, b) && s.sh.bufs[b].threadId == l.t
  }

  lemma LogBatchStays(c: Config, s: State, l: Label, w: nat)
    requires InRange(s) && Enabled(c, s, l) && IsLogLabel(l) && w < |s.workers|
    ensures w < |LogStep(c, s, l).workers| && LogStep(c, s, l).workers[w] == s.workers[w]
  {
  }

  lemma BatchStays(c: Config, s: State, l: Label, w: nat)
    requires InRange(s) && Enabled(c, s, l) && w < |s.workers| && InFlight(s.workers[w]) && l != ReleaseBatch(w)
    ensures var s' := Next(c, s, l);
            w < |s'.workers| && s'.workers[w].batch == s.workers[w].batch && InFlight(s'.workers[w])
  {
    if IsLogLabel(l) { LogBatchStays(c, s, l, w); }
  }

  /** No step raises what a worker has to wait for, and every step of a thread that still
      has one of its buffers open strictly lowers it. */
  lemma WaitStep(c: Config, s: State, l: Label, w: nat)
    requires Basic(c, s) && Own(c, s) && Attended(s) && Enabled(c, s, l)
    requires !Next(c, s, l).dropped && !Next(c, s, l).orphaned
    requires w < |s.workers| && InFlight(s.workers[w]) && l != ReleaseBatch(w)
    ensures var s' := Next(c, s, l);
            && w < |s'.workers| && WaitMeasure(s', w) <= WaitMeasure(s, w)
            && (TakenByOwner(s, l, w) ==> WaitMeasure(s', w) < WaitMeasure(s, w))
  {
    var s', batch := Next(c, s, l), s.workers[w].batch;
    BatchStays(c, s, l, w);
    BasicStep(c, s, l);
    forall b | b in batch ensures Rank(s', b) <= Rank(s, b) {
      RankStep(c, s, l, w, b);
    }
    RanksStep(s, s', batch, 0);
    if TakenByOwner(s, l, w) {
      var x :| x in batch && Open(s, x) && s.sh.bufs[x].threadId == l.t;
      RankStep(c, s, l, w, x);
      RanksStep(s, s', batch, x);
    }
  }

  /** How many of the steps from `i` to `j` were taken by owners of open buffers. */
  ghost function OwnerSteps(c: Config, ls: seq<Label>, i: nat, j: nat, w: nat): nat
    requires Legal(c, ls) && i <= j <= |ls|
    decreases j - i
  {
    if i == j then 0
    else OwnerSteps(c, ls, i, j - 1, w) +
         if w < |At(c, ls, j - 1).workers| && TakenByOwner(At(c, ls, j - 1), ls[j - 1], w) then 1 else 0
  }

  lemma {:induction false} WaitRun(c: Config, ls: seq<Label>, i: nat, j: nat, w: nat)
    requires c.Valid() && Legal(c, ls) && DropFree(c, ls) && OrphanFree(c, ls) && i <= j <= |ls|
    requires w < |At(c, ls, i).workers| && InFlight(At(c, ls, i).workers[w])
    requires forall k | i <= k < j :: ls[k] != ReleaseBatch(w)
    ensures w < |At(c, ls, j).workers| && InFlight(At(c, ls, j).workers[w])
    ensures At(c, ls, j).workers[w].batch == At(c, ls, i).workers[w].batch
    ensures OwnerSteps(c, ls, i, j, w) + WaitMeasure(At(c, ls, j), w) <= WaitMeasure(At(c, ls, i), w)
    decreases j - i
  {
    if i < j {
      WaitRun(c, ls, i, j - 1, w);
      AtAttended(c, ls, j - 1);
      AtAttended(c, ls, j);
      AtStep(c, ls, j - 1);
      BatchStays(c, At(c, ls, j - 1), ls[j - 1], w);
      WaitStep(c, At(c, ls, j - 1), ls[j - 1], w);
    }
  }

  /** While worker `w` waits, the threads whose buffers it still waits for take at most
      nine steps per buffer of the batch, all of them together, whatever the others do. */
  lemma WaitEnds(c: Config, ls: seq<Label>, i: nat, j: nat, w: nat)
    requires c.Valid() && Legal(c, ls) && DropFree(c, ls) && OrphanFree(c, ls) && i <= j <= |ls|
    requires w < |At(c, ls, i).workers| && InFlight(At(c, ls, i).workers[w])
    requires forall k | i <= k < j :: ls[k] != ReleaseBatch(w)
    ensures OwnerSteps(c, ls, i, j, w) <= 9 * |At(c, ls, i).workers[w].batch|
  {
    WaitRun(c, ls, i, j, w);
    RanksBounded(At(c, ls, i), At(c, ls, i).workers[w].batch);
  }

  // ---------------------------------------------------------------- bounded staleness

  /** Thread `t` has loaded the pointer of its epoch-`e` buffer and not counted the event yet. */
  function InHand(s: State, t: ThreadId, e: nat): nat
    requires t < |s.threads|
  {
    if s.threads[t].lastEpoch == e && Pending(s.threads[t].pc) != [] then 1 else 0
  }

  /** The thread's own step: nothing is loaded from a pointer that was taken away, and a
      count moves the event in hand into the log. */
  lemma OwnStaleStep(c: Config, s: State, l: Label, e: nat)
    requires IsThreadLabel(l) && Enabled(c, s, l) && Local(c, s, l.t) && e < s.sh.epoch && e in s.threads[l.t].logs
    requires s.sh.cells[l.t].ptr.Some? ==> s.threads[l.t].lastEpoch == s.sh.epoch
    ensures StaleOk(s, Next(c, s, l), l.t, e)
  {
    if IsRefLabel(l) { RefStale(c, s, l, e); }
    else if IsSwitchLabel(l) { SwitchStale(c, s, l, e); }
    else { LogStale(c, s, l, e); }
  }

  ghost predicate StaleOk(s: State, s': State, t: ThreadId, e: nat)
    requires t < |s.threads| && e in s.threads[t].logs
  {
    && t < |s'.threads| && e in s'.threads[t].logs
    && |s'.threads[t].logs[e]| + InHand(s', t, e) <= |s.threads[t].logs[e]| + InHand(s, t, e)
    && s.threads[t].logs[e] <= s'.threads[t].logs[e]
  }

  lemma AllocStale(c: Config, s: State, l: Label, e: nat)
    requires InRange(s) && l.AllocForRef? && Enabled(c, s, l) && e < s.sh.epoch && e in s.threads[l.t].logs
    ensures StaleOk(s, RefStep(c, s, l), l.t, e)
  {
  }

  lemma RefStale(c: Config, s: State, l: Label, e: nat)
    requires InRange(s) && IsRefLabel(l) && Enabled(c, s, l) && e < s.sh.epoch && e in s.threads[l.t].logs
    ensures StaleOk(s, RefStep(c, s, l), l.t, e)
  {
    if l.AllocForRef? { AllocStale(c, s, l, e); }
  }

  lemma SwitchStale(c: Config, s: State, l: Label, e: nat)
    requires InRange(s) && IsSwitchLabel(l) && Enabled(c, s, l) && e < s.sh.epoch && e in s.threads[l.t].logs
    ensures StaleOk(s, LogStep(c, s, l), l.t, e)
  {
  }

  lemma SlowStale(c: Config, s: State, l: Label, e: nat)
    requires InRange(s) && (l.TryInc? || l.Alloc?) && Enabled(c, s, l) && e < s.sh.epoch && e in s.threads[l.t].logs
    ensures StaleOk(s, LogStep(c, s, l), l.t, e)
  {
  }

  lemma FastStale(c: Config, s: State, l: Label, e: nat)
    requires InRange(s) && (l.LoadPtr? || l.Store? || l.Count?) && Enabled(c, s, l)
    requires e < s.sh.epoch && e in s.threads[l.t].logs
    requires s.sh.cells[l.t].ptr.Some? ==> s.threads[l.t].lastEpoch == s.sh.epoch
    ensures StaleOk(s, LogStep(c, s, l), l.t, e)
  {
  }

  lemma LogStale(c: Config, s: State, l: Label, e: nat)
    requires InRange(s) && IsLogLabel(l) && !IsSwitchLabel(l) && Enabled(c, s, l) && e < s.sh.epoch && e in s.threads[l.t].logs
    requires s.sh.cells[l.t].ptr.Some? ==> s.threads[l.t].lastEpoch == s.sh.epoch
    ensures StaleOk(s, LogStep(c, s, l), l.t, e)
  {
    if l.TryInc? || l.Alloc? { SlowStale(c, s, l, e); } else { FastStale(c, s, l, e); }
  }

  /** The thread's pointer, if it has one, is of the current epoch. */
  lemma PointerIsCurrent(c: Config, s: State, t: ThreadId)
    requires Basic(c, s) && Own(c, s) && t < |s.threads| && !s.threads[t].pc.Exited?
    ensures s.sh.cells[t].ptr.Some? ==> s.threads[t].lastEpoch == s.sh.epoch
  {
    assert PointerOk(s, t) && ThreadOwn(c, s, t);
  }

  lemma StaleStep(c: Config, s: State, l: Label, t: ThreadId, e: nat)
    requires Basic(c, s) && Own(c, s) && Enabled(c, s, l) && t < |s.threads| && e < s.sh.epoch
    requires e in s.threads[t].logs
    ensures StaleOk(s, Next(c, s, l), t, e)
  {
    if l.Spawn? || IsWorkerLabel(l) || l.t != t {
      OthersKeepPc(c, s, l, t);
    } else {
      assert Local(c, s, t);
      PointerIsCurrent(c, s, t);
      OwnStaleStep(c, s, l, e);
    }
  }

  lemma StaleOne(c: Config, ls: seq<Label>, k: nat, t: ThreadId, e: nat)
    requires c.Valid() && Legal(c, ls) && DropFree(c, ls) && k < |ls|
    requires t < |At(c, ls, k).threads| && e in At(c, ls, k).threads[t].logs && e < At(c, ls, k).sh.epoch
    ensures StaleOk(At(c, ls, k), At(c, ls, k + 1), t, e)
  {
    AtOwn(c, ls, k);
    AtStep(c, ls, k);
    StaleStep(c, At(c, ls, k), ls[k], t, e);
  }

  lemma {:induction false} StaleRun(c: Config, ls: seq<Label>, i: nat, j: nat, t: ThreadId, e: nat)
    requires c.Valid() && Legal(c, ls) && DropFree(c, ls) && i <= j <= |ls|
    requires t < |At(c, ls, i).threads| && e in At(c, ls, i).threads[t].logs && e < At(c, ls, i).sh.epoch
    ensures StaleOk(At(c, ls, i), At(c, ls, j), t, e)
    decreases j - i
  {
    if i < j {
      StaleOne(c, ls, i, t, e);
      EpochMonotone(c, ls, i, i + 1);
      StaleRun(c, ls, i + 1, j, t, e);
      StaleTransitive(At(c, ls, i), At(c, ls, i + 1), At(c, ls, j), t, e);
    }
  }

  lemma StaleTransitive(s: State, s1: State, s2: State, t: ThreadId, e: nat)
    requires t < |s.threads| && e in s.threads[t].logs && StaleOk(s, s1, t, e) && StaleOk(s1, s2, t, e)
    ensures StaleOk(s, s2, t, e)
  {
  }

  /** Once an epoch is over, and with it every pointer to one of its buffers, each thread
      adds at most one event to its record of that epoch: the one it had already loaded
      its pointer for.  What was recorded before stays. */
  lemma BoundedStaleness(c: Config, ls: seq<Label>, i: nat, j: nat, t: ThreadId, e: nat)
    requires c.Valid() && Legal(c, ls) && DropFree(c, ls) && i <= j <= |ls|
    requires t < |At(c, ls, i).threads| && e < At(c, ls, i).sh.epoch
    ensures var before, later := Recorded(At(c, ls, i), t, e), Recorded(At(c, ls, j), t, e);
            && before <= later
            && |later| <= |before| + 1
            && (|later| > |before| ==> Pending(At(c, ls, i).threads[t].pc) != [])
  {
    var s, s' := At(c, ls, i), At(c, ls, j);
    AtOwn(c, ls, i);
    AtOwn(c, ls, j);
    EpochMonotone(c, ls, i, j);
    ThreadsOnlyGrow(c, ls, i, j);
    RecordedIsLog(c, s, t, e);
    RecordedIsLog(c, s', t, e);
    if e in s.threads[t].logs {
      StaleRun(c, ls, i, j, t, e);
    } else {
      AbsentRun(c, ls, i, j, t, e);
    }
  }

  lemma {:induction false} ThreadsOnlyGrow(c: Config, ls: seq<Label>, i: nat, j: nat)
    requires Legal(c, ls) && i <= j <= |ls|
    ensures |At(c, ls, i).threads| <= |At(c, ls, j).threads|
    decreases j - i
  {
    if i < j {
      ThreadsOnlyGrow(c, ls, i, j - 1);
      ThreadsGrowOne(c, ls, j - 1);
    }
  }

  lemma ThreadsGrowOne(c: Config, ls: seq<Label>, k: nat)
    requires Legal(c, ls) && k < |ls|
    ensures |At(c, ls, k).threads| <= |At(c, ls, k + 1).threads|
  {
    AtStep(c, ls, k);
    NewThread(c, At(c, ls, k), ls[k]);
  }

  /** A thread that took no part in an epoch that is over never will. */
  ghost predicate Absent(s: State, t: ThreadId, e: nat) {
    t < |s.threads| && e !in s.threads[t].logs && e < s.sh.epoch
  }

  lemma {:induction false} AbsentRun(c: Config, ls: seq<Label>, i: nat, j: nat, t: ThreadId, e: nat)
    requires Legal(c, ls) && i <= j <= |ls| && Absent(At(c, ls, i), t, e)
    ensures Absent(At(c, ls, j), t, e)
    decreases j - i
  {
    if i < j {
      AbsentOne(c, ls, i, t, e);
      AbsentRun(c, ls, i + 1, j, t, e);
    }
  }

  lemma AbsentOne(c: Config, ls: seq<Label>, k: nat, t: ThreadId, e: nat)
    requires Legal(c, ls) && k < |ls| && Absent(At(c, ls, k), t, e)
    ensures Absent(At(c, ls, k + 1), t, e)
  {
    AtBasic(c, ls, k);
    AtStep(c, ls, k);
    AbsentStep(c, At(c, ls, k), ls[k], t, e);
  }

  lemma AbsentStep(c: Config, s: State, l: Label, t: ThreadId, e: nat)
    requires Basic(c, s) && Enabled(c, s, l) && Absent(s, t, e)
    ensures Absent(Next(c, s, l), t, e)
  {
    EpochStep(c, s, l);
    if !IsHistoryLabel(l) || l.t != t {
      NewThread(c, s, l);
      OtherHistory(c, s, l, t);
    } else {
      assert PointerOk(s, t) && LogsOk(s, t);
      AllocatesNow(c, s, l, e);
    }
  }

  /** A buffer is assigned in the current epoch, a word counted in the latest one. */
  lemma AllocatesNow(c: Config, s: State, l: Label, e: nat)
    requires InRange(s) && Enabled(c, s, l) && IsHistoryLabel(l) && PointerOk(s, l.t) && LogsOk(s, l.t)
    requires e < s.sh.epoch && e !in s.threads[l.t].logs
    ensures e !in Next(c, s, l).threads[l.t].logs
  {
  }

  // ---------------------------------------------------------------- when the wait is over

  lemma RankZero(c: Config, s: State, w: nat, b: BufId)
    requires Basic(c, s) && Attended(s) && HeldBy(s, w, b)
    ensures Rank(s, b) == 0 <==> s.sh.bufs[b].closed
  {
    HeldNotFree(s, w, b);
    assert PointerOk(s, s.sh.bufs[b].threadId);
  }

  lemma {:induction false} SumZero(s: State, batch: seq<BufId>)
    requires InRange(s)
    ensures SumRanks(s, batch) == 0 <==> forall b | b in batch :: Rank(s, b) == 0
  {
    if batch != [] {
      var n := |batch| - 1;
      assert batch == batch[..n] + [batch[n]];
      SumZero(s, batch[..n]);
    }
  }

  /** The measure is zero exactly when the worker's wait is over. */
  lemma WaitOver(c: Config, s: State, w: nat)
    requires Basic(c, s) && Attended(s) && w < |s.workers| && InFlight(s.workers[w])
    ensures WaitMeasure(s, w) == 0 <==>
            forall i | 0 <= i < |s.workers[w].batch| :: s.sh.bufs[s.workers[w].batch[i]].closed
  {
    var batch := s.workers[w].batch;
    SumZero(s, batch);
    forall b | b in batch ensures Rank(s, b) == 0 <==> s.sh.bufs[b].closed {
      RankZero(c, s, w, b);
    }
  }
}
