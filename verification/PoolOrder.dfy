/** The pool is a stack: which buffer is handed out, in what order, after a worker or a
    dropped epoch has returned its buffers. */
module PoolOrder {
  import opened Protocol
  import opened Bookkeeping

  predicate IsAlloc(l: Label) {
    l.Alloc? || l.AllocForRef?
  }

  /** How many buffers are handed out. */
  function Takes(ls: seq<Label>): nat {
    if ls == [] then 0 else Takes(ls[..|ls| - 1]) + if IsAlloc(ls[|ls| - 1]) then 1 else 0
  }

  /** A step that returns buffers to the pool: a release, or an end of the epoch that finds
      too many workers. */
  ghost predicate Returns(c: Config, s: State, l: Label)
    requires InRange(s) && Enabled(c, s, l)
  {
    l.ReleaseBatch? || (l.TryInc? && IncOutcome(c, s.sh, s.threads[l.t].ref.logBuf).Skipped?)
  }

  ghost predicate NoneReturned(c: Config, s: State, ls: seq<Label>)
    requires InRange(s) && LegalFrom(c, s, ls)
    decreases |ls|
  {
    ls == [] ||
    (NoneReturned(c, s, ls[..|ls| - 1]) && !Returns(c, AfterFrom(c, s, ls[..|ls| - 1]), ls[|ls| - 1]))
  }

  // ---------------------------------------------------------------- one step

  ghost predicate PoolAfter(s: State, s': State, l: Label)
    requires IsThreadLabel(l) || l.Spawn? || IsWorkerLabel(l)
  {
    if IsAlloc(l) then
      && l.t < |s'.sh.cells|
      && if s.sh.freeBufs == [] then s'.sh.freeBufs == []
         else
           var n := |s.sh.freeBufs| - 1;
           && s'.sh.freeBufs == s.sh.freeBufs[..n]
           && s'.sh.cells[l.t] == Cell(Some(s.sh.freeBufs[n]), Some(s.sh.freeBufs[n]))
    else s'.sh.freeBufs == s.sh.freeBufs
  }

  lemma RefPool(c: Config, s: State, l: Label)
    requires InRange(s) && Enabled(c, s, l) && IsRefLabel(l) && (l.AllocForRef? ==> s.sh.cells[l.t].ptr.None?)
    ensures PoolAfter(s, RefStep(c, s, l), l)
  {
  }

  lemma LogPool(c: Config, s: State, l: Label)
    requires InRange(s) && Enabled(c, s, l) && IsLogLabel(l) && !Returns(c, s, l)
    requires l.Alloc? ==> s.sh.cells[l.t].ptr.None?
    ensures PoolAfter(s, LogStep(c, s, l), l)
  {
  }

  lemma StepPool(c: Config, s: State, l: Label)
    requires Basic(c, s) && Enabled(c, s, l) && !Returns(c, s, l)
    ensures PoolAfter(s, Next(c, s, l), l)
  {
    if IsAlloc(l) { AllocFindsNull(c, s, l); }
    if IsRefLabel(l) { RefPool(c, s, l); } else if IsLogLabel(l) { LogPool(c, s, l); }
  }

  // ---------------------------------------------------------------- runs

  lemma {:induction false} BasicAlong(c: Config, s: State, ls: seq<Label>)
    requires Basic(c, s) && LegalFrom(c, s, ls)
    ensures Basic(c, AfterFrom(c, s, ls))
  {
    if ls != [] {
      BasicAlong(c, s, ls[..|ls| - 1]);
      BasicStep(c, AfterFrom(c, s, ls[..|ls| - 1]), ls[|ls| - 1]);
    }
  }

  lemma PoolOne(c: Config, s: State, ls: seq<Label>)
    requires Basic(c, s) && LegalFrom(c, s, ls) && ls != [] && NoneReturned(c, s, ls)
    ensures PoolAfter(AfterFrom(c, s, ls[..|ls| - 1]), AfterFrom(c, s, ls), ls[|ls| - 1])
  {
    BasicAlong(c, s, ls[..|ls| - 1]);
    StepPool(c, AfterFrom(c, s, ls[..|ls| - 1]), ls[|ls| - 1]);
  }

  /** While nothing is returned the pool shrinks from its end. */
  lemma {:induction false} PoolShrinks(c: Config, s: State, ls: seq<Label>)
    requires Basic(c, s) && LegalFrom(c, s, ls) && NoneReturned(c, s, ls) && Takes(ls) <= |s.sh.freeBufs|
    ensures AfterFrom(c, s, ls).sh.freeBufs == s.sh.freeBufs[..|s.sh.freeBufs| - Takes(ls)]
  {
    if ls != [] {
      PoolShrinks(c, s, ls[..|ls| - 1]);
      PoolOne(c, s, ls);
    }
  }

  /** ... and the k-th buffer handed out is the k-th from its end. */
  lemma HandedOut(c: Config, s: State, ls: seq<Label>)
    requires Basic(c, s) && LegalFrom(c, s, ls) && NoneReturned(c, s, ls) && Takes(ls) <= |s.sh.freeBufs|
    requires ls != [] && IsAlloc(ls[|ls| - 1])
    ensures var t, b := ls[|ls| - 1].t, s.sh.freeBufs[|s.sh.freeBufs| - Takes(ls)];
            && t < |AfterFrom(c, s, ls).sh.cells|
            && AfterFrom(c, s, ls).sh.cells[t] == Cell(Some(b), Some(b))
  {
    PoolShrinks(c, s, ls[..|ls| - 1]);
    PoolOne(c, s, ls);
  }

  // ---------------------------------------------------------------- the theorems

  /** `b` is handed out as the k-th buffer after `returned` was put on top of `pool`. */
  ghost predicate ComesOut(pool: seq<BufId>, returned: seq<BufId>, k: nat, b: BufId) {
    if 1 <= k <= |returned| then b == returned[|returned| - k]
    else 1 <= k - |returned| <= |pool| ==> b == pool[|pool| - (k - |returned|)]
  }

  lemma OnTop(c: Config, s: State, pool: seq<BufId>, returned: seq<BufId>, ls: seq<Label>)
    requires Basic(c, s) && s.sh.freeBufs == pool + returned
    requires LegalFrom(c, s, ls) && NoneReturned(c, s, ls) && ls != [] && IsAlloc(ls[|ls| - 1])
    requires Takes(ls) <= |pool| + |returned|
    ensures var t, s' := ls[|ls| - 1].t, AfterFrom(c, s, ls);
            t < |s'.sh.cells| && s'.sh.cells[t].ctx.Some? && ComesOut(pool, returned, Takes(ls), s'.sh.cells[t].ctx.value)
  {
    HandedOut(c, s, ls);
    TakesSome(ls);
    TopFirst(pool, returned, Takes(ls));
  }

  lemma TopFirst(pool: seq<BufId>, returned: seq<BufId>, k: nat)
    requires 1 <= k <= |pool| + |returned|
    ensures ComesOut(pool, returned, k, (pool + returned)[|pool| + |returned| - k])
  {
  }

  lemma TakesSome(ls: seq<Label>)
    requires ls != [] && IsAlloc(ls[|ls| - 1])
    ensures Takes(ls) >= 1
  {
  }

  /** After a worker's release the old pool is still there, with the worker's batch on top:
      the batch is handed out again from its last buffer to its first, then the old pool. */
  lemma ReleaseOrder(c: Config, s: State, w: nat, ls: seq<Label>)
    requires Basic(c, s) && Enabled(c, s, ReleaseBatch(w))
    requires LegalFrom(c, Next(c, s, ReleaseBatch(w)), ls) && NoneReturned(c, Next(c, s, ReleaseBatch(w)), ls)
    ensures var s1, batch := Next(c, s, ReleaseBatch(w)), s.workers[w].batch;
            && s.sh.freeBufs <= s1.sh.freeBufs && |s1.sh.freeBufs| == |s.sh.freeBufs| + |batch|
            && (batch != [] ==> NextBuffer(s1.sh) == batch[|batch| - 1])
            && (ls != [] && IsAlloc(ls[|ls| - 1]) && Takes(ls) <= |s.sh.freeBufs| + |batch| ==>
                  var t, s' := ls[|ls| - 1].t, AfterFrom(c, s1, ls);
                  && t < |s'.sh.cells| && s'.sh.cells[t].ctx.Some?
                  && ComesOut(s.sh.freeBufs, batch, Takes(ls), s'.sh.cells[t].ctx.value))
  {
    var s1, batch := Next(c, s, ReleaseBatch(w)), s.workers[w].batch;
    BasicStep(c, s, ReleaseBatch(w));
    ReleasePool(c, s, w);
    if ls != [] && IsAlloc(ls[|ls| - 1]) && Takes(ls) <= |s.sh.freeBufs| + |batch| {
      OnTop(c, s1, s.sh.freeBufs, batch, ls);
    }
  }

  lemma ReleasePool(c: Config, s: State, w: nat)
    requires InRange(s) && Enabled(c, s, ReleaseBatch(w))
    ensures Next(c, s, ReleaseBatch(w)).sh.freeBufs == s.sh.freeBufs + s.workers[w].batch
  {
  }

  /** The same after an epoch whose batch is dropped: its buffers are handed out again from
      the one taken last to the one taken first. */
  lemma DropOrder(c: Config, s: State, t: ThreadId, ls: seq<Label>)
    requires Basic(c, s) && Enabled(c, s, TryInc(t)) && Returns(c, s, TryInc(t))
    requires LegalFrom(c, Next(c, s, TryInc(t)), ls) && NoneReturned(c, Next(c, s, TryInc(t)), ls)
    ensures var s1, batch := Next(c, s, TryInc(t)), s.sh.allocatedBufs;
            && s.sh.freeBufs <= s1.sh.freeBufs && |s1.sh.freeBufs| == |s.sh.freeBufs| + |batch|
            && (ls != [] && IsAlloc(ls[|ls| - 1]) && Takes(ls) <= |s.sh.freeBufs| + |batch| ==>
                  var u, s' := ls[|ls| - 1].t, AfterFrom(c, s1, ls);
                  && u < |s'.sh.cells| && s'.sh.cells[u].ctx.Some?
                  && ComesOut(s.sh.freeBufs, batch, Takes(ls), s'.sh.cells[u].ctx.value))
  {
    var s1, batch := Next(c, s, TryInc(t)), s.sh.allocatedBufs;
    BasicStep(c, s, TryInc(t));
    DropPool(c, s, t);
    if ls != [] && IsAlloc(ls[|ls| - 1]) && Takes(ls) <= |s.sh.freeBufs| + |batch| {
      OnTop(c, s1, s.sh.freeBufs, batch, ls);
    }
  }

  lemma DropPool(c: Config, s: State, t: ThreadId)
    requires InRange(s) && Enabled(c, s, TryInc(t)) && Returns(c, s, TryInc(t))
    ensures Next(c, s, TryInc(t)).sh.freeBufs == s.sh.freeBufs + s.sh.allocatedBufs
  {
  }

  /** An epoch that ends without a drop gives its worker the buffers in the order they were
      taken, whoever took them: what is taken is put at the end of the list. */
  lemma TakenInOrder(c: Config, s: State, l: Label)
    requires Basic(c, s) && Enabled(c, s, l) && IsAlloc(l)
    ensures l.t < |Next(c, s, l).sh.cells| && Next(c, s, l).sh.cells[l.t].ctx.Some?
    ensures Next(c, s, l).sh.allocatedBufs == s.sh.allocatedBufs + [Next(c, s, l).sh.cells[l.t].ctx.value]
  {
    AllocFindsNull(c, s, l);
  }

  lemma BatchInOrder(c: Config, s: State, t: ThreadId)
    requires Basic(c, s) && Enabled(c, s, TryInc(t)) && |Next(c, s, TryInc(t)).workers| > |s.workers|
    ensures Next(c, s, TryInc(t)).workers[|s.workers|].batch == s.sh.allocatedBufs
    ensures Next(c, s, TryInc(t)).sh.freeBufs == s.sh.freeBufs
  {
  }
}
