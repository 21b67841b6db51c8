/** Conservation of the event count: what the finished workers reported and what the
    unreleased buffers count add up to what was logged. */
module Conservation {
  import opened Protocol
  import opened Bookkeeping
  import opened Ownership
  import opened Safety
  import opened Trace

  // ---------------------------------------------------------------- the three sums

  function Reported(ws: seq<Worker>): nat {
    if ws == [] then 0
    else Reported(ws[..|ws| - 1]) + if ws[|ws| - 1].pc.Finished? then ws[|ws| - 1].pc.sum else 0
  }

  /** The counts of the buffers below `n` that are not in the free pool. */
  ghost function Unreleased(s: State, n: nat): nat
    requires InRange(s) && n <= |s.sh.bufs|
  {
    if n == 0 then 0 else Unreleased(s, n - 1) + if n - 1 in s.sh.freeBufs then 0 else CountOf(s, n - 1)
  }

  function Logged(ths: seq<Thread>): nat {
    if ths == [] then 0 else Logged(ths[..|ths| - 1]) + |Kept(ths[|ths| - 1].issued)|
  }

  // ---------------------------------------------------------------- the same sum over the history

  ghost function Weight(s: State, b: BufId): nat
    requires InRange(s)
  {
    if b >= |s.sh.bufs| || b in s.sh.freeBufs then 0
    else |LogOf(s.threads[s.sh.bufs[b].threadId], s.sh.bufs[b].epoch)|
  }

  ghost function Weights(s: State, n: nat): nat
    requires InRange(s)
  {
    if n == 0 then 0 else Weights(s, n - 1) + Weight(s, n - 1)
  }

  lemma {:induction false} UnreleasedIsWeights(c: Config, s: State, n: nat)
    requires Basic(c, s) && Own(c, s) && n <= |s.sh.bufs|
    ensures Unreleased(s, n) == Weights(s, n)
  {
    if n > 0 {
      UnreleasedIsWeights(c, s, n - 1);
      if n - 1 !in s.sh.freeBufs { BufferHoldsLog(c, s, n - 1); }
    }
  }

  lemma {:induction false} SameWeights(s: State, s': State, n: nat)
    requires InRange(s) && InRange(s') && forall b | 0 <= b < n :: Weight(s', b) == Weight(s, b)
    ensures Weights(s', n) == Weights(s, n)
  {
    if n > 0 { SameWeights(s, s', n - 1); }
  }

  lemma {:induction false} OneMoreWeight(s: State, s': State, n: nat, b: BufId)
    requires InRange(s) && InRange(s') && b < n && Weight(s', b) == Weight(s, b) + 1
    requires forall x | 0 <= x < n && x != b :: Weight(s', x) == Weight(s, x)
    ensures Weights(s', n) == Weights(s, n) + 1
  {
    if b == n - 1 { SameWeights(s, s', n - 1); } else { OneMoreWeight(s, s', n - 1, b); }
  }

  ghost function BatchWeight(s: State, batch: seq<BufId>): nat
    requires InRange(s)
  {
    if batch == [] then 0 else BatchWeight(s, batch[..|batch| - 1]) + Weight(s, batch[|batch| - 1])
  }

  /** The weights of all buffers below `n` but those in `gone`. */
  ghost function WeightsBut(s: State, gone: seq<BufId>, n: nat): nat
    requires InRange(s)
  {
    if n == 0 then 0 else WeightsBut(s, gone, n - 1) + if n - 1 in gone then 0 else Weight(s, n - 1)
  }

  lemma {:induction false} TakeOne(s: State, gone: seq<BufId>, b: BufId, n: nat)
    requires InRange(s) && b !in gone
    ensures WeightsBut(s, gone, n) == WeightsBut(s, gone + [b], n) + if b < n then Weight(s, b) else 0
  {
    if n > 0 { TakeOne(s, gone, b, n - 1); }
  }

  lemma {:induction false} TakeNone(s: State, n: nat)
    requires InRange(s)
    ensures WeightsBut(s, [], n) == Weights(s, n)
  {
    if n > 0 { TakeNone(s, n - 1); }
  }

  lemma {:induction false} TakeBatch(s: State, batch: seq<BufId>, n: nat)
    requires InRange(s) && NoDup(batch) && forall i | 0 <= i < |batch| :: batch[i] < n
    ensures Weights(s, n) == WeightsBut(s, batch, n) + BatchWeight(s, batch)
  {
    if batch == [] {
      TakeNone(s, n);
    } else {
      var k := |batch| - 1;
      TakeBatch(s, batch[..k], n);
      TakeOne(s, batch[..k], batch[k], n);
      assert batch == batch[..k] + [batch[k]];
    }
  }

  lemma {:induction false} ButIsAfter(s: State, s': State, gone: seq<BufId>, n: nat)
    requires InRange(s) && InRange(s')
    requires forall b | 0 <= b < n :: Weight(s', b) == if b in gone then 0 else Weight(s, b)
    ensures Weights(s', n) == WeightsBut(s, gone, n)
  {
    if n > 0 { ButIsAfter(s, s', gone, n - 1); }
  }

  // ---------------------------------------------------------------- sums over workers and threads

  lemma {:induction false} ReportedSame(ws: seq<Worker>, ws': seq<Worker>)
    requires |ws'| == |ws|
    requires forall w | 0 <= w < |ws| ::
               ws'[w].pc.Finished? == ws[w].pc.Finished? && (ws[w].pc.Finished? ==> ws'[w].pc == ws[w].pc)
    ensures Reported(ws') == Reported(ws)
  {
    if ws != [] { ReportedSame(ws[..|ws| - 1], ws'[..|ws| - 1]); }
  }

  lemma {:induction false} ReportedFinish(ws: seq<Worker>, w: nat, wk: Worker)
    requires w < |ws| && !ws[w].pc.Finished? && wk.pc.Finished?
    ensures Reported(ws[w := wk]) == Reported(ws) + wk.pc.sum
  {
    var n := |ws| - 1;
    if w == n {
      assert ws[w := wk][..n] == ws[..n];
    } else {
      ReportedFinish(ws[..n], w, wk);
      assert ws[w := wk][..n] == ws[..n][w := wk];
    }
  }

  lemma {:induction false} LoggedUpdate(ths: seq<Thread>, t: ThreadId, th: Thread, k: nat)
    requires t < |ths| && |Kept(th.issued)| == |Kept(ths[t].issued)| + k
    ensures Logged(ths[t := th]) == Logged(ths) + k
  {
    var n := |ths| - 1;
    if t == n {
      assert ths[t := th][..n] == ths[..n];
    } else {
      LoggedUpdate(ths[..n], t, th, k);
      assert ths[t := th][..n] == ths[..n][t := th];
    }
  }

  lemma {:induction false} SumOfSeen(c: Config, s: State, w: nat, k: nat)
    requires Basic(c, s) && Own(c, s) && w < |s.workers| && s.workers[w].pc.Counting?
    requires k <= |s.workers[w].seen| && |s.workers[w].seen| <= |s.workers[w].batch|
    ensures SumLengths(s.workers[w].seen[..k]) == BatchWeight(s, s.workers[w].batch[..k])
  {
    if k > 0 {
      var wk := s.workers[w];
      SumOfSeen(c, s, w, k - 1);
      assert wk.seen[..k][..k - 1] == wk.seen[..k - 1] && wk.batch[..k][..k - 1] == wk.batch[..k - 1];
      assert WorkerOk(s, w) && WorkerOwn(s, w);
      assert wk.batch[k - 1] in wk.batch;
    }
  }

  // ---------------------------------------------------------------- conservation

  ghost predicate Conserved(s: State)
    requires InRange(s)
  {
    Reported(s.workers) + Weights(s, |s.sh.bufs|) == Logged(s.threads)
  }

  /** A step that changes no log, no owner and epoch of a buffer in use, and frees none. */
  ghost predicate Weightless(s: State, s': State) {
    && InRange(s) && InRange(s') && |s'.sh.bufs| >= |s.sh.bufs|
    && (forall b | 0 <= b < |s'.sh.bufs| :: Weight(s', b) == Weight(s, b))
  }

  lemma {:induction false} MoreBuffers(s: State, n: nat, m: nat)
    requires InRange(s) && |s.sh.bufs| <= n <= m
    ensures Weights(s, m) == Weights(s, n)
  {
    if n < m { MoreBuffers(s, n, m - 1); }
  }

  lemma WeightlessSum(s: State, s': State)
    requires Weightless(s, s')
    ensures Weights(s', |s'.sh.bufs|) == Weights(s, |s.sh.bufs|)
  {
    SameWeights(s, s', |s'.sh.bufs|);
    MoreBuffers(s, |s.sh.bufs|, |s'.sh.bufs|);
  }

  lemma CountWeights(c: Config, s: State, t: ThreadId)
    requires Local(c, s, t) && Enabled(c, s, Count(t))
    ensures var s', b := DoCount(c, s, t), s.threads[t].ref.logBuf;
            && Weight(s', b) == Weight(s, b) + (if s.threads[t].pc.cur.Some? then 1 else 0)
            && forall x | 0 <= x < |s.sh.bufs| && x != b :: Weight(s', x) == Weight(s, x)
  {
    var s', b := DoCount(c, s, t), s.threads[t].ref.logBuf;
    forall x | 0 <= x < |s.sh.bufs| && x != b ensures Weight(s', x) == Weight(s, x) {
      if x !in s.sh.freeBufs && s.sh.bufs[x].threadId == t { OtherOwned(c, s, Count(t), x); }
    }
    assert BufferOwn(c, s, b);
  }

  lemma CountConserves(c: Config, s: State, t: ThreadId)
    requires Local(c, s, t) && Conserved(s) && Enabled(c, s, Count(t))
    ensures Conserved(DoCount(c, s, t))
  {
    var s', th := DoCount(c, s, t), s.threads[t];
    KeptAppend(th.issued, s'.threads[t].issued[|th.issued|]);
    CountWeights(c, s, t);
    if th.pc.cur.None? {
      LoggedUpdate(s.threads, t, s'.threads[t], 0);
      SameWeights(s, s', |s.sh.bufs|);
    } else {
      LoggedUpdate(s.threads, t, s'.threads[t], 1);
      OneMoreWeight(s, s', |s.sh.bufs|, th.ref.logBuf);
    }
  }

  lemma ReleaseConserves(c: Config, s: State, w: nat)
    requires Basic(c, s) && Own(c, s) && Conserved(s) && w < |s.workers| && s.workers[w].pc.Counting?
    requires s.workers[w].pc.i >= |s.workers[w].batch|
    ensures Conserved(DoRelease(s, w))
  {
    var s', wk, n := DoRelease(s, w), s.workers[w], |s.sh.bufs|;
    assert WorkerOk(s, w) && WorkerOwn(s, w);
    SumOfSeen(c, s, w, |wk.seen|);
    assert wk.seen[..|wk.seen|] == wk.seen && wk.batch[..|wk.seen|] == wk.batch;
    TakeBatch(s, wk.batch, n);
    ButIsAfter(s, s', wk.batch, n);
    ReportedFinish(s.workers, w, s'.workers[w]);
  }

  lemma CallAllocWeightless(c: Config, s: State, t: ThreadId, mem: seq<Word>, pc: Pc)
    requires InRange(s) && Partition(s) && t < |s.threads| && MayAlloc(s, t, pc)
    requires s.sh.cells[t].ptr.None? && LogsOk(s, t)
    requires forall b | 0 <= b < |s.sh.bufs| && b !in s.sh.freeBufs && s.sh.bufs[b].threadId == t ::
               s.sh.bufs[b].epoch in s.threads[t].logs
    ensures Weightless(s, CallAlloc(c, s, t, mem, pc))
  {
    NextBufferUnused(s);
  }

  lemma AllocWeightless(c: Config, s: State, l: Label)
    requires InRange(s) && Partition(s) && Enabled(c, s, l) && (l.Alloc? || l.AllocForRef?)
    requires s.sh.cells[l.t].ptr.None? && LogsOk(s, l.t)
    requires forall b | 0 <= b < |s.sh.bufs| && b !in s.sh.freeBufs && s.sh.bufs[b].threadId == l.t ::
               s.sh.bufs[b].epoch in s.threads[l.t].logs
    ensures Weightless(s, Next(c, s, l))
  {
    var pc := if l.Alloc? then Switching(NextBuffer(s.sh)) else Acquired(Some(NextBuffer(s.sh)));
    CallAllocWeightless(c, s, l.t, l.mem, pc);
  }

  lemma RestWeightless(c: Config, s: State, l: Label)
    requires InRange(s) && Enabled(c, s, l) && !IsHistoryLabel(l) && !l.ReleaseBatch?
    requires l.TryInc? ==> IncOutcome(c, s.sh, s.threads[l.t].ref.logBuf) != Skipped
    requires IsThreadLabel(l) && IsQuiet(l) ==> OnlyTouches(s, Next(c, s, l), l.t, Touched(s, l))
    requires forall t | 0 <= t < |s.threads| ::
               t < |Next(c, s, l).threads| && Next(c, s, l).threads[t].logs == s.threads[t].logs
    ensures Weightless(s, Next(c, s, l))
  {
  }

  lemma {:induction false} LoggedSame(ths: seq<Thread>, ths': seq<Thread>)
    requires |ths| <= |ths'|
    requires forall t | 0 <= t < |ths| :: ths'[t].issued == ths[t].issued
    requires forall t | |ths| <= t < |ths'| :: ths'[t].issued == []
    ensures Logged(ths') == Logged(ths)
    decreases |ths'|
  {
    if |ths| < |ths'| {
      LoggedSame(ths, ths'[..|ths'| - 1]);
    } else if ths != [] {
      LoggedSame(ths[..|ths| - 1], ths'[..|ths| - 1]);
    }
  }

  lemma AllocIssued(c: Config, s: State, l: Label)
    requires InRange(s) && Enabled(c, s, l) && (l.Alloc? || l.AllocForRef?)
    ensures var s' := Next(c, s, l);
            && s'.workers == s.workers && |s'.threads| == |s.threads|
            && forall t | 0 <= t < |s.threads| :: s'.threads[t].issued == s.threads[t].issued
  {
  }

  lemma AllocConserves(c: Config, s: State, l: Label)
    requires Basic(c, s) && Own(c, s) && Conserved(s) && Enabled(c, s, l) && (l.Alloc? || l.AllocForRef?)
    ensures Conserved(Next(c, s, l))
  {
    var s' := Next(c, s, l);
    AllocFindsNull(c, s, l);
    assert LogsOk(s, l.t);
    forall b | 0 <= b < |s.sh.bufs| && b !in s.sh.freeBufs && s.sh.bufs[b].threadId == l.t
      ensures s.sh.bufs[b].epoch in s.threads[l.t].logs
    {
      assert BufferOwn(c, s, b);
    }
    AllocWeightless(c, s, l);
    WeightlessSum(s, s');
    AllocIssued(c, s, l);
    LoggedSame(s.threads, s'.threads);
  }

  lemma WorkerReported(c: Config, s: State, l: Label)
    requires InRange(s) && Enabled(c, s, l) && IsWorkerLabel(l) && !l.ReleaseBatch?
    ensures Reported(WorkerStep(c, s, l).workers) == Reported(s.workers)
  {
    ReportedSame(s.workers, WorkerStep(c, s, l).workers);
  }

  lemma IncReported(c: Config, s: State, t: ThreadId)
    requires InRange(s) && Enabled(c, s, TryInc(t))
    ensures Reported(DoTryInc(c, s, t).workers) == Reported(s.workers)
  {
    var ws := DoTryInc(c, s, t).workers;
    if |ws| > |s.workers| { assert ws[..|s.workers|] == s.workers; }
  }

  lemma WorkersAlone(c: Config, s: State, l: Label)
    requires InRange(s) && Enabled(c, s, l) && !IsWorkerLabel(l) && !l.TryInc?
    ensures Next(c, s, l).workers == s.workers
  {
  }

  lemma ReportedRest(c: Config, s: State, l: Label)
    requires InRange(s) && Enabled(c, s, l) && !l.ReleaseBatch?
    ensures Reported(Next(c, s, l).workers) == Reported(s.workers)
  {
    if IsWorkerLabel(l) {
      WorkerReported(c, s, l);
    } else if l.TryInc? {
      IncReported(c, s, l.t);
    } else {
      WorkersAlone(c, s, l);
    }
  }

  lemma RestConserves(c: Config, s: State, l: Label)
    requires Basic(c, s) && Conserved(s) && Enabled(c, s, l) && !IsHistoryLabel(l) && !l.ReleaseBatch?
    requires l.TryInc? ==> IncOutcome(c, s.sh, s.threads[l.t].ref.logBuf) != Skipped
    ensures Conserved(Next(c, s, l))
  {
    var s' := Next(c, s, l);
    NewThread(c, s, l);
    forall t | 0 <= t < |s.threads|
      ensures s'.threads[t].logs == s.threads[t].logs && s'.threads[t].issued == s.threads[t].issued
    {
      OtherHistory(c, s, l, t);
    }
    if IsThreadLabel(l) && IsQuiet(l) { LocalThread(c, s, l); }
    RestWeightless(c, s, l);
    WeightlessSum(s, s');
    LoggedSame(s.threads, s'.threads);
    ReportedRest(c, s, l);
  }

  lemma ConservedStep(c: Config, s: State, l: Label)
    requires Basic(c, s) && Own(c, s) && Conserved(s) && Enabled(c, s, l) && !Next(c, s, l).dropped
    ensures Conserved(Next(c, s, l))
  {
    if l.Count? {
      assert Local(c, s, l.t);
      CountConservesNext(c, s, l);
    } else if l.ReleaseBatch? {
      ReleaseConservesNext(c, s, l);
    } else if l.Alloc? || l.AllocForRef? {
      AllocConserves(c, s, l);
    } else {
      SkipsDrop(c, s, l);
      RestConserves(c, s, l);
    }
  }

  lemma CountConservesNext(c: Config, s: State, l: Label)
    requires Enabled(c, s, l) && l.Count? && Local(c, s, l.t) && Conserved(s)
    ensures Conserved(Next(c, s, l))
  {
    CountConserves(c, s, l.t);
  }

  lemma ReleaseConservesNext(c: Config, s: State, l: Label)
    requires Basic(c, s) && Own(c, s) && Conserved(s) && Enabled(c, s, l) && l.ReleaseBatch?
    ensures Conserved(Next(c, s, l))
  {
    ReleaseConserves(c, s, l.w);
  }

  lemma ConservedOne(c: Config, ls: seq<Label>, i: nat)
    requires c.Valid() && Legal(c, ls) && DropFree(c, ls) && i < |ls| && Conserved(At(c, ls, i))
    ensures Conserved(At(c, ls, i + 1))
  {
    AtOwn(c, ls, i);
    AtNotDropped(c, ls, i + 1);
    AtStep(c, ls, i);
    ConservedStep(c, At(c, ls, i), ls[i]);
  }

  lemma AtNotDropped(c: Config, ls: seq<Label>, i: nat)
    requires c.Valid() && Legal(c, ls) && DropFree(c, ls) && i <= |ls|
    ensures !At(c, ls, i).dropped
  {
    assert ls[..|ls|] == ls;
    if At(c, ls, i).dropped { DroppedForever(c, ls, i, |ls|); }
  }

  lemma {:induction false} ConservedRun(c: Config, ls: seq<Label>, i: nat)
    requires c.Valid() && Legal(c, ls) && DropFree(c, ls) && i <= |ls|
    ensures Conserved(At(c, ls, i))
  {
    if i > 0 {
      ConservedRun(c, ls, i - 1);
      ConservedOne(c, ls, i - 1);
    }
  }

  /** At any point of any drop-free run: the counts reported by the finished workers and
      the counts of all buffers that are not free add up to the number of events whose
      pointer load found a buffer, over all threads, up to those still in hand. */
  lemma CountsConserved(c: Config, ls: seq<Label>)
    requires c.Valid() && Legal(c, ls) && DropFree(c, ls)
    ensures var s := After(c, ls);
            Reported(s.workers) + Unreleased(s, |s.sh.bufs|) == Counted(c, ls, |s.threads|)
  {
    var s := After(c, ls);
    assert ls[..|ls|] == ls;
    AtOwn(c, ls, |ls|);
    ConservedRun(c, ls, |ls|);
    UnreleasedIsWeights(c, s, |s.sh.bufs|);
    CountedIsLogged(c, ls, |s.threads|);
    assert s.threads[..|s.threads|] == s.threads;
  }

  /** The events of the first `n` threads whose pointer load found a buffer, less the
      ones loaded and not counted yet. */
  ghost function Counted(c: Config, ls: seq<Label>, n: nat): int
    requires Legal(c, ls) && n <= |After(c, ls).threads|
  {
    if n == 0 then 0
    else Counted(c, ls, n - 1) + |KeptWords(c, ls, n - 1)| - |Pending(After(c, ls).threads[n - 1].pc)|
  }

  lemma {:induction false} CountedIsLogged(c: Config, ls: seq<Label>, n: nat)
    requires Legal(c, ls) && n <= |After(c, ls).threads|
    ensures Counted(c, ls, n) == Logged(After(c, ls).threads[..n])
  {
    if n > 0 {
      var ths := After(c, ls).threads;
      CountedIsLogged(c, ls, n - 1);
      LabelsRun(c, ls, n - 1);
      assert ths[..n][..n - 1] == ths[..n - 1];
    }
  }
}
