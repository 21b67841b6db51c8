/** The buffer pool on every run: its partition, how many buffers are ever created,
    and which buffers a batch holds. */
module Pool {
  import opened Protocol
  import opened Bookkeeping
  import opened Safety

  // ---------------------------------------------------------------- the partition

  /** How often buffer `b` occurs in the manager's lists and the batches in flight. */
  ghost function Occurrences(s: State, b: BufId): nat {
    multiset(s.sh.allocatedBufs)[b] + multiset(s.sh.freeBufs)[b] + InBatches(s.workers, b)
  }

  ghost function InBatches(ws: seq<Worker>, b: BufId): nat {
    if ws == [] then 0
    else InBatches(ws[..|ws| - 1], b) + if InFlight(ws[|ws| - 1]) then multiset(ws[|ws| - 1].batch)[b] else 0
  }

  lemma {:induction false} NoDupOnce<T(!new)>(xs: seq<T>, x: T)
    requires NoDup(xs)
    ensures multiset(xs)[x] == if x in xs then 1 else 0
  {
    if xs != [] {
      var n := |xs| - 1;
      assert xs == xs[..n] + [xs[n]];
      NoDupOnce(xs[..n], x);
    }
  }

  ghost predicate HeldIn(ws: seq<Worker>, b: BufId) {
    exists w | 0 <= w < |ws| :: InFlight(ws[w]) && b in ws[w].batch
  }

  lemma {:induction false} BatchesOnce(ws: seq<Worker>, b: BufId)
    requires forall w | 0 <= w < |ws| && InFlight(ws[w]) :: NoDup(ws[w].batch)
    requires forall v, w | 0 <= v < |ws| && 0 <= w < |ws| && v != w && InFlight(ws[v]) && InFlight(ws[w]) ::
               Apart(ws[v].batch, ws[w].batch)
    ensures InBatches(ws, b) == if HeldIn(ws, b) then 1 else 0
  {
    if ws != [] {
      var n := |ws| - 1;
      BatchesOnce(ws[..n], b);
      if InFlight(ws[n]) { NoDupOnce(ws[n].batch, b); }
      HeldInLast(ws, b);
    }
  }

  lemma HeldInLast(ws: seq<Worker>, b: BufId)
    requires ws != []
    ensures var n := |ws| - 1;
            HeldIn(ws, b) <==> HeldIn(ws[..n], b) || (InFlight(ws[n]) && b in ws[n].batch)
  {
    var n := |ws| - 1;
    if HeldIn(ws, b) {
      var w :| 0 <= w < |ws| && InFlight(ws[w]) && b in ws[w].batch;
      if w < n { assert ws[..n][w] == ws[w]; }
    }
    if HeldIn(ws[..n], b) {
      var w :| 0 <= w < n && InFlight(ws[..n][w]) && b in ws[..n][w].batch;
      assert InFlight(ws[w]) && b in ws[w].batch;
    }
  }

  /** On every run, the skipped batches included, each buffer ever created is in exactly
      one place: with the current epoch, in the free pool, or with one worker. */
  lemma OnePlaceEach(c: Config, ls: seq<Label>, b: BufId)
    requires Legal(c, ls)
    ensures Occurrences(After(c, ls), b) == if b < |After(c, ls).sh.bufs| then 1 else 0
  {
    var s := After(c, ls);
    BasicRun(c, ls);
    NoDupOnce(s.sh.allocatedBufs, b);
    NoDupOnce(s.sh.freeBufs, b);
    BatchesOnce(s.workers, b);
    assert HeldIn(s.workers, b) <==> Held(s, b);
  }

  /** `activeWorkers` is the number of batches not released yet and stays in range. */
  lemma ActiveWorkersExact(c: Config, ls: seq<Label>)
    requires Legal(c, ls)
    ensures After(c, ls).sh.activeWorkers == InFlightCount(After(c, ls).workers)
    ensures 0 <= After(c, ls).sh.activeWorkers <= c.maxWorkers
  {
    BasicRun(c, ls);
  }

  /** What a step keeps of a buffer that a worker holds. */
  ghost predicate KeptAs(s: State, s': State, b: BufId)
    requires b < |s.sh.bufs|
  {
    && b < |s'.sh.bufs|
    && (s.sh.bufs[b].closed ==> s'.sh.bufs[b].closed)
    && s'.sh.bufs[b].threadId == s.sh.bufs[b].threadId && s'.sh.bufs[b].epoch == s.sh.bufs[b].epoch
  }

  lemma RefKeeps(c: Config, s: State, l: Label, b: BufId)
    requires InRange(s) && Enabled(c, s, l) && IsRefLabel(l) && b < |s.sh.bufs| && b != NextBuffer(s.sh)
    ensures KeptAs(s, RefStep(c, s, l), b)
  {
  }

  lemma LogKeeps(c: Config, s: State, l: Label, b: BufId)
    requires InRange(s) && Enabled(c, s, l) && IsLogLabel(l) && b < |s.sh.bufs| && b != NextBuffer(s.sh)
    ensures KeptAs(s, LogStep(c, s, l), b)
  {
  }

  /** In any state whose buffers are partitioned, so on every run: no step takes a buffer
      that a worker holds back from closed to open, or changes its owner or its epoch. */
  lemma HeldKept(c: Config, s: State, l: Label, w: nat, b: BufId)
    requires InRange(s) && Partition(s) && Enabled(c, s, l)
    requires w < |s.workers| && InFlight(s.workers[w]) && b in s.workers[w].batch
    ensures KeptAs(s, Next(c, s, l), b)
  {
    NextBufferUnused(s);
    if !l.Spawn? && !IsWorkerLabel(l) {
      if IsRefLabel(l) { RefKeeps(c, s, l, b); } else { LogKeeps(c, s, l, b); }
    }
  }

  // ---------------------------------------------------------------- the memory bound

  /** Buffers in use: those of the current epoch and those held by workers. */
  function InUse(s: State): nat {
    |s.sh.allocatedBufs| + HeldCount(s.workers)
  }

  ghost function PeakInUse(c: Config, ls: seq<Label>): nat
    requires Legal(c, ls)
    decreases |ls|
  {
    if ls == [] then 0
    else
      var before, now := PeakInUse(c, ls[..|ls| - 1]), InUse(After(c, ls));
      if now > before then now else before
  }

  lemma CreatedStep(c: Config, s: State, l: Label)
    requires Basic(c, s) && Enabled(c, s, l) && Basic(c, Next(c, s, l))
    ensures var s' := Next(c, s, l);
            |s'.sh.bufs| == if InUse(s') > |s.sh.bufs| then InUse(s') else |s.sh.bufs|
  {
    CreatedOnlyByAlloc(c, s, l);
  }

  lemma CreatedOnlyByAlloc(c: Config, s: State, l: Label)
    requires InRange(s) && Enabled(c, s, l)
    ensures var s' := Next(c, s, l);
            || |s'.sh.bufs| == |s.sh.bufs|
            || (|s'.sh.bufs| == |s.sh.bufs| + 1 && s'.sh.freeBufs == [])
  {
  }

  /** A buffer is created only when all are in use: at any time, the number ever created
      is exactly the highest number that was in use at one time. */
  lemma {:induction false} CreatedIsPeak(c: Config, ls: seq<Label>)
    requires Legal(c, ls)
    ensures |After(c, ls).sh.bufs| == PeakInUse(c, ls)
    decreases |ls|
  {
    BasicRun(c, ls);
    if ls != [] {
      var before := ls[..|ls| - 1];
      BasicRun(c, before);
      CreatedIsPeak(c, before);
      CreatedStep(c, After(c, before), ls[|ls| - 1]);
    }
  }

  ghost function Participants(s: State): set<ThreadId>
    requires InRange(s)
  {
    set t | t in Owners(s.sh, s.sh.allocatedBufs)
  }

  /** At most `n` threads take part in any one epoch of the run. */
  ghost predicate FewThreads(c: Config, ls: seq<Label>, n: nat)
    requires Legal(c, ls)
  {
    forall i | 0 <= i <= |ls| :: |Participants(At(c, ls, i))| <= n
  }

  lemma {:induction false} SetOfNoDup<T(!new)>(xs: seq<T>)
    requires NoDup(xs)
    ensures |set x | x in xs| == |xs|
  {
    if xs != [] {
      var n := |xs| - 1;
      SetOfNoDup(xs[..n]);
      assert xs == xs[..n] + [xs[n]];
      assert (set x | x in xs) == (set x | x in xs[..n]) + {xs[n]};
    }
  }

  lemma OneBufferEach(c: Config, s: State)
    requires Basic(c, s)
    ensures |Participants(s)| == |s.sh.allocatedBufs|
  {
    SetOfNoDup(Owners(s.sh, s.sh.allocatedBufs));
  }

  ghost predicate SmallBatches(ws: seq<Worker>, n: nat) {
    forall w | 0 <= w < |ws| :: |ws[w].batch| <= n
  }

  lemma {:induction false} HeldAtMost(ws: seq<Worker>, n: nat)
    requires SmallBatches(ws, n)
    ensures HeldCount(ws) <= n * InFlightCount(ws)
  {
    if ws != [] {
      HeldAtMost(ws[..|ws| - 1], n);
    }
  }

  lemma SmallLogStep(c: Config, s: State, l: Label, n: nat)
    requires InRange(s) && Enabled(c, s, l) && IsLogLabel(l)
    requires SmallBatches(s.workers, n) && |s.sh.allocatedBufs| <= n
    ensures SmallBatches(LogStep(c, s, l).workers, n)
  {
  }

  lemma SmallStep(c: Config, s: State, l: Label, n: nat)
    requires InRange(s) && Enabled(c, s, l) && SmallBatches(s.workers, n) && |s.sh.allocatedBufs| <= n
    ensures SmallBatches(Next(c, s, l).workers, n)
  {
    if IsLogLabel(l) { SmallLogStep(c, s, l, n); }
  }

  lemma SmallOne(c: Config, ls: seq<Label>, n: nat, i: nat)
    requires Legal(c, ls) && FewThreads(c, ls, n) && i < |ls| && SmallBatches(At(c, ls, i).workers, n)
    ensures SmallBatches(At(c, ls, i + 1).workers, n)
  {
    AtBasic(c, ls, i);
    AtStep(c, ls, i);
    OneBufferEach(c, At(c, ls, i));
    SmallStep(c, At(c, ls, i), ls[i], n);
  }

  lemma {:induction false} SmallFrom(c: Config, ls: seq<Label>, n: nat, i: nat, j: nat)
    requires Legal(c, ls) && FewThreads(c, ls, n) && i <= j <= |ls| && SmallBatches(At(c, ls, i).workers, n)
    ensures SmallBatches(At(c, ls, j).workers, n)
    decreases j - i
  {
    if i < j {
      SmallOne(c, ls, n, i);
      SmallFrom(c, ls, n, i + 1, j);
    }
  }

  lemma SmallRun(c: Config, ls: seq<Label>, n: nat, i: nat)
    requires Legal(c, ls) && FewThreads(c, ls, n) && i <= |ls|
    ensures SmallBatches(At(c, ls, i).workers, n)
  {
    assert At(c, ls, 0) == INIT;
    SmallFrom(c, ls, n, 0, i);
  }

  /** If at most `n` threads take part in any one epoch, at most n * (MAX_WORKERS + 1)
      buffers are ever created, however long the run and however slow the workers. */
  lemma MemoryBound(c: Config, ls: seq<Label>, n: nat)
    requires Legal(c, ls) && FewThreads(c, ls, n)
    ensures |After(c, ls).sh.bufs| <= n * (c.maxWorkers + 1)
  {
    CreatedIsPeak(c, ls);
    PeakAtMost(c, ls, n, |ls|);
    assert ls[..|ls|] == ls;
  }

  lemma InUseAtMost(c: Config, ls: seq<Label>, n: nat, i: nat)
    requires Legal(c, ls) && FewThreads(c, ls, n) && i <= |ls|
    ensures InUse(At(c, ls, i)) <= n * (c.maxWorkers + 1)
  {
    AtBasic(c, ls, i);
    OneBufferEach(c, At(c, ls, i));
    SmallRun(c, ls, n, i);
    SmallInUse(c, At(c, ls, i), n);
  }

  lemma SmallInUse(c: Config, s: State, n: nat)
    requires Sizes(c, s) && SmallBatches(s.workers, n) && |s.sh.allocatedBufs| <= n
    ensures InUse(s) <= n * (c.maxWorkers + 1)
  {
    HeldAtMost(s.workers, n);
    MulAtMost(n, InFlightCount(s.workers), c.maxWorkers);
  }

  lemma MulAtMost(n: nat, x: nat, y: nat)
    requires x <= y
    ensures n + n * x <= n * (y + 1)
  {
  }

  lemma {:induction false} PeakAtMost(c: Config, ls: seq<Label>, n: nat, i: nat)
    requires Legal(c, ls) && FewThreads(c, ls, n) && i <= |ls|
    ensures Legal(c, ls[..i]) && PeakInUse(c, ls[..i]) <= n * (c.maxWorkers + 1)
  {
    LegalPrefix(c, ls, i);
    if i > 0 {
      PeakAtMost(c, ls, n, i - 1);
      assert ls[..i][..i - 1] == ls[..i - 1];
      InUseAtMost(c, ls, n, i);
    }
  }

  // ---------------------------------------------------------------- epochs, batches, coordinators

  /** A batch in flight holds exactly the buffers of one epoch, one for each thread that
      took part in it, those that exited included; different batches have different epochs. */
  lemma BatchIsEpoch(c: Config, ls: seq<Label>, w: nat)
    requires Legal(c, ls) && w < |After(c, ls).workers| && InFlight(After(c, ls).workers[w])
    ensures var s := After(c, ls);
            var wk := s.workers[w];
            && (forall i | 0 <= i < |wk.batch| ::
                  s.sh.bufs[wk.batch[i]].epoch == wk.epoch && s.sh.bufs[wk.batch[i]].threadId == wk.owners[i])
            && NoDup(wk.owners)
            && (forall t | 0 <= t < |s.threads| :: t in wk.owners <==> wk.epoch in s.threads[t].logs)
            && (forall v | 0 <= v < |s.workers| && v != w :: s.workers[v].epoch != wk.epoch)
            && wk.epoch < s.sh.epoch
  {
    BasicRun(c, ls);
    var s := After(c, ls);
    assert WorkerOk(s, w);
    forall v | 0 <= v < |s.workers| && v != w ensures s.workers[v].epoch != s.workers[w].epoch {
      assert WorkerOk(s, v);
    }
  }

  /** The epochs of a thread's buffers strictly increase. */
  lemma EpochsIncrease(c: Config, ls: seq<Label>, l: Label)
    requires Legal(c, ls) && Enabled(c, After(c, ls), l) && (l.Alloc? || l.AllocForRef?)
    ensures l.t < |Next(c, After(c, ls), l).threads|
    ensures NewestEpoch(After(c, ls), Next(c, After(c, ls), l), l.t)
  {
    var s := After(c, ls);
    BasicRun(c, ls);
    AllocFindsNull(c, s, l);
    assert LogsOk(s, l.t);
    AllocNewest(c, s, l);
  }

  /** From `s` to `s'` thread `t` takes a buffer, of the current epoch, after all its others. */
  ghost predicate NewestEpoch(s: State, s': State, t: ThreadId)
    requires InRange(s') && t < |s.threads| && t < |s'.threads|
  {
    && s'.threads[t].logs.Keys == s.threads[t].logs.Keys + {s.sh.epoch}
    && (forall e | e in s.threads[t].logs :: e < s.sh.epoch)
    && s'.sh.cells[t].ctx.Some? && s'.sh.bufs[s'.sh.cells[t].ctx.value].epoch == s.sh.epoch
  }

  lemma AllocNewest(c: Config, s: State, l: Label)
    requires InRange(s) && Enabled(c, s, l) && (l.Alloc? || l.AllocForRef?)
    requires s.sh.cells[l.t].ptr.None? && LogsOk(s, l.t)
    ensures l.t < |Next(c, s, l).threads| && NewestEpoch(s, Next(c, s, l), l.t)
  {
  }

  /** Step `i` of the run is a tryIncEpoch that succeeds. */
  ghost predicate Coordinates(c: Config, ls: seq<Label>, i: nat)
    requires Legal(c, ls) && i < |ls|
  {
    AtStep(c, ls, i);
    ls[i].TryInc? && At(c, ls, i + 1).sh.epoch != At(c, ls, i).sh.epoch
  }

  lemma EpochStep(c: Config, s: State, l: Label)
    requires InRange(s) && Enabled(c, s, l)
    ensures var s' := Next(c, s, l);
            || s'.sh.epoch == s.sh.epoch
            || (&& l.TryInc? && s'.sh.epoch == s.sh.epoch + 1
                && s.sh.bufs[s.threads[l.t].ref.logBuf].epoch == s.sh.epoch)
  {
  }

  lemma {:induction false} EpochMonotone(c: Config, ls: seq<Label>, i: nat, j: nat)
    requires Legal(c, ls) && i <= j <= |ls|
    ensures At(c, ls, i).sh.epoch <= At(c, ls, j).sh.epoch
    decreases j - i
  {
    if i < j {
      AtStep(c, ls, i);
      EpochStep(c, At(c, ls, i), ls[i]);
      EpochMonotone(c, ls, i + 1, j);
    }
  }

  /** Two successful calls end different epochs: an epoch has at most one coordinator. */
  lemma OneCoordinator(c: Config, ls: seq<Label>, i: nat, j: nat)
    requires Legal(c, ls) && i < j < |ls| && Coordinates(c, ls, i) && Coordinates(c, ls, j)
    ensures At(c, ls, i).sh.epoch < At(c, ls, j).sh.epoch
  {
    AtStep(c, ls, i);
    EpochStep(c, At(c, ls, i), ls[i]);
    EpochMonotone(c, ls, i + 1, j);
  }

  /** Every epoch that is over had a coordinator, whose own buffer was of that epoch. */
  lemma {:induction false} SomeCoordinator(c: Config, ls: seq<Label>, e: nat) returns (i: nat)
    requires Legal(c, ls) && e < After(c, ls).sh.epoch
    ensures i < |ls| && Coordinates(c, ls, i) && At(c, ls, i).sh.epoch == e
    ensures var s := At(c, ls, i);
            && ls[i].t < |s.threads| && s.threads[ls[i].t].pc.Full?
            && s.sh.bufs[s.threads[ls[i].t].ref.logBuf].epoch == e
  {
    var k := |ls| - 1;
    AtStep(c, ls, k);
    EpochStep(c, At(c, ls, k), ls[k]);
    assert ls[..|ls|] == ls;
    if At(c, ls, k).sh.epoch <= e {
      i := k;
    } else {
      LegalPrefix(c, ls, k);
      i := SomeCoordinator(c, ls[..k], e);
      PrefixAt(c, ls, k, i);
      PrefixAt(c, ls, k, i + 1);
    }
  }

  lemma PrefixAt(c: Config, ls: seq<Label>, k: nat, i: nat)
    requires Legal(c, ls) && i <= k <= |ls|
    ensures Legal(c, ls[..k]) && At(c, ls[..k], i) == At(c, ls, i)
  {
    LegalPrefix(c, ls, k);
    assert ls[..k][..i] == ls[..i];
  }
}
