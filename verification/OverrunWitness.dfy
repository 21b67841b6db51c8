/** A run on which an event is stored past the end of a buffer: two threads, no worker to
    spare, and no Ref ever built on a NULL pointer by a thread that had a buffer.  In each
    round the thread whose buffer is full drops the batch; the other one takes that buffer,
    writes its own empty count into it, and builds its Ref after the first one has written
    its full count back.  It stores one event past it and is full again. */
module OverrunWitness {
  import opened Protocol
  import opened Bookkeeping
  import opened Ownership
  import opened Witnesses
  import SkipWitness

  // ---------------------------------------------------------------- the stages of a round

  /** Threads `p` and `q`, buffers `a` and `b`; every batch will be dropped. */
  ghost predicate Pair(c: Config, s: State, p: ThreadId, q: ThreadId, a: BufId, b: BufId) {
    && InRange(s) && s.fault.None? && !s.orphaned && |s.threads| == 2
    && p < 2 && q < 2 && p != q && a != b && a < |s.sh.bufs| && b < |s.sh.bufs|
    && |s.sh.bufs[a].slots| == c.Capacity() && |s.sh.bufs[b].slots| == c.Capacity()
    && s.sh.activeWorkers >= c.maxWorkers
  }

  predicate Both(xs: seq<BufId>, a: BufId, b: BufId) {
    xs == [a, b] || xs == [b, a]
  }

  /** The two buffers are the batch of the current epoch, and nothing else is free. */
  ghost predicate Taken(s: State, a: BufId, b: BufId)
    requires a < |s.sh.bufs|
  {
    && Both(s.sh.allocatedBufs, a, b) && s.sh.freeBufs == [] && s.sh.tlsBufAddrs == {0, 1}
    && s.sh.bufs[a].epoch == s.sh.epoch
  }

  /** Thread `p` has filled buffer `a`, up to a count of `x`; `q` has an empty buffer `b`. */
  ghost predicate Round(c: Config, s: State, p: ThreadId, q: ThreadId, a: BufId, b: BufId, x: nat) {
    && Pair(c, s, p, q, a, b) && Taken(s, a, b)
    && s.threads[p].pc == Full && s.threads[p].ref.logBuf == a && s.threads[p].ref.events == x
    && s.threads[q].pc == Ready && s.threads[q].ref.logBuf == b && s.threads[q].ref.events == 0
  }

  /** The batch is dropped, both pointers are NULL. */
  ghost predicate Revoked(c: Config, s: State, p: ThreadId, q: ThreadId, a: BufId, b: BufId, x: nat) {
    && Pair(c, s, p, q, a, b)
    && s.sh.allocatedBufs == [] && Both(s.sh.freeBufs, a, b) && s.sh.tlsBufAddrs == {}
    && s.sh.cells[p].ptr.None? && s.sh.cells[q].ptr.None?
    && s.threads[p].pc == Allocating && s.threads[p].ref.logBuf == a && s.threads[p].ref.events == x
    && s.threads[q].ref.logBuf == b && s.threads[q].ref.events == 0
  }

  /** The buffers are exchanged, not written back. */
  ghost predicate Exchanged(c: Config, s: State, p: ThreadId, q: ThreadId, a: BufId, b: BufId, x: nat) {
    && Pair(c, s, p, q, a, b) && Taken(s, a, b) && s.sh.bufs[a].nextRdtscTime == c.batchSize
    && s.sh.cells[p] == Cell(Some(b), Some(b)) && s.sh.cells[q] == Cell(Some(a), Some(a))
    && s.threads[p].pc == Switching(b) && s.threads[p].ref.logBuf == a && s.threads[p].ref.events == x
  }

  // ---------------------------------------------------------------- the batch is dropped

  lemma DropStep(c: Config, s: State, p: ThreadId, q: ThreadId, a: BufId, b: BufId, x: nat)
    requires Round(c, s, p, q, a, b, x)
    ensures Enabled(c, s, TryInc(p))
    ensures Revoked(c, LogStep(c, s, TryInc(p)), p, q, a, b, x)
    ensures LogStep(c, s, TryInc(p)).threads[q].pc == Ready
  {
  }

  // ---------------------------------------------------------------- thread q finds out

  lemma MissLoad(c: Config, s: State, p: ThreadId, q: ThreadId, a: BufId, b: BufId, x: nat)
    requires Revoked(c, s, p, q, a, b, x) && s.threads[q].pc == Ready
    ensures Enabled(c, s, LoadPtr(q, 0))
    ensures var s' := LogStep(c, s, LoadPtr(q, 0));
            Revoked(c, s', p, q, a, b, x) && s'.threads[q].pc == Loaded(0, None)
  {
  }

  lemma MissStore(c: Config, s: State, p: ThreadId, q: ThreadId, a: BufId, b: BufId, x: nat)
    requires Revoked(c, s, p, q, a, b, x) && s.threads[q].pc == Loaded(0, None)
    ensures Enabled(c, s, Store(q))
    ensures var s' := LogStep(c, s, Store(q));
            Revoked(c, s', p, q, a, b, x) && s'.threads[q].pc == Stored(0, None)
  {
  }

  lemma MissCount(c: Config, s: State, p: ThreadId, q: ThreadId, a: BufId, b: BufId, x: nat)
    requires Revoked(c, s, p, q, a, b, x) && s.threads[q].pc == Stored(0, None)
    ensures Enabled(c, s, Count(q))
    ensures var s' := LogStep(c, s, Count(q));
            Revoked(c, s', p, q, a, b, x) && s'.threads[q].pc == Allocating
  {
  }

  // ---------------------------------------------------------------- the exchange

  function AllocOf(c: Config, t: ThreadId): Label {
    Alloc(t, SkipWitness.Zeros(c.Capacity()))
  }

  /** The thread to whom the last buffer of the pool is not its own goes first. */
  function Earlier(sh: Shared, p: ThreadId, q: ThreadId, b: BufId): ThreadId {
    if NextBuffer(sh) == b then p else q
  }

  /** One of them has its new buffer. */
  ghost predicate HalfWay(c: Config, s: State, p: ThreadId, q: ThreadId, a: BufId, b: BufId, x: nat, u: ThreadId) {
    && Pair(c, s, p, q, a, b) && (u == p || u == q) && s.sh.tlsBufAddrs == {u}
    && s.threads[p].ref.logBuf == a && s.threads[p].ref.events == x
    && s.threads[q].ref.logBuf == b && s.threads[q].ref.events == 0
    && if u == p then
         && s.sh.allocatedBufs == [b] && s.sh.freeBufs == [a] && s.sh.cells[p] == Cell(Some(b), Some(b))
         && s.threads[p].pc == Switching(b) && s.threads[q].pc == Allocating && s.sh.cells[q].ptr.None?
       else
         && s.sh.allocatedBufs == [a] && s.sh.freeBufs == [b] && s.sh.cells[q] == Cell(Some(a), Some(a))
         && s.sh.bufs[a].nextRdtscTime == c.batchSize && s.sh.bufs[a].epoch == s.sh.epoch
         && s.threads[q].pc == Switching(a) && s.threads[p].pc == Allocating && s.sh.cells[p].ptr.None?
  }

  lemma FirstTake(c: Config, s: State, p: ThreadId, q: ThreadId, a: BufId, b: BufId, x: nat)
    requires Revoked(c, s, p, q, a, b, x) && s.threads[q].pc == Allocating
    ensures var u := Earlier(s.sh, p, q, b);
            && Enabled(c, s, AllocOf(c, u))
            && HalfWay(c, LogStep(c, s, AllocOf(c, u)), p, q, a, b, x, u)
  {
  }

  lemma SecondTake(c: Config, s: State, p: ThreadId, q: ThreadId, a: BufId, b: BufId, x: nat, u: ThreadId)
    requires HalfWay(c, s, p, q, a, b, x, u)
    ensures var v := if u == p then q else p;
            && Enabled(c, s, AllocOf(c, v))
            && var s' := LogStep(c, s, AllocOf(c, v));
               && Exchanged(c, s', p, q, a, b, x)
               && s'.threads[q].pc == Switching(a) && s'.threads[q].ref.logBuf == b
  {
  }

  // ---------------------------------------------------------------- thread q moves and drops its Ref

  lemma MoveWriteBack(c: Config, s: State, p: ThreadId, q: ThreadId, a: BufId, b: BufId, x: nat)
    requires Exchanged(c, s, p, q, a, b, x) && s.threads[q].pc == Switching(a) && s.threads[q].ref.logBuf == b
    ensures Enabled(c, s, WriteBack(q))
    ensures var s' := LogStep(c, s, WriteBack(q));
            Exchanged(c, s', p, q, a, b, x) && s'.threads[q].pc == WroteBack(a) && s'.threads[q].ref.logBuf == b
  {
  }

  lemma MoveClose(c: Config, s: State, p: ThreadId, q: ThreadId, a: BufId, b: BufId, x: nat)
    requires Exchanged(c, s, p, q, a, b, x) && s.threads[q].pc == WroteBack(a) && s.threads[q].ref.logBuf == b
    ensures Enabled(c, s, Close(q))
    ensures var s' := LogStep(c, s, Close(q));
            Exchanged(c, s', p, q, a, b, x) && s'.threads[q].pc == Detached(a)
  {
  }

  lemma MoveAdopt(c: Config, s: State, p: ThreadId, q: ThreadId, a: BufId, b: BufId, x: nat)
    requires Exchanged(c, s, p, q, a, b, x) && s.threads[q].pc == Detached(a)
    ensures Enabled(c, s, Adopt(q))
    ensures var s' := LogStep(c, s, Adopt(q));
            Exchanged(c, s', p, q, a, b, x) && s'.threads[q].pc == Ready && s'.threads[q].ref == Ref(a, 0, c.batchSize)
  {
  }

  lemma MoveDrop(c: Config, s: State, p: ThreadId, q: ThreadId, a: BufId, b: BufId, x: nat)
    requires Exchanged(c, s, p, q, a, b, x) && s.threads[q].pc == Ready && s.threads[q].ref == Ref(a, 0, c.batchSize)
    ensures Enabled(c, s, DropEvents(q))
    ensures var s' := RefStep(c, s, DropEvents(q));
            Exchanged(c, s', p, q, a, b, x) && s'.threads[q].pc == Dropping && s'.threads[q].ref == Ref(a, 0, c.batchSize)
  {
  }

  lemma MoveIdle(c: Config, s: State, p: ThreadId, q: ThreadId, a: BufId, b: BufId, x: nat)
    requires Exchanged(c, s, p, q, a, b, x) && s.threads[q].pc == Dropping && s.threads[q].ref == Ref(a, 0, c.batchSize)
    ensures Enabled(c, s, DropDeadline(q))
    ensures var s' := RefStep(c, s, DropDeadline(q));
            Exchanged(c, s', p, q, a, b, x) && s'.threads[q].pc == Idle
  {
  }

  lemma MoveAcquire(c: Config, s: State, p: ThreadId, q: ThreadId, a: BufId, b: BufId, x: nat)
    requires Exchanged(c, s, p, q, a, b, x) && s.threads[q].pc == Idle
    ensures Enabled(c, s, LoadForRef(q))
    ensures var s' := RefStep(c, s, LoadForRef(q));
            Exchanged(c, s', p, q, a, b, x) && s'.threads[q].pc == Acquired(Some(a))
  {
  }

  // ---------------------------------------------------------------- the full count comes back

  /** Thread `p` has written its count into the buffer that thread `q` has. */
  ghost predicate Overwritten(c: Config, s: State, p: ThreadId, q: ThreadId, a: BufId, b: BufId, x: nat) {
    && Pair(c, s, p, q, a, b) && Taken(s, a, b)
    && s.sh.cells[p] == Cell(Some(b), Some(b)) && s.sh.cells[q] == Cell(Some(a), Some(a))
    && s.threads[p].pc == WroteBack(b) && s.threads[p].ref.logBuf == a
  }

  lemma LateWriteBack(c: Config, s: State, p: ThreadId, q: ThreadId, a: BufId, b: BufId, x: nat)
    requires Exchanged(c, s, p, q, a, b, x) && s.threads[q].pc == Acquired(Some(a))
    ensures Enabled(c, s, WriteBack(p))
    ensures var s' := LogStep(c, s, WriteBack(p));
            && Overwritten(c, s', p, q, a, b, x) && s'.threads[q].pc == Acquired(Some(a))
            && s'.sh.bufs[a].events == x && s'.sh.bufs[a].nextRdtscTime == c.batchSize
  {
  }

  lemma BadRef(c: Config, s: State, p: ThreadId, q: ThreadId, a: BufId, b: BufId, x: nat)
    requires Overwritten(c, s, p, q, a, b, x) && s.threads[q].pc == Acquired(Some(a))
    requires s.sh.bufs[a].events == x && s.sh.bufs[a].nextRdtscTime == c.batchSize
    ensures Enabled(c, s, MakeRef(q))
    ensures var s' := RefStep(c, s, MakeRef(q));
            Overwritten(c, s', p, q, a, b, x) && s'.threads[q].pc == Ready && s'.threads[q].ref == Ref(a, x, c.batchSize)
  {
  }

  lemma BadLoad(c: Config, s: State, p: ThreadId, q: ThreadId, a: BufId, b: BufId, x: nat)
    requires Overwritten(c, s, p, q, a, b, x) && s.threads[q].pc == Ready && s.threads[q].ref == Ref(a, x, c.batchSize)
    ensures Enabled(c, s, LoadPtr(q, 0))
    ensures var s' := LogStep(c, s, LoadPtr(q, 0));
            && Overwritten(c, s', p, q, a, b, x) && s'.threads[q].pc == Loaded(0, Some(a))
            && s'.threads[q].ref == Ref(a, x, c.batchSize)
  {
  }

  lemma BadStore(c: Config, s: State, p: ThreadId, q: ThreadId, a: BufId, b: BufId, x: nat)
    requires Overwritten(c, s, p, q, a, b, x)
    requires s.threads[q].pc == Loaded(0, Some(a)) && s.threads[q].ref == Ref(a, x, c.batchSize)
    ensures Enabled(c, s, Store(q))
    ensures var s' := LogStep(c, s, Store(q));
            if x >= c.Capacity() then s'.fault == Some(StorageOverrun) && !s'.orphaned
            else && Overwritten(c, s', p, q, a, b, x) && s'.threads[q].pc == Stored(0, Some(a))
                 && s'.threads[q].ref == Ref(a, x, c.batchSize)
  {
  }

  lemma BadCount(c: Config, s: State, p: ThreadId, q: ThreadId, a: BufId, b: BufId, x: nat)
    requires c.Valid() && Overwritten(c, s, p, q, a, b, x) && x >= c.batchSize && x + 1 >= c.maxEvents
    requires s.threads[q].pc == Stored(0, Some(a)) && s.threads[q].ref == Ref(a, x, c.batchSize)
    ensures Enabled(c, s, Count(q))
    ensures var s' := LogStep(c, s, Count(q));
            && Overwritten(c, s', p, q, a, b, x) && s'.threads[q].pc == Full
            && s'.threads[q].ref.logBuf == a && s'.threads[q].ref.events == x + 1
  {
  }

  // ---------------------------------------------------------------- the roles change

  lemma EndClose(c: Config, s: State, p: ThreadId, q: ThreadId, a: BufId, b: BufId, x: nat)
    requires Overwritten(c, s, p, q, a, b, x)
    requires s.threads[q].pc == Full && s.threads[q].ref.logBuf == a && s.threads[q].ref.events == x + 1
    ensures Enabled(c, s, Close(p)) && Enabled(c, LogStep(c, s, Close(p)), Adopt(p))
    ensures Round(c, DoAdopt(c, DoClose(s, p), p), q, p, a, b, x + 1)
  {
  }

  // ---------------------------------------------------------------- the rounds, along a run

  lemma ExtendLog(c: Config, ls: seq<Label>, l: Label)
    requires Legal(c, ls) && Enabled(c, After(c, ls), l) && IsLogLabel(l)
    ensures Legal(c, ls + [l]) && After(c, ls + [l]) == LogStep(c, After(c, ls), l)
  {
    SkipWitness.Extend(c, ls, l);
  }

  lemma ExtendRef(c: Config, ls: seq<Label>, l: Label)
    requires Legal(c, ls) && Enabled(c, After(c, ls), l) && IsRefLabel(l)
    ensures Legal(c, ls + [l]) && After(c, ls + [l]) == RefStep(c, After(c, ls), l)
  {
    SkipWitness.Extend(c, ls, l);
  }

  lemma RunDrop(c: Config, ls: seq<Label>, p: ThreadId, q: ThreadId, a: BufId, b: BufId, x: nat) returns (ls': seq<Label>)
    requires Legal(c, ls) && Round(c, After(c, ls), p, q, a, b, x)
    ensures Legal(c, ls') && Revoked(c, After(c, ls'), p, q, a, b, x) && After(c, ls').threads[q].pc == Ready
  {
    DropStep(c, After(c, ls), p, q, a, b, x);
    ExtendLog(c, ls, TryInc(p));
    ls' := ls + [TryInc(p)];
  }

  lemma RunMissLoad(c: Config, ls: seq<Label>, p: ThreadId, q: ThreadId, a: BufId, b: BufId, x: nat) returns (ls': seq<Label>)
    requires Legal(c, ls) && Revoked(c, After(c, ls), p, q, a, b, x) && After(c, ls).threads[q].pc == Ready
    ensures Legal(c, ls') && Revoked(c, After(c, ls'), p, q, a, b, x) && After(c, ls').threads[q].pc == Loaded(0, None)
  {
    MissLoad(c, After(c, ls), p, q, a, b, x);
    ExtendLog(c, ls, LoadPtr(q, 0));
    ls' := ls + [LoadPtr(q, 0)];
  }

  lemma RunStore(c: Config, ls: seq<Label>, p: ThreadId, q: ThreadId, a: BufId, b: BufId, x: nat) returns (ls': seq<Label>)
    requires Legal(c, ls) && Revoked(c, After(c, ls), p, q, a, b, x) && After(c, ls).threads[q].pc == Loaded(0, None)
    ensures Legal(c, ls') && Revoked(c, After(c, ls'), p, q, a, b, x) && After(c, ls').threads[q].pc == Stored(0, None)
  {
    MissStore(c, After(c, ls), p, q, a, b, x);
    ExtendLog(c, ls, Store(q));
    ls' := ls + [Store(q)];
  }

  lemma RunMiss(c: Config, ls: seq<Label>, p: ThreadId, q: ThreadId, a: BufId, b: BufId, x: nat) returns (ls': seq<Label>)
    requires Legal(c, ls) && Revoked(c, After(c, ls), p, q, a, b, x) && After(c, ls).threads[q].pc == Stored(0, None)
    ensures Legal(c, ls') && Revoked(c, After(c, ls'), p, q, a, b, x) && After(c, ls').threads[q].pc == Allocating
  {
    MissCount(c, After(c, ls), p, q, a, b, x);
    ExtendLog(c, ls, Count(q));
    ls' := ls + [Count(q)];
  }

  lemma RunExchange(c: Config, ls: seq<Label>, p: ThreadId, q: ThreadId, a: BufId, b: BufId, x: nat) returns (ls': seq<Label>)
    requires Legal(c, ls) && Revoked(c, After(c, ls), p, q, a, b, x) && After(c, ls).threads[q].pc == Allocating
    ensures Legal(c, ls') && Exchanged(c, After(c, ls'), p, q, a, b, x)
    ensures After(c, ls').threads[q].pc == Switching(a) && After(c, ls').threads[q].ref.logBuf == b
  {
    var u := Earlier(After(c, ls).sh, p, q, b);
    FirstTake(c, After(c, ls), p, q, a, b, x);
    ExtendLog(c, ls, AllocOf(c, u));
    ls' := RunSecondTake(c, ls + [AllocOf(c, u)], p, q, a, b, x, u);
  }

  lemma RunSecondTake(c: Config, ls: seq<Label>, p: ThreadId, q: ThreadId, a: BufId, b: BufId, x: nat, u: ThreadId) returns (ls': seq<Label>)
    requires Legal(c, ls) && HalfWay(c, After(c, ls), p, q, a, b, x, u)
    ensures Legal(c, ls') && Exchanged(c, After(c, ls'), p, q, a, b, x)
    ensures After(c, ls').threads[q].pc == Switching(a) && After(c, ls').threads[q].ref.logBuf == b
  {
    var v := if u == p then q else p;
    SecondTake(c, After(c, ls), p, q, a, b, x, u);
    ExtendLog(c, ls, AllocOf(c, v));
    ls' := ls + [AllocOf(c, v)];
  }

  lemma RunMove(c: Config, ls: seq<Label>, p: ThreadId, q: ThreadId, a: BufId, b: BufId, x: nat) returns (ls': seq<Label>)
    requires Legal(c, ls) && Exchanged(c, After(c, ls), p, q, a, b, x)
    requires After(c, ls).threads[q].pc == Switching(a) && After(c, ls).threads[q].ref.logBuf == b
    ensures Legal(c, ls') && Exchanged(c, After(c, ls'), p, q, a, b, x) && After(c, ls').threads[q].pc == Detached(a)
  {
    MoveWriteBack(c, After(c, ls), p, q, a, b, x);
    ExtendLog(c, ls, WriteBack(q));
    ls' := ls + [WriteBack(q)];
    MoveClose(c, After(c, ls'), p, q, a, b, x);
    ExtendLog(c, ls', Close(q));
    ls' := ls' + [Close(q)];
  }

  lemma RunAcquire(c: Config, ls: seq<Label>, p: ThreadId, q: ThreadId, a: BufId, b: BufId, x: nat) returns (ls': seq<Label>)
    requires Legal(c, ls) && Exchanged(c, After(c, ls), p, q, a, b, x) && After(c, ls).threads[q].pc == Detached(a)
    ensures Legal(c, ls') && Exchanged(c, After(c, ls'), p, q, a, b, x) && After(c, ls').threads[q].pc == Acquired(Some(a))
  {
    MoveAdopt(c, After(c, ls), p, q, a, b, x);
    ExtendLog(c, ls, Adopt(q));
    ls' := ls + [Adopt(q)];
    MoveDrop(c, After(c, ls'), p, q, a, b, x);
    ExtendRef(c, ls', DropEvents(q));
    ls' := ls' + [DropEvents(q)];
    MoveIdle(c, After(c, ls'), p, q, a, b, x);
    ExtendRef(c, ls', DropDeadline(q));
    ls' := ls' + [DropDeadline(q)];
    MoveAcquire(c, After(c, ls'), p, q, a, b, x);
    ExtendRef(c, ls', LoadForRef(q));
    ls' := ls' + [LoadForRef(q)];
  }

  lemma RunBad(c: Config, ls: seq<Label>, p: ThreadId, q: ThreadId, a: BufId, b: BufId, x: nat) returns (ls': seq<Label>)
    requires Legal(c, ls) && Exchanged(c, After(c, ls), p, q, a, b, x) && After(c, ls).threads[q].pc == Acquired(Some(a))
    ensures Legal(c, ls') && Overwritten(c, After(c, ls'), p, q, a, b, x)
    ensures After(c, ls').threads[q].pc == Ready && After(c, ls').threads[q].ref == Ref(a, x, c.batchSize)
  {
    LateWriteBack(c, After(c, ls), p, q, a, b, x);
    ExtendLog(c, ls, WriteBack(p));
    ls' := ls + [WriteBack(p)];
    BadRef(c, After(c, ls'), p, q, a, b, x);
    ExtendRef(c, ls', MakeRef(q));
    ls' := ls' + [MakeRef(q)];
  }

  lemma RunLoad(c: Config, ls: seq<Label>, p: ThreadId, q: ThreadId, a: BufId, b: BufId, x: nat) returns (ls': seq<Label>)
    requires Legal(c, ls) && Overwritten(c, After(c, ls), p, q, a, b, x)
    requires After(c, ls).threads[q].pc == Ready && After(c, ls).threads[q].ref == Ref(a, x, c.batchSize)
    ensures Legal(c, ls') && Overwritten(c, After(c, ls'), p, q, a, b, x)
    ensures After(c, ls').threads[q].pc == Loaded(0, Some(a)) && After(c, ls').threads[q].ref == Ref(a, x, c.batchSize)
  {
    BadLoad(c, After(c, ls), p, q, a, b, x);
    ExtendLog(c, ls, LoadPtr(q, 0));
    ls' := ls + [LoadPtr(q, 0)];
  }

  lemma RunEnd(c: Config, ls: seq<Label>, p: ThreadId, q: ThreadId, a: BufId, b: BufId, x: nat) returns (ls': seq<Label>)
    requires c.Valid() && Legal(c, ls) && Overwritten(c, After(c, ls), p, q, a, b, x)
    requires x >= c.batchSize && x + 1 >= c.maxEvents && x < c.Capacity()
    requires After(c, ls).threads[q].pc == Loaded(0, Some(a)) && After(c, ls).threads[q].ref == Ref(a, x, c.batchSize)
    ensures Legal(c, ls') && Round(c, After(c, ls'), q, p, a, b, x + 1)
  {
    BadStore(c, After(c, ls), p, q, a, b, x);
    ExtendLog(c, ls, Store(q));
    ls' := RunCount(c, ls + [Store(q)], p, q, a, b, x);
    ls' := RunRoles(c, ls', p, q, a, b, x);
  }

  lemma RunCount(c: Config, ls: seq<Label>, p: ThreadId, q: ThreadId, a: BufId, b: BufId, x: nat) returns (ls': seq<Label>)
    requires c.Valid() && Legal(c, ls) && Overwritten(c, After(c, ls), p, q, a, b, x)
    requires x >= c.batchSize && x + 1 >= c.maxEvents
    requires After(c, ls).threads[q].pc == Stored(0, Some(a)) && After(c, ls).threads[q].ref == Ref(a, x, c.batchSize)
    ensures Legal(c, ls') && Overwritten(c, After(c, ls'), p, q, a, b, x)
    ensures var th := After(c, ls').threads[q]; th.pc == Full && th.ref.logBuf == a && th.ref.events == x + 1
  {
    BadCount(c, After(c, ls), p, q, a, b, x);
    ExtendLog(c, ls, Count(q));
    ls' := ls + [Count(q)];
  }

  lemma RunRoles(c: Config, ls: seq<Label>, p: ThreadId, q: ThreadId, a: BufId, b: BufId, x: nat) returns (ls': seq<Label>)
    requires Legal(c, ls) && Overwritten(c, After(c, ls), p, q, a, b, x)
    requires var th := After(c, ls).threads[q]; th.pc == Full && th.ref.logBuf == a && th.ref.events == x + 1
    ensures Legal(c, ls') && Round(c, After(c, ls'), q, p, a, b, x + 1)
  {
    EndClose(c, After(c, ls), p, q, a, b, x);
    ExtendLog(c, ls, Close(p));
    ExtendLog(c, ls + [Close(p)], Adopt(p));
    ls' := ls + [Close(p)] + [Adopt(p)];
  }

  /** Until the store of a round. */
  lemma HalfRound(c: Config, ls: seq<Label>, p: ThreadId, q: ThreadId, a: BufId, b: BufId, x: nat) returns (ls': seq<Label>)
    requires Legal(c, ls) && Round(c, After(c, ls), p, q, a, b, x)
    ensures Legal(c, ls') && Overwritten(c, After(c, ls'), p, q, a, b, x)
    ensures After(c, ls').threads[q].pc == Loaded(0, Some(a)) && After(c, ls').threads[q].ref == Ref(a, x, c.batchSize)
  {
    ls' := RunDrop(c, ls, p, q, a, b, x);
    ls' := RunMissLoad(c, ls', p, q, a, b, x);
    ls' := RunStore(c, ls', p, q, a, b, x);
    ls' := RunMiss(c, ls', p, q, a, b, x);
    ls' := RunExchange(c, ls', p, q, a, b, x);
    ls' := RunMove(c, ls', p, q, a, b, x);
    ls' := RunAcquire(c, ls', p, q, a, b, x);
    ls' := RunBad(c, ls', p, q, a, b, x);
    ls' := RunLoad(c, ls', p, q, a, b, x);
  }

  /** Each round the count in the buffer is one higher, until the store is past the end. */
  lemma {:induction false} Climb(c: Config, ls: seq<Label>, p: ThreadId, q: ThreadId, a: BufId, b: BufId, x: nat) returns (ls': seq<Label>)
    requires c.Valid() && Legal(c, ls) && Round(c, After(c, ls), p, q, a, b, x)
    requires x >= c.batchSize && x + 1 >= c.maxEvents
    ensures Legal(c, ls') && After(c, ls').fault == Some(StorageOverrun) && !After(c, ls').orphaned
    decreases c.Capacity() - x
  {
    ls' := HalfRound(c, ls, p, q, a, b, x);
    if x < c.Capacity() {
      ls' := RunEnd(c, ls', p, q, a, b, x);
      ls' := Climb(c, ls', q, p, a, b, x + 1);
    } else {
      BadStore(c, After(c, ls'), p, q, a, b, x);
      ExtendLog(c, ls', Store(q));
      ls' := ls' + [Store(q)];
    }
  }

  // ---------------------------------------------------------------- the theorem

  lemma FirstRound(c: Config, s: State)
    requires c.Valid() && Basic(c, s) && Own(c, s) && SecondTookLast(c, s) && s.sh.freeBufs == [] && !s.orphaned
    requires s.threads[1].ref.events == 0
    ensures Round(c, s, 0, 1, s.threads[0].ref.logBuf, s.threads[1].ref.logBuf, s.threads[0].ref.events)
  {
    assert PointerOk(s, 0) && PointerOk(s, 1) && ThreadOwn(c, s, 0) && ThreadOwn(c, s, 1);
    assert BufferOwn(c, s, s.threads[0].ref.logBuf) && BufferOwn(c, s, s.threads[1].ref.logBuf);
    assert s.threads[0].ref.logBuf in s.sh.allocatedBufs && s.threads[1].ref.logBuf in s.sh.allocatedBufs;
  }

  /** For every choice of the constants there is a run that stores past the end of a buffer;
      no Ref on it leaves an open buffer behind. */
  lemma StorageCanOverrun(c: Config) returns (ls: seq<Label>)
    requires c.Valid()
    ensures Legal(c, ls) && After(c, ls).fault == Some(StorageOverrun) && !After(c, ls).orphaned
  {
    ls := Crowded(c);
    var s := After(c, ls);
    BasicRun(c, ls);
    OwnRun(c, ls);
    FirstRound(c, s);
    LastIndexInside(c);
    ls := Climb(c, ls, 0, 1, s.threads[0].ref.logBuf, s.threads[1].ref.logBuf, s.threads[0].ref.events);
  }
}
