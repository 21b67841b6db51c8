/** Who may write to a buffer, on the runs where no batch was skipped. */
module Ownership {
  import opened Protocol
  import opened Bookkeeping
  import opened Multiples

  // ---------------------------------------------------------------- the invariant

  /** The index of the last word a thread can store: the first deadline at or past
      the last event that leaves room in the buffer. */
  function LastIndex(c: Config): nat
    requires c.Valid()
  {
    RoundUp(c.maxEvents - 1, c.batchSize)
  }

  /** The deadline is the first multiple of the batch at or past the count, and at least one
      batch. */
  ghost predicate Deadline(c: Config, events: nat, nextRdtscTime: nat)
    requires c.Valid()
  {
    && events <= nextRdtscTime && nextRdtscTime % c.batchSize == 0
    && c.batchSize <= nextRdtscTime <= LastIndex(c)
    && (nextRdtscTime == c.batchSize || nextRdtscTime - c.batchSize < events)
  }

  /** Thread `t` has a Ref on buffer `b` that it may still log through or write back. */
  ghost predicate LiveRef(s: State, t: ThreadId, b: BufId)
    requires t < |s.threads|
  {
    HoldsRef(s.threads[t].pc) && s.threads[t].ref.logBuf == b
  }

  ghost predicate OwnedBy(s: State, b: BufId, t: ThreadId) {
    b < |s.sh.bufs| && s.sh.bufs[b].threadId == t && !s.sh.bufs[b].closed && b !in s.sh.freeBufs
  }

  /** The Ref counts exactly the words logged for its buffer, and its deadline is in order. */
  ghost predicate RefOk(c: Config, s: State, t: ThreadId)
    requires c.Valid() && t < |s.threads| && s.threads[t].ref.logBuf < |s.sh.bufs|
  {
    var th := s.threads[t];
    var r, buf := th.ref, s.sh.bufs[th.ref.logBuf];
    && buf.epoch in th.logs && r.events == |th.logs[buf.epoch]|
    && match th.pc
       case Stored(word, _) => && Deadline(c, r.events, r.nextRdtscTime)
                               && r.events < |buf.slots| && buf.slots[r.events] == word
       case Full => r.events == LastIndex(c) + 1
       case Allocating => r.events <= LastIndex(c) + 1
       case Switching(b) => r.events <= LastIndex(c) + 1 && r.logBuf != b
       case WroteBack(b) => r.events <= LastIndex(c) + 1 && r.logBuf != b && buf.events == r.events
       case Dropping => Deadline(c, r.events, r.nextRdtscTime) && buf.events == r.events
       case _ => Deadline(c, r.events, r.nextRdtscTime)
  }

  ghost predicate ThreadOwn(c: Config, s: State, t: ThreadId)
    requires c.Valid() && InRange(s) && t < |s.threads|
  {
    var th, ctx := s.threads[t], s.sh.cells[t].ctx;
    && (!th.pc.Exited? && ctx.Some? ==>
          OwnedBy(s, ctx.value, t) && s.sh.bufs[ctx.value].epoch == th.lastEpoch)
    && (HoldsRef(th.pc) ==> OwnedBy(s, th.ref.logBuf, t) && RefOk(c, s, t))
  }

  ghost predicate BufferOwn(c: Config, s: State, b: BufId)
    requires c.Valid() && InRange(s) && b < |s.sh.bufs|
  {
    var buf := s.sh.bufs[b];
    var t := buf.threadId;
    && |buf.slots| == c.Capacity()
    && (b in s.sh.freeBufs ==> buf.closed)
    && (b !in s.sh.freeBufs ==>
          && buf.epoch in s.threads[t].logs
          && Holds(buf.slots, s.threads[t].logs[buf.epoch])
          && (buf.epoch == s.threads[t].lastEpoch <==> s.sh.cells[t].ctx == Some(b))
          && (!LiveRef(s, t, b) ==> buf.events == |s.threads[t].logs[buf.epoch]|)
          && (!LiveRef(s, t, b) && !buf.closed ==> Deadline(c, buf.events, buf.nextRdtscTime)))
  }

  /** The storage starts with the logged words. */
  ghost predicate Holds(slots: seq<Word>, words: seq<Word>) {
    |words| <= |slots| && slots[..|words|] == words
  }

  function SumLengths(xs: seq<seq<Word>>): nat {
    if xs == [] then 0 else SumLengths(xs[..|xs| - 1]) + |xs[|xs| - 1]|
  }

  /** Thread `t` will not log for epoch `e` any more. */
  ghost predicate Sealed(s: State, t: ThreadId, e: nat)
    requires t < |s.threads|
  {
    e in s.threads[t].logs && (s.threads[t].pc.Exited? || e < s.threads[t].lastEpoch)
  }

  ghost predicate WorkerOwn(s: State, w: nat)
    requires InRange(s) && w < |s.workers|
  {
    var wk := s.workers[w];
    && wk.epoch == w
    && (match wk.pc
        case Waiting(i) => forall j | 0 <= j < i && j < |wk.batch| :: s.sh.bufs[wk.batch[j]].closed
        case Counting(_, sum) => && sum == SumLengths(wk.seen)
                                 && forall j | 0 <= j < |wk.batch| :: s.sh.bufs[wk.batch[j]].closed
        case Finished(sum) => sum == SumLengths(wk.seen))
    && (forall j | 0 <= j < |wk.seen| && j < |wk.owners| ::
          Sealed(s, wk.owners[j], wk.epoch) && wk.seen[j] == s.threads[wk.owners[j]].logs[wk.epoch])
  }

  ghost predicate Own(c: Config, s: State) {
    && c.Valid() && InRange(s) && !s.dropped
    && |s.workers| == s.sh.epoch
    && (forall t | 0 <= t < |s.threads| :: ThreadOwn(c, s, t))
    && (forall b | 0 <= b < |s.sh.bufs| :: BufferOwn(c, s, b))
    && (forall w | 0 <= w < |s.workers| :: WorkerOwn(s, w))
  }

  /** The part of the invariants that concerns thread `t` and the buffers. */
  ghost predicate Local(c: Config, s: State, t: ThreadId) {
    && c.Valid() && InRange(s) && t < |s.threads|
    && PointerOk(s, t) && LogsOk(s, t) && ThreadOwn(c, s, t)
    && (forall b | 0 <= b < |s.sh.bufs| :: BufferOwn(c, s, b))
  }

  // ---------------------------------------------------------------- quiet steps of a thread

  /** What a quiet step of `t` does not disturb: it writes at most to its own open buffer. */
  ghost predicate OwnTouch(c: Config, s: State, s': State, t: ThreadId, touched: set<BufId>)
    requires c.Valid()
  {
    && InRange(s) && InRange(s') && t < |s.threads|
    && OnlyTouches(s, s', t, touched)
    && forall b | b in touched :: OwnedBy(s, b, t)
  }

  lemma OtherThreadOwn(c: Config, s: State, s': State, t: ThreadId, touched: set<BufId>, u: ThreadId)
    requires c.Valid() && OwnTouch(c, s, s', t, touched)
    requires u < |s.threads| && u != t && ThreadOwn(c, s, u)
    ensures ThreadOwn(c, s', u)
  {
  }

  lemma OtherBufferOwn(c: Config, s: State, s': State, t: ThreadId, touched: set<BufId>, b: BufId)
    requires c.Valid() && OwnTouch(c, s, s', t, touched) && b < |s.sh.bufs| && b !in touched && BufferOwn(c, s, b)
    requires b !in s.sh.freeBufs && s.sh.bufs[b].threadId == t ==>
               && LiveRef(s', t, b) == LiveRef(s, t, b)
               && LogOf(s'.threads[t], s.sh.bufs[b].epoch) == LogOf(s.threads[t], s.sh.bufs[b].epoch)
    ensures BufferOwn(c, s', b)
  {
  }

  lemma OtherWorkerOwn(c: Config, s: State, s': State, t: ThreadId, touched: set<BufId>, w: nat)
    requires c.Valid() && OwnTouch(c, s, s', t, touched) && w < |s.workers| && WorkerOwn(s, w)
    requires !s.threads[t].pc.Exited?
    ensures WorkerOwn(s', w)
  {
    var wk := s.workers[w];
    forall j | 0 <= j < |wk.seen| && j < |wk.owners|
      ensures Sealed(s', wk.owners[j], wk.epoch) && wk.seen[j] == s'.threads[wk.owners[j]].logs[wk.epoch]
    {
      assert Sealed(s, wk.owners[j], wk.epoch);
    }
  }

  // Each quiet step, for the thread that takes it and for the buffer its Ref is on.

  lemma OwnMakeRef(c: Config, s: State, t: ThreadId)
    requires Local(c, s, t)
    requires s.threads[t].pc.Acquired? && s.threads[t].pc.buf.Some?
    ensures var s', b := DoMakeRef(s, t, s.threads[t].pc.buf.value), s.threads[t].pc.buf.value;
            ThreadOwn(c, s', t) && BufferOwn(c, s', b) && forall x :: LiveRef(s', t, x) ==> x == b
  {
    var b := s.threads[t].pc.buf.value;
    assert BufferOwn(c, s, b);
  }

  lemma OwnLoadPtr(c: Config, s: State, t: ThreadId, word: Word)
    requires Local(c, s, t) && s.threads[t].pc.Ready?
    ensures ThreadOwn(c, DoLoadPtr(s, t, word), t)
  {
  }

  lemma OwnStore(c: Config, s: State, t: ThreadId)
    requires Local(c, s, t) && s.threads[t].pc.Loaded?
    ensures var s', b := DoStore(s, t), s.threads[t].ref.logBuf;
            ThreadOwn(c, s', t) && BufferOwn(c, s', b) && s'.fault.None? == s.fault.None?
  {
    var b := s.threads[t].ref.logBuf;
    assert BufferOwn(c, s, b);
    LastIndexInside(c);
  }

  /** The last index leaves room for the batch that may follow the full mark. */
  lemma LastIndexInside(c: Config)
    requires c.Valid()
    ensures c.maxEvents - 1 <= LastIndex(c) <= c.maxEvents + c.batchSize - 2
    ensures LastIndex(c) % c.batchSize == 0 && c.batchSize <= LastIndex(c)
  {
    RoundUpBounds(c.maxEvents - 1, c.batchSize);
  }

  /** A hit deadline either moves on to another valid one or marks the buffer full. */
  lemma DeadlineMoves(c: Config, nextRdtscTime: nat)
    requires c.Valid() && Deadline(c, nextRdtscTime, nextRdtscTime)
    ensures if nextRdtscTime + 1 >= c.maxEvents then nextRdtscTime == LastIndex(c)
            else Deadline(c, nextRdtscTime + 1, nextRdtscTime + c.batchSize)
  {
    var n, b, m := nextRdtscTime, c.batchSize, LastIndex(c);
    LastIndexInside(c);
    ModAdd(n, b);
    if n < m {
      StepToMultiple(n, m, b);
    }
  }

  lemma OwnCount(c: Config, s: State, t: ThreadId)
    requires Local(c, s, t) && s.threads[t].pc.Stored?
    ensures var s', b := DoCount(c, s, t), s.threads[t].ref.logBuf;
            ThreadOwn(c, s', t) && BufferOwn(c, s', b)
  {
    var th := s.threads[t];
    var b := th.ref.logBuf;
    assert BufferOwn(c, s, b);
    var buf := s.sh.bufs[b];
    var words := th.logs[th.lastEpoch];
    assert buf.slots[..|words| + 1] == buf.slots[..|words|] + [buf.slots[|words|]];
    if th.ref.events >= th.ref.nextRdtscTime {
      DeadlineMoves(c, th.ref.nextRdtscTime);
    }
  }

  lemma OwnWriteBack(c: Config, s: State, t: ThreadId)
    requires Local(c, s, t) && s.threads[t].pc.Switching?
    ensures var s', b := DoWriteBack(s, t), s.threads[t].ref.logBuf;
            ThreadOwn(c, s', t) && BufferOwn(c, s', b) && s'.fault.None? == s.fault.None?
  {
    var b := s.threads[t].ref.logBuf;
    assert BufferOwn(c, s, b);
  }

  lemma OwnClose(c: Config, s: State, t: ThreadId)
    requires Local(c, s, t) && s.threads[t].pc.WroteBack?
    ensures var s', b := DoClose(s, t), s.threads[t].ref.logBuf;
            ThreadOwn(c, s', t) && BufferOwn(c, s', b)
  {
    var b := s.threads[t].ref.logBuf;
    assert BufferOwn(c, s, b);
  }

  lemma OwnAdopt(c: Config, s: State, t: ThreadId)
    requires Local(c, s, t) && s.threads[t].pc.Detached?
    ensures var s', b := DoAdopt(c, s, t), s.threads[t].pc.newBuf;
            ThreadOwn(c, s', t) && BufferOwn(c, s', b) && forall x :: LiveRef(s', t, x) ==> x == b
  {
    var b := s.threads[t].pc.newBuf;
    assert BufferOwn(c, s, b);
    LastIndexInside(c);
    assert 0 % c.batchSize == 0 && c.batchSize % c.batchSize == 0;
  }

  lemma OwnDrop(c: Config, s: State, t: ThreadId)
    requires Local(c, s, t)
    ensures s.threads[t].pc.Ready? ==>
              ThreadOwn(c, DoDropEvents(s, t), t) && BufferOwn(c, DoDropEvents(s, t), s.threads[t].ref.logBuf)
    ensures s.threads[t].pc.Dropping? ==>
              ThreadOwn(c, DoDropDeadline(s, t), t) && BufferOwn(c, DoDropDeadline(s, t), s.threads[t].ref.logBuf)
  {
    var b := s.threads[t].ref.logBuf;
    if HoldsRef(s.threads[t].pc) { assert BufferOwn(c, s, b); }
  }

  /** The buffer that the step of `l` is about, seen from its thread. */
  function Subject(s: State, l: Label): Option<BufId>
    requires IsThreadLabel(l) && l.t < |s.threads|
  {
    var th := s.threads[l.t];
    if l.MakeRef? && th.pc.Acquired? then th.pc.buf
    else if l.Adopt? && th.pc.Detached? then Some(th.pc.newBuf)
    else if HoldsRef(th.pc) && !l.LoadPtr? then Some(th.ref.logBuf)
    else None
  }

  ghost predicate SubjectOk(c: Config, s: State, l: Label, s': State)
    requires c.Valid() && InRange(s') && |s'.threads| == |s.threads| && IsThreadLabel(l) && l.t < |s.threads|
  {
    && ThreadOwn(c, s', l.t)
    && (Subject(s, l).Some? ==> Subject(s, l).value < |s'.sh.bufs| && BufferOwn(c, s', Subject(s, l).value))
  }

  lemma OwnRefSubject(c: Config, s: State, l: Label)
    requires Enabled(c, s, l) && IsQuiet(l) && IsRefLabel(l) && Local(c, s, l.t)
    ensures SubjectOk(c, s, l, RefStep(c, s, l))
  {
    match l
    case LoadForRef(_) =>
    case MakeRef(_) => OwnMakeRef(c, s, l.t);
    case DropEvents(_) => OwnDrop(c, s, l.t);
    case DropDeadline(_) => OwnDrop(c, s, l.t);
  }

  lemma OwnLogSubject(c: Config, s: State, l: Label)
    requires Enabled(c, s, l) && IsQuiet(l) && IsLogLabel(l) && Local(c, s, l.t)
    ensures SubjectOk(c, s, l, LogStep(c, s, l))
  {
    match l
    case LoadPtr(_, word) => OwnLoadPtr(c, s, l.t, word);
    case Store(_) => OwnStore(c, s, l.t);
    case Count(_) => OwnCount(c, s, l.t);
    case WriteBack(_) => OwnWriteBack(c, s, l.t);
    case Close(_) => OwnClose(c, s, l.t);
    case Adopt(_) => OwnAdopt(c, s, l.t);
  }

  /** What a quiet step of its owner keeps of a buffer that it is not about. */
  ghost predicate SameRecord(s: State, s': State, t: ThreadId, b: BufId)
    requires t < |s.threads| && b < |s.sh.bufs|
  {
    && t < |s'.threads| && LiveRef(s', t, b) == LiveRef(s, t, b)
    && LogOf(s'.threads[t], s.sh.bufs[b].epoch) == LogOf(s.threads[t], s.sh.bufs[b].epoch)
  }

  lemma RefOtherOwned(c: Config, s: State, l: Label, b: BufId)
    requires Enabled(c, s, l) && IsQuiet(l) && IsRefLabel(l) && Local(c, s, l.t)
    requires b < |s.sh.bufs| && b !in s.sh.freeBufs && s.sh.bufs[b].threadId == l.t && Subject(s, l) != Some(b)
    ensures SameRecord(s, RefStep(c, s, l), l.t, b)
  {
    assert BufferOwn(c, s, b);
  }

  lemma LogOtherOwned(c: Config, s: State, l: Label, b: BufId)
    requires Enabled(c, s, l) && IsQuiet(l) && IsLogLabel(l) && Local(c, s, l.t)
    requires b < |s.sh.bufs| && b !in s.sh.freeBufs && s.sh.bufs[b].threadId == l.t && Subject(s, l) != Some(b)
    ensures SameRecord(s, LogStep(c, s, l), l.t, b)
  {
    assert BufferOwn(c, s, b);
  }

  /** The other buffers of the thread: its Ref is on none of them before or after,
      and their logs do not grow. */
  lemma OtherOwned(c: Config, s: State, l: Label, b: BufId)
    requires Enabled(c, s, l) && IsQuiet(l) && IsThreadLabel(l) && Local(c, s, l.t)
    requires b < |s.sh.bufs| && b !in s.sh.freeBufs && s.sh.bufs[b].threadId == l.t && Subject(s, l) != Some(b)
    ensures SameRecord(s, Next(c, s, l), l.t, b)
  {
    if IsRefLabel(l) { RefOtherOwned(c, s, l, b); } else { LogOtherOwned(c, s, l, b); }
  }

  lemma OwnQuietBuffer(c: Config, s: State, l: Label, s': State, b: BufId)
    requires Enabled(c, s, l) && IsQuiet(l) && IsThreadLabel(l) && Local(c, s, l.t) && s' == Next(c, s, l)
    requires OnlyTouches(s, s', l.t, Touched(s, l)) && SubjectOk(c, s, l, s') && b < |s.sh.bufs|
    ensures BufferOwn(c, s', b)
  {
    if Subject(s, l) != Some(b) {
      if b !in s.sh.freeBufs && s.sh.bufs[b].threadId == l.t { OtherOwned(c, s, l, b); }
      OtherBufferOwn(c, s, s', l.t, Touched(s, l), b);
    }
  }

  lemma OwnQuietThread(c: Config, s: State, l: Label)
    requires Basic(c, s) && Own(c, s) && Enabled(c, s, l) && IsQuiet(l) && IsThreadLabel(l)
    ensures Own(c, Next(c, s, l))
  {
    var s', t := Next(c, s, l), l.t;
    assert Local(c, s, t);
    LocalThread(c, s, l);
    if IsRefLabel(l) { OwnRefSubject(c, s, l); } else { OwnLogSubject(c, s, l); }
    OwnQuietRest(c, s, l, s');
  }

  lemma OwnQuietRest(c: Config, s: State, l: Label, s': State)
    requires Own(c, s) && Enabled(c, s, l) && IsQuiet(l) && IsThreadLabel(l) && Local(c, s, l.t) && s' == Next(c, s, l)
    requires OnlyTouches(s, s', l.t, Touched(s, l)) && SubjectOk(c, s, l, s')
    ensures Own(c, s')
  {
    forall u | 0 <= u < |s'.threads| ensures ThreadOwn(c, s', u) {
      if u != l.t { OtherThreadOwn(c, s, s', l.t, Touched(s, l), u); }
    }
    forall b | 0 <= b < |s'.sh.bufs| ensures BufferOwn(c, s', b) {
      OwnQuietBuffer(c, s, l, s', b);
    }
    forall w | 0 <= w < |s'.workers| ensures WorkerOwn(s', w) {
      OtherWorkerOwn(c, s, s', l.t, Touched(s, l), w);
    }
  }

  // ---------------------------------------------------------------- steps of a worker

  lemma OwnWorkerOnly(c: Config, s: State, s': State, w: nat)
    requires Basic(c, s) && Own(c, s) && w < |s.workers| && WorkerOnly(s, s', w) && SameBooks(s, s') && InRange(s')
    requires WorkerOwn(s', w)
    ensures Own(c, s')
  {
    forall u | 0 <= u < |s'.threads| ensures ThreadOwn(c, s', u) {
      assert ThreadOwn(c, s, u);
    }
    forall b | 0 <= b < |s'.sh.bufs| ensures BufferOwn(c, s', b) {
      assert BufferOwn(c, s, b);
    }
    forall v | 0 <= v < |s'.workers| ensures WorkerOwn(s', v) {
      if v != w { assert WorkerOwn(s, v); }
    }
  }

  lemma OwnPoll(c: Config, s: State, w: nat)
    requires Basic(c, s) && Own(c, s) && w < |s.workers| && s.workers[w].pc.Waiting?
    ensures Own(c, DoPoll(s, w))
  {
    assert WorkerOk(s, w) && WorkerOwn(s, w);
    PollBooks(s, w);
    OwnWorkerOnly(c, s, DoPoll(s, w), w);
  }

  lemma OwnRead(c: Config, s: State, w: nat)
    requires Basic(c, s) && Own(c, s) && w < |s.workers| && s.workers[w].pc.Counting?
    requires s.workers[w].pc.i < |s.workers[w].batch|
    ensures Own(c, DoRead(s, w))
  {
    var wk, s' := s.workers[w], DoRead(s, w);
    var i := wk.pc.i;
    var b := wk.batch[i];
    assert WorkerOk(s, w) && WorkerOwn(s, w);
    ClosedIsSealed(c, s, w, i);
    assert s'.workers[w].seen[..i] == wk.seen;
    ReadBooks(s, w);
    OwnWorkerOnly(c, s, s', w);
  }

  /** A closed buffer of a batch in flight holds exactly what its owner logged in
      that epoch, and its owner will log nothing more there. */
  lemma ClosedIsSealed(c: Config, s: State, w: nat, i: nat)
    requires Basic(c, s) && Own(c, s) && w < |s.workers| && InFlight(s.workers[w]) && i < |s.workers[w].batch|
    requires s.sh.bufs[s.workers[w].batch[i]].closed
    ensures var wk := s.workers[w];
            && Sealed(s, wk.owners[i], wk.epoch)
            && Contents(s.sh.bufs[wk.batch[i]]) == s.threads[wk.owners[i]].logs[wk.epoch]
            && s.sh.bufs[wk.batch[i]].events == |s.threads[wk.owners[i]].logs[wk.epoch]|
  {
    var wk := s.workers[w];
    var b, t := wk.batch[i], wk.owners[i];
    assert WorkerOk(s, w);
    assert b in wk.batch && b !in s.sh.freeBufs;
    assert BufferOwn(c, s, b) && ThreadOwn(c, s, t) && LogsOk(s, t);
  }

  // ---------------------------------------------------------------- the monitor methods and thread creation

  lemma OwnSpawn(c: Config, s: State)
    requires Basic(c, s) && Own(c, s)
    ensures Own(c, DoSpawn(s))
  {
    var s' := DoSpawn(s);
    forall u | 0 <= u < |s'.threads| ensures ThreadOwn(c, s', u) {
      if u < |s.threads| { assert ThreadOwn(c, s, u); }
    }
    forall b | 0 <= b < |s'.sh.bufs| ensures BufferOwn(c, s', b) {
      assert BufferOwn(c, s, b);
    }
    forall w | 0 <= w < |s'.workers| ensures WorkerOwn(s', w) {
      assert WorkerOwn(s, w);
    }
  }

  lemma ExitOwnWorker(c: Config, s: State, t: ThreadId, w: nat)
    requires InRange(s) && t < |s.threads| && s.threads[t].pc.Idle? && w < |s.workers| && WorkerOwn(s, w)
    ensures WorkerOwn(DoExit(s, t), w)
  {
    var wk := s.workers[w];
    forall j | 0 <= j < |wk.seen| && j < |wk.owners| ensures Sealed(DoExit(s, t), wk.owners[j], wk.epoch) {
      assert Sealed(s, wk.owners[j], wk.epoch);
    }
  }

  lemma ExitOwnThread(c: Config, s: State, t: ThreadId, u: ThreadId)
    requires Local(c, s, t) && s.threads[t].pc.Idle? && u < |s.threads| && ThreadOwn(c, s, u)
    ensures ThreadOwn(c, DoExit(s, t), u)
  {
  }

  lemma ExitOwnBuffer(c: Config, s: State, t: ThreadId, b: BufId)
    requires Local(c, s, t) && s.threads[t].pc.Idle? && b < |s.sh.bufs| && BufferOwn(c, s, b)
    ensures BufferOwn(c, DoExit(s, t), b)
  {
  }

  lemma OwnExit(c: Config, s: State, t: ThreadId)
    requires Own(c, s) && Local(c, s, t) && s.threads[t].pc.Idle?
    ensures Own(c, DoExit(s, t))
  {
    var s' := DoExit(s, t);
    forall u | 0 <= u < |s'.threads| ensures ThreadOwn(c, s', u) {
      ExitOwnThread(c, s, t, u);
    }
    forall b | 0 <= b < |s'.sh.bufs| ensures BufferOwn(c, s', b) {
      ExitOwnBuffer(c, s, t, b);
    }
    forall w | 0 <= w < |s'.workers| ensures WorkerOwn(s', w) {
      ExitOwnWorker(c, s, t, w);
    }
  }

  lemma AllocOwnSelf(c: Config, s: State, t: ThreadId, mem: seq<Word>, pc: Pc)
    requires Local(c, s, t) && Partition(s) && MayAlloc(s, t, pc) && |mem| == c.Capacity()
    requires s.sh.cells[t].ptr.None?
    ensures ThreadOwn(c, CallAlloc(c, s, t, mem, pc), t)
  {
    NextBufferUnused(s);
    if s.sh.freeBufs != [] { assert BufferOwn(c, s, NextBuffer(s.sh)); }
  }

  lemma AllocOwnOther(c: Config, s: State, t: ThreadId, mem: seq<Word>, pc: Pc, u: ThreadId)
    requires c.Valid() && InRange(s) && t < |s.threads| && MayAlloc(s, t, pc) && s.sh.cells[t].ptr.None?
    requires u < |s.threads| && u != t && ThreadOwn(c, s, u)
    ensures ThreadOwn(c, CallAlloc(c, s, t, mem, pc), u)
  {
    var s' := CallAlloc(c, s, t, mem, pc);
    forall b: BufId | b < |s.sh.bufs| && OwnedBy(s, b, u)
      ensures OwnedBy(s', b, u) && s'.sh.bufs[b] == s.sh.bufs[b]
    {
      if s.sh.freeBufs != [] { assert NextBuffer(s.sh) in s.sh.freeBufs; }
    }
  }

  lemma AllocOwnBuffer(c: Config, s: State, t: ThreadId, mem: seq<Word>, pc: Pc, b: BufId)
    requires Local(c, s, t) && Partition(s) && MayAlloc(s, t, pc) && |mem| == c.Capacity()
    requires s.sh.cells[t].ptr.None? && b < |CallAlloc(c, s, t, mem, pc).sh.bufs|
    ensures BufferOwn(c, CallAlloc(c, s, t, mem, pc), b)
  {
    NextBufferUnused(s);
    if b < |s.sh.bufs| { assert BufferOwn(c, s, b); }
    if b == NextBuffer(s.sh) {
      LastIndexInside(c);
      assert 0 % c.batchSize == 0 && c.batchSize % c.batchSize == 0;
    } else if b !in s.sh.freeBufs && s.sh.bufs[b].threadId == t {
      assert s.sh.bufs[b].epoch != s.sh.epoch;
    }
  }

  lemma AllocOwnWorker(c: Config, s: State, t: ThreadId, mem: seq<Word>, pc: Pc, w: nat)
    requires InRange(s) && Partition(s) && t < |s.threads| && MayAlloc(s, t, pc)
    requires s.sh.cells[t].ptr.None? && w < |s.workers| && WorkerOk(s, w) && WorkerOwn(s, w)
    requires forall u | 0 <= u < |s.threads| :: LogsOk(s, u)
    ensures WorkerOwn(CallAlloc(c, s, t, mem, pc), w)
  {
    NextBufferUnused(s);
    var wk, s' := s.workers[w], CallAlloc(c, s, t, mem, pc);
    forall j | 0 <= j < |wk.seen| && j < |wk.owners|
      ensures Sealed(s', wk.owners[j], wk.epoch) && wk.seen[j] == s'.threads[wk.owners[j]].logs[wk.epoch]
    {
      assert Sealed(s, wk.owners[j], wk.epoch) && LogsOk(s, wk.owners[j]);
    }
  }

  lemma OwnAlloc(c: Config, s: State, t: ThreadId, mem: seq<Word>, pc: Pc)
    requires Basic(c, s) && Own(c, s) && t < |s.threads| && MayAlloc(s, t, pc) && |mem| == c.Capacity()
    requires s.sh.cells[t].ptr.None?
    ensures Own(c, CallAlloc(c, s, t, mem, pc))
  {
    var s' := CallAlloc(c, s, t, mem, pc);
    forall u | 0 <= u < |s'.threads| ensures ThreadOwn(c, s', u) {
      if u == t { assert Local(c, s, t); AllocOwnSelf(c, s, t, mem, pc); } else { AllocOwnOther(c, s, t, mem, pc, u); }
    }
    assert Local(c, s, t);
    forall b | 0 <= b < |s'.sh.bufs| ensures BufferOwn(c, s', b) {
      AllocOwnBuffer(c, s, t, mem, pc, b);
    }
    forall w | 0 <= w < |s'.workers| ensures WorkerOwn(s', w) {
      AllocOwnWorker(c, s, t, mem, pc, w);
    }
  }

  /** tryIncEpoch is next, and will not find too many workers. */
  ghost predicate MayInc(c: Config, s: State, t: ThreadId)
    requires InRange(s)
  {
    t < |s.threads| && s.threads[t].pc.Full? && !IncOutcome(c, s.sh, s.threads[t].ref.logBuf).Skipped?
  }

  lemma IncOwnThread(c: Config, s: State, t: ThreadId, u: ThreadId)
    requires c.Valid() && InRange(s) && MayInc(c, s, t) && u < |s.threads| && ThreadOwn(c, s, u)
    ensures ThreadOwn(c, DoTryInc(c, s, t), u)
  {
  }

  lemma IncOwnBuffer(c: Config, s: State, t: ThreadId, b: BufId)
    requires c.Valid() && InRange(s) && MayInc(c, s, t) && b < |s.sh.bufs| && BufferOwn(c, s, b)
    ensures BufferOwn(c, DoTryInc(c, s, t), b)
  {
  }

  lemma IncOwnWorker(c: Config, s: State, t: ThreadId, w: nat)
    requires InRange(s) && MayInc(c, s, t) && |s.workers| == s.sh.epoch
    requires w < |DoTryInc(c, s, t).workers| && (w < |s.workers| ==> WorkerOwn(s, w))
    ensures WorkerOwn(DoTryInc(c, s, t), w)
  {
    if w < |s.workers| {
      var wk := s.workers[w];
      forall j | 0 <= j < |wk.seen| && j < |wk.owners| ensures Sealed(DoTryInc(c, s, t), wk.owners[j], wk.epoch) {
        assert Sealed(s, wk.owners[j], wk.epoch);
      }
    }
  }

  lemma OwnTryInc(c: Config, s: State, t: ThreadId)
    requires Own(c, s) && Local(c, s, t) && s.threads[t].pc.Full? && !DoTryInc(c, s, t).dropped
    ensures Own(c, DoTryInc(c, s, t))
  {
    var s' := DoTryInc(c, s, t);
    forall u | 0 <= u < |s'.threads| ensures ThreadOwn(c, s', u) {
      IncOwnThread(c, s, t, u);
    }
    forall b | 0 <= b < |s'.sh.bufs| ensures BufferOwn(c, s', b) {
      IncOwnBuffer(c, s, t, b);
    }
    forall w | 0 <= w < |s'.workers| ensures WorkerOwn(s', w) {
      IncOwnWorker(c, s, t, w);
    }
  }

  lemma OwnRelease(c: Config, s: State, w: nat)
    requires Basic(c, s) && Own(c, s) && w < |s.workers| && s.workers[w].pc.Counting?
    requires s.workers[w].pc.i >= |s.workers[w].batch|
    ensures Own(c, DoRelease(s, w))
  {
    var s' := DoRelease(s, w);
    assert WorkerOk(s, w) && WorkerOwn(s, w);
    forall b | b in s.workers[w].batch ensures s.sh.bufs[b].closed {
    }
    forall u | 0 <= u < |s'.threads| ensures ThreadOwn(c, s', u) {
      assert ThreadOwn(c, s, u);
    }
    forall b | 0 <= b < |s'.sh.bufs| ensures BufferOwn(c, s', b) {
      assert BufferOwn(c, s, b);
    }
    forall v | 0 <= v < |s'.workers| ensures WorkerOwn(s', v) {
      assert WorkerOwn(s, v);
    }
  }

  // ---------------------------------------------------------------- all steps, all drop-free runs

  lemma SameOwn(c: Config, s: State, s': State)
    requires Own(c, s) && s'.sh == s.sh && s'.threads == s.threads && s'.workers == s.workers && !s'.dropped
    ensures Own(c, s')
  {
    forall u | 0 <= u < |s'.threads| ensures ThreadOwn(c, s', u) {
      assert ThreadOwn(c, s, u);
    }
    forall b | 0 <= b < |s'.sh.bufs| ensures BufferOwn(c, s', b) {
      assert BufferOwn(c, s, b);
    }
    forall w | 0 <= w < |s'.workers| ensures WorkerOwn(s', w) {
      assert WorkerOwn(s, w);
    }
  }

  lemma OwnAllocForRefLabel(c: Config, s: State, l: Label)
    requires Basic(c, s) && Own(c, s) && Enabled(c, s, l) && l.AllocForRef?
    ensures Own(c, Next(c, s, l))
  {
    AllocFindsNull(c, s, l);
    var pc := Acquired(Some(NextBuffer(s.sh)));
    OwnAlloc(c, s, l.t, l.mem, pc);
    SameOwn(c, CallAlloc(c, s, l.t, l.mem, pc), DoAllocForRef(c, s, l.t, l.mem));
  }

  lemma OwnAllocLabel(c: Config, s: State, l: Label)
    requires Basic(c, s) && Own(c, s) && Enabled(c, s, l) && l.Alloc?
    ensures Own(c, Next(c, s, l))
  {
    AllocFindsNull(c, s, l);
    OwnAlloc(c, s, l.t, l.mem, Switching(NextBuffer(s.sh)));
  }

  lemma OwnExitLabel(c: Config, s: State, l: Label)
    requires Basic(c, s) && Own(c, s) && Enabled(c, s, l) && l.Exit?
    ensures Own(c, Next(c, s, l))
  {
    assert Local(c, s, l.t);
    OwnExit(c, s, l.t);
  }

  lemma OwnTryIncLabel(c: Config, s: State, l: Label)
    requires Basic(c, s) && Own(c, s) && Enabled(c, s, l) && l.TryInc? && !Next(c, s, l).dropped
    ensures Own(c, Next(c, s, l))
  {
    assert Local(c, s, l.t);
    OwnTryInc(c, s, l.t);
  }

  lemma OwnSpawnLabel(c: Config, s: State, l: Label)
    requires Basic(c, s) && Own(c, s) && Enabled(c, s, l) && l.Spawn?
    ensures Own(c, Next(c, s, l))
  {
    OwnSpawn(c, s);
  }

  lemma OwnWorkerStep(c: Config, s: State, l: Label)
    requires Basic(c, s) && Own(c, s) && Enabled(c, s, l) && IsWorkerLabel(l)
    ensures Own(c, Next(c, s, l))
  {
    match l
    case Poll(w) => OwnPoll(c, s, w);
    case Read(w) => OwnRead(c, s, w);
    case ReleaseBatch(w) => OwnRelease(c, s, w);
  }

  lemma OwnMonitorStep(c: Config, s: State, l: Label)
    requires Basic(c, s) && Own(c, s) && Enabled(c, s, l) && IsThreadLabel(l) && !IsQuiet(l) && !Next(c, s, l).dropped
    ensures Own(c, Next(c, s, l))
  {
    match l
    case AllocForRef(_, _) => OwnAllocForRefLabel(c, s, l);
    case Alloc(_, _) => OwnAllocLabel(c, s, l);
    case TryInc(_) => OwnTryIncLabel(c, s, l);
    case Exit(_) => OwnExitLabel(c, s, l);
  }

  /** As long as no batch is skipped, whatever step is taken keeps the ownership in order. */
  lemma OwnStep(c: Config, s: State, l: Label)
    requires Basic(c, s) && Own(c, s) && Enabled(c, s, l) && !Next(c, s, l).dropped
    ensures Own(c, Next(c, s, l))
  {
    if l.Spawn? {
      OwnSpawnLabel(c, s, l);
    } else if IsWorkerLabel(l) {
      OwnWorkerStep(c, s, l);
    } else if IsQuiet(l) {
      OwnQuietThread(c, s, l);
    } else {
      OwnMonitorStep(c, s, l);
    }
  }

  /** Skipping a batch is what sets the flag. */
  lemma SkipsDrop(c: Config, s: State, l: Label)
    requires InRange(s) && Enabled(c, s, l) && !Next(c, s, l).dropped
    ensures l.TryInc? ==> IncOutcome(c, s.sh, s.threads[l.t].ref.logBuf) != Skipped
  {
  }

  lemma DropsStay(c: Config, s: State, l: Label)
    requires InRange(s) && Enabled(c, s, l) && s.dropped
    ensures Next(c, s, l).dropped
  {
  }

  lemma {:induction false} OwnRun(c: Config, ls: seq<Label>)
    requires c.Valid() && Legal(c, ls) && !After(c, ls).dropped
    ensures Own(c, After(c, ls))
  {
    if ls != [] {
      var before := ls[..|ls| - 1];
      BasicRun(c, before);
      if After(c, before).dropped { DropsStay(c, After(c, before), ls[|ls| - 1]); }
      OwnRun(c, before);
      OwnStep(c, After(c, before), ls[|ls| - 1]);
    }
  }
}
