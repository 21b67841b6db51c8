/** What every step keeps on every run, the too-many-workers branch included. */
module Bookkeeping {
  import opened Protocol

  // ---------------------------------------------------------------- the partition of the buffers

  ghost predicate NoDup<T>(xs: seq<T>) {
    forall i, j | 0 <= i < j < |xs| :: xs[i] != xs[j]
  }

  ghost predicate Apart<T(!new)>(xs: seq<T>, ys: seq<T>) {
    forall x | x in xs :: x !in ys
  }

  ghost predicate Held(s: State, b: BufId) {
    exists w | 0 <= w < |s.workers| :: InFlight(s.workers[w]) && b in s.workers[w].batch
  }

  /** The current epoch's buffers, the free pool and the batches in flight are
      free of duplicates, pairwise disjoint, and cover every buffer created. */
  ghost predicate Partition(s: State) {
    && NoDup(s.sh.allocatedBufs) && NoDup(s.sh.freeBufs)
    && Apart(s.sh.allocatedBufs, s.sh.freeBufs)
    && (forall w | 0 <= w < |s.workers| && InFlight(s.workers[w]) ::
          && NoDup(s.workers[w].batch)
          && Apart(s.workers[w].batch, s.sh.allocatedBufs)
          && Apart(s.workers[w].batch, s.sh.freeBufs))
    && (forall v, w | 0 <= v < |s.workers| && 0 <= w < |s.workers| && v != w
                      && InFlight(s.workers[v]) && InFlight(s.workers[w]) ::
          Apart(s.workers[v].batch, s.workers[w].batch))
    && (forall b | 0 <= b < |s.sh.bufs| :: b in s.sh.allocatedBufs || b in s.sh.freeBufs || Held(s, b))
  }

  function InFlightCount(ws: seq<Worker>): nat {
    if ws == [] then 0
    else InFlightCount(ws[..|ws| - 1]) + if InFlight(ws[|ws| - 1]) then 1 else 0
  }

  function HeldCount(ws: seq<Worker>): nat {
    if ws == [] then 0
    else HeldCount(ws[..|ws| - 1]) + if InFlight(ws[|ws| - 1]) then |ws[|ws| - 1].batch| else 0
  }

  ghost predicate Sizes(c: Config, s: State) {
    && s.sh.activeWorkers == InFlightCount(s.workers)
    && s.sh.activeWorkers <= c.maxWorkers
    && |s.sh.bufs| == |s.sh.allocatedBufs| + |s.sh.freeBufs| + HeldCount(s.workers)
  }

  // ---------------------------------------------------------------- pointers, epochs, participants

  /** A thread's pointer against its context, its program counter and the manager. */
  ghost predicate PointerOk(s: State, t: ThreadId)
    requires |s.sh.cells| == |s.threads| && t < |s.threads|
  {
    var th, cell := s.threads[t], s.sh.cells[t];
    && (cell.ptr.Some? && !th.pc.Exited? ==>
          cell.ctx == cell.ptr && t in s.sh.tlsBufAddrs && cell.ptr.value in s.sh.allocatedBufs)
    && (t in s.sh.tlsBufAddrs ==> !th.pc.Exited? && cell.ptr.Some?)
    && match th.pc
       case Acquired(buf) => if buf.None? then cell.ptr.None? else cell.ctx == buf
       case Loaded(_, cur) => cell.ctx == Some(th.ref.logBuf) && (cur.None? ==> cell.ptr.None?)
       case Stored(_, cur) => cell.ctx == Some(th.ref.logBuf) && (cur.None? ==> cell.ptr.None?)
       case Allocating => cell.ctx == Some(th.ref.logBuf) && cell.ptr.None?
       case Switching(b) => cell.ctx == Some(b)
       case WroteBack(b) => cell.ctx == Some(b)
       case Detached(b) => cell.ctx == Some(b)
       case Idle => true
       case Exited => true
       case _ => cell.ctx == Some(th.ref.logBuf)
  }

  /** A thread's assignments: at most one in an epoch, the latest is `lastEpoch`. */
  ghost predicate LogsOk(s: State, t: ThreadId)
    requires |s.sh.cells| == |s.threads| && t < |s.threads|
  {
    var th, cell := s.threads[t], s.sh.cells[t];
    && (forall e | e in th.logs :: e <= th.lastEpoch)
    && (th.logs != map[] ==> th.lastEpoch in th.logs && th.lastEpoch <= s.sh.epoch)
    && (cell.ctx.Some? <==> th.logs != map[])
    && (MidSwitch(th.pc) ==> LogOf(th, th.lastEpoch) == [])
    && (s.sh.epoch in th.logs ==>
          && cell.ptr.Some? && cell.ptr.value in s.sh.allocatedBufs
          && cell.ptr.value < |s.sh.bufs| && s.sh.bufs[cell.ptr.value].threadId == t)
  }

  /** The buffers of the current epoch, one for each thread that takes part in it. */
  ghost predicate AllocatedOk(s: State)
    requires InRange(s)
  {
    && (forall i | 0 <= i < |s.sh.allocatedBufs| ::
          var buf := s.sh.bufs[s.sh.allocatedBufs[i]];
          && buf.epoch == s.sh.epoch
          && s.sh.epoch in s.threads[buf.threadId].logs
          && (!s.threads[buf.threadId].pc.Exited? ==> s.sh.cells[buf.threadId].ptr == Some(s.sh.allocatedBufs[i])))
    && NoDup(Owners(s.sh, s.sh.allocatedBufs))
    && (forall b {:trigger b in s.sh.allocatedBufs} | 0 <= b < |s.sh.bufs| && b !in s.sh.allocatedBufs ::
          s.sh.bufs[b].epoch < s.sh.epoch)
  }

  /** A batch: the buffers of one epoch, one for each thread that took part in it. */
  ghost predicate WorkerOk(s: State, w: nat)
    requires InRange(s) && w < |s.workers|
  {
    var wk := s.workers[w];
    && wk.epoch < s.sh.epoch
    && NoDup(wk.owners)
    && (forall t | 0 <= t < |s.threads| :: wk.epoch in s.threads[t].logs <==> t in wk.owners)
    && (forall v | 0 <= v < w :: s.workers[v].epoch < wk.epoch)
    && (InFlight(wk) ==>
          forall i | 0 <= i < |wk.batch| ::
            s.sh.bufs[wk.batch[i]].epoch == wk.epoch && s.sh.bufs[wk.batch[i]].threadId == wk.owners[i])
    && |wk.seen| <= |wk.owners|
    && match wk.pc
       case Waiting(i) => i <= |wk.batch| && wk.seen == []
       case Counting(i, _) => i == |wk.seen|
       case Finished(_) => |wk.seen| == |wk.owners|
  }

  ghost predicate Basic(c: Config, s: State) {
    && InRange(s)
    && Partition(s)
    && Sizes(c, s)
    && AllocatedOk(s)
    && (forall t | 0 <= t < |s.threads| :: PointerOk(s, t))
    && (forall t | 0 <= t < |s.threads| :: LogsOk(s, t))
    && (forall w | 0 <= w < |s.workers| :: WorkerOk(s, w))
  }

  // ---------------------------------------------------------------- sums over the workers

  lemma {:induction false} InFlightCountAppend(ws: seq<Worker>, wk: Worker)
    ensures InFlightCount(ws + [wk]) == InFlightCount(ws) + if InFlight(wk) then 1 else 0
    ensures HeldCount(ws + [wk]) == HeldCount(ws) + if InFlight(wk) then |wk.batch| else 0
  {
    assert (ws + [wk])[..|ws|] == ws;
  }

  lemma {:induction false} InFlightCountUpdate(ws: seq<Worker>, w: nat, wk: Worker)
    requires w < |ws| && wk.batch == ws[w].batch && InFlight(ws[w])
    ensures InFlightCount(ws[w := wk]) == InFlightCount(ws) - if InFlight(wk) then 0 else 1
    ensures HeldCount(ws[w := wk]) == HeldCount(ws) - if InFlight(wk) then 0 else |wk.batch|
  {
    var n := |ws| - 1;
    if w == n {
      assert ws[w := wk][..n] == ws[..n];
    } else {
      InFlightCountUpdate(ws[..n], w, wk);
      assert ws[w := wk][..n] == ws[..n][w := wk];
    }
  }

  // ---------------------------------------------------------------- steps that leave the books alone

  predicate IsQuiet(l: Label) {
    !(l.Spawn? || l.AllocForRef? || l.Alloc? || l.TryInc? || l.Exit? || l.ReleaseBatch?)
  }

  /** Same manager, same pointers; same owner and epoch of every buffer; the same
      batches in flight; the same assignments of every thread. */
  ghost predicate SameBooks(s: State, s': State) {
    && s'.sh == s.sh.(bufs := s'.sh.bufs)
    && |s'.sh.bufs| == |s.sh.bufs| && |s'.threads| == |s.threads| && |s'.workers| == |s.workers|
    && (forall b | 0 <= b < |s.sh.bufs| ::
          s'.sh.bufs[b].epoch == s.sh.bufs[b].epoch && s'.sh.bufs[b].threadId == s.sh.bufs[b].threadId)
    && (forall w | 0 <= w < |s.workers| :: SameBatch(s.workers[w], s'.workers[w]))
    && (forall t | 0 <= t < |s.threads| :: SameAssignments(s.threads[t], s'.threads[t]))
  }

  ghost predicate SameBatch(wk: Worker, wk': Worker) {
    && wk'.batch == wk.batch && wk'.epoch == wk.epoch && wk'.owners == wk.owners
    && InFlight(wk') == InFlight(wk)
  }

  ghost predicate SameAssignments(th: Thread, th': Thread) {
    && th'.logs.Keys == th.logs.Keys && th'.lastEpoch == th.lastEpoch
    && (forall e | e in th.logs && e != th.lastEpoch :: th'.logs[e] == th.logs[e])
    && th'.pc.Exited? == th.pc.Exited?
  }

  /** The buffer a quiet step of thread `t` writes to, if any. */
  function Touched(s: State, l: Label): set<BufId>
    requires l.Spawn? || IsWorkerLabel(l) || l.t < |s.threads|
  {
    if l.Store? || l.WriteBack? || l.Close? || l.DropEvents? || l.DropDeadline? then {s.threads[l.t].ref.logBuf}
    else {}
  }

  /** Nothing changed but thread `t`, the buffers in `touched`, and the fault flag. */
  ghost predicate OnlyTouches(s: State, s': State, t: ThreadId, touched: set<BufId>) {
    && s'.sh == s.sh.(bufs := s'.sh.bufs)
    && |s'.sh.bufs| == |s.sh.bufs| && |s'.threads| == |s.threads|
    && s'.workers == s.workers && s'.dropped == s.dropped && s'.orphaned == s.orphaned
    && (forall u | 0 <= u < |s.threads| && u != t :: s'.threads[u] == s.threads[u])
    && (t < |s.threads| ==> SameAssignments(s.threads[t], s'.threads[t]))
    && (forall b | 0 <= b < |s.sh.bufs| && b !in touched :: s'.sh.bufs[b] == s.sh.bufs[b])
    && (forall b | 0 <= b < |s.sh.bufs| ::
          s'.sh.bufs[b].epoch == s.sh.bufs[b].epoch && s'.sh.bufs[b].threadId == s.sh.bufs[b].threadId)
  }

  lemma LocalStore(s: State, t: ThreadId)
    requires InRange(s) && t < |s.threads| && s.threads[t].pc.Loaded?
    ensures OnlyTouches(s, DoStore(s, t), t, {s.threads[t].ref.logBuf})
  {
  }

  lemma LocalWriteBack(s: State, t: ThreadId)
    requires InRange(s) && t < |s.threads| && s.threads[t].pc.Switching?
    ensures OnlyTouches(s, DoWriteBack(s, t), t, {s.threads[t].ref.logBuf})
  {
  }

  lemma LocalClose(s: State, t: ThreadId)
    requires InRange(s) && t < |s.threads| && s.threads[t].pc.WroteBack?
    ensures OnlyTouches(s, DoClose(s, t), t, {s.threads[t].ref.logBuf})
  {
  }

  lemma LocalDrop(s: State, t: ThreadId)
    requires InRange(s) && t < |s.threads|
    ensures s.threads[t].pc.Ready? ==> OnlyTouches(s, DoDropEvents(s, t), t, {s.threads[t].ref.logBuf})
    ensures s.threads[t].pc.Dropping? ==> OnlyTouches(s, DoDropDeadline(s, t), t, {s.threads[t].ref.logBuf})
  {
  }

  lemma LocalCount(c: Config, s: State, t: ThreadId)
    requires InRange(s) && t < |s.threads| && s.threads[t].pc.Stored?
    requires s.threads[t].lastEpoch in s.threads[t].logs
    ensures OnlyTouches(s, DoCount(c, s, t), t, {})
  {
    var th := s.threads[t];
    assert th.logs[th.lastEpoch := LogOf(th, th.lastEpoch) + [th.pc.word]].Keys == th.logs.Keys;
  }

  lemma LocalThread(c: Config, s: State, l: Label)
    requires InRange(s) && Enabled(c, s, l) && IsQuiet(l) && IsThreadLabel(l)
    requires l.Count? ==> s.threads[l.t].lastEpoch in s.threads[l.t].logs
    ensures OnlyTouches(s, Next(c, s, l), l.t, Touched(s, l))
  {
    var t := l.t;
    match l
    case Store(_) => LocalStore(s, t);
    case WriteBack(_) => LocalWriteBack(s, t);
    case Close(_) => LocalClose(s, t);
    case DropEvents(_) => LocalDrop(s, t);
    case DropDeadline(_) => LocalDrop(s, t);
    case Count(_) => LocalCount(c, s, t);
    case _ =>
  }

  lemma TouchesBooks(s: State, s': State, t: ThreadId, touched: set<BufId>)
    requires OnlyTouches(s, s', t, touched)
    ensures SameBooks(s, s')
  {
    forall u | 0 <= u < |s.threads| ensures SameAssignments(s.threads[u], s'.threads[u]) {
    }
  }

  lemma PollBooks(s: State, w: nat)
    requires InRange(s) && w < |s.workers| && s.workers[w].pc.Waiting?
    ensures SameBooks(s, DoPoll(s, w)) && WorkerOnly(s, DoPoll(s, w), w)
  {
  }

  lemma ReadBooks(s: State, w: nat)
    requires InRange(s) && w < |s.workers| && s.workers[w].pc.Counting?
    requires s.workers[w].pc.i < |s.workers[w].batch|
    ensures SameBooks(s, DoRead(s, w)) && WorkerOnly(s, DoRead(s, w), w)
  {
  }

  /** Nothing changed but worker `w`. */
  ghost predicate WorkerOnly(s: State, s': State, w: nat) {
    && s'.sh == s.sh && s'.threads == s.threads && s'.fault == s.fault
    && s'.dropped == s.dropped && s'.orphaned == s.orphaned
    && |s'.workers| == |s.workers|
    && forall v | 0 <= v < |s.workers| && v != w :: s'.workers[v] == s.workers[v]
  }

  lemma QuietPartition(c: Config, s: State, s': State)
    requires Basic(c, s) && SameBooks(s, s')
    ensures Partition(s')
  {
    forall v, w | 0 <= v < |s'.workers| && 0 <= w < |s'.workers| && v != w
                  && InFlight(s'.workers[v]) && InFlight(s'.workers[w])
      ensures Apart(s'.workers[v].batch, s'.workers[w].batch)
    {
      assert SameBatch(s.workers[v], s'.workers[v]) && SameBatch(s.workers[w], s'.workers[w]);
    }
    forall b | 0 <= b < |s'.sh.bufs| && Held(s, b) ensures Held(s', b) {
      var w :| 0 <= w < |s.workers| && InFlight(s.workers[w]) && b in s.workers[w].batch;
      assert SameBatch(s.workers[w], s'.workers[w]);
    }
    forall w | 0 <= w < |s'.workers| && InFlight(s'.workers[w])
      ensures NoDup(s'.workers[w].batch) && Apart(s'.workers[w].batch, s'.sh.allocatedBufs)
      ensures Apart(s'.workers[w].batch, s'.sh.freeBufs)
    {
      assert SameBatch(s.workers[w], s'.workers[w]);
    }
  }

  lemma {:induction false} QuietCounts(ws: seq<Worker>, ws': seq<Worker>)
    requires |ws'| == |ws| && forall w | 0 <= w < |ws| :: SameBatch(ws[w], ws'[w])
    ensures InFlightCount(ws') == InFlightCount(ws) && HeldCount(ws') == HeldCount(ws)
  {
    if ws != [] {
      QuietCounts(ws[..|ws| - 1], ws'[..|ws| - 1]);
      assert SameBatch(ws[|ws| - 1], ws'[|ws| - 1]);
    }
  }

  lemma QuietAllocated(c: Config, s: State, s': State)
    requires Basic(c, s) && SameBooks(s, s') && InRange(s')
    ensures AllocatedOk(s')
  {
    assert Owners(s'.sh, s'.sh.allocatedBufs) == Owners(s.sh, s.sh.allocatedBufs);
    forall i | 0 <= i < |s.sh.allocatedBufs|
      ensures var buf := s'.sh.bufs[s'.sh.allocatedBufs[i]];
              && buf.epoch == s'.sh.epoch && s'.sh.epoch in s'.threads[buf.threadId].logs
              && (!s'.threads[buf.threadId].pc.Exited? ==> s'.sh.cells[buf.threadId].ptr == Some(s'.sh.allocatedBufs[i]))
    {
      var t := s.sh.bufs[s.sh.allocatedBufs[i]].threadId;
      assert SameAssignments(s.threads[t], s'.threads[t]);
    }
  }

  lemma QuietWorker(c: Config, s: State, s': State, w: nat)
    requires Basic(c, s) && SameBooks(s, s') && InRange(s') && w < |s.workers|
    requires s'.workers[w].pc == s.workers[w].pc && s'.workers[w].seen == s.workers[w].seen
    ensures WorkerOk(s', w)
  {
    var wk, wk' := s.workers[w], s'.workers[w];
    assert SameBatch(wk, wk') && WorkerOk(s, w);
    forall t | 0 <= t < |s'.threads| ensures wk'.epoch in s'.threads[t].logs <==> t in wk'.owners {
      assert SameAssignments(s.threads[t], s'.threads[t]);
    }
    forall v | 0 <= v < w ensures s'.workers[v].epoch < wk'.epoch {
      assert SameBatch(s.workers[v], s'.workers[v]);
    }
  }

  lemma OtherThread(s: State, s': State, t: ThreadId, touched: set<BufId>, u: ThreadId)
    requires InRange(s) && InRange(s') && OnlyTouches(s, s', t, touched)
    requires u < |s.threads| && u != t && PointerOk(s, u) && LogsOk(s, u)
    ensures PointerOk(s', u) && LogsOk(s', u)
  {
  }

  lemma OwnRefThread(c: Config, s: State, l: Label)
    requires InRange(s) && Enabled(c, s, l) && IsQuiet(l) && IsRefLabel(l)
    requires PointerOk(s, l.t) && LogsOk(s, l.t)
    ensures PointerOk(RefStep(c, s, l), l.t) && LogsOk(RefStep(c, s, l), l.t)
  {
    LocalThread(c, s, l);
  }

  lemma OwnLogThread(c: Config, s: State, l: Label)
    requires InRange(s) && Enabled(c, s, l) && IsQuiet(l) && IsLogLabel(l)
    requires PointerOk(s, l.t) && LogsOk(s, l.t)
    ensures PointerOk(LogStep(c, s, l), l.t) && LogsOk(LogStep(c, s, l), l.t)
  {
    LocalThread(c, s, l);
  }

  lemma QuietThreadStep(c: Config, s: State, l: Label)
    requires Basic(c, s) && Enabled(c, s, l) && IsQuiet(l) && IsThreadLabel(l)
    ensures Basic(c, Next(c, s, l))
  {
    var s', t := Next(c, s, l), l.t;
    assert PointerOk(s, t) && LogsOk(s, t);
    LocalThread(c, s, l);
    var touched := Touched(s, l);
    TouchesBooks(s, s', t, touched);
    QuietPartition(c, s, s');
    QuietAllocated(c, s, s');
    forall u | 0 <= u < |s'.threads| ensures PointerOk(s', u) && LogsOk(s', u) {
      if u != t {
        assert PointerOk(s, u) && LogsOk(s, u);
        OtherThread(s, s', t, touched, u);
      } else if IsRefLabel(l) {
        OwnRefThread(c, s, l);
      } else {
        OwnLogThread(c, s, l);
      }
    }
    forall w | 0 <= w < |s'.workers| ensures WorkerOk(s', w) {
      QuietWorker(c, s, s', w);
    }
  }

  /** A step of one worker that stays in flight and keeps its own counters in range. */
  lemma WorkerOnlyStep(c: Config, s: State, s': State, w: nat)
    requires Basic(c, s) && w < |s.workers| && WorkerOnly(s, s', w) && SameBooks(s, s') && InRange(s')
    requires WorkerOk(s', w)
    ensures Basic(c, s')
  {
    QuietPartition(c, s, s');
    QuietCounts(s.workers, s'.workers);
    QuietAllocated(c, s, s');
    forall v | 0 <= v < |s'.workers| ensures WorkerOk(s', v) {
      if v != w { QuietWorker(c, s, s', v); }
    }
    forall t | 0 <= t < |s'.threads| ensures PointerOk(s', t) && LogsOk(s', t) {
      assert PointerOk(s, t) && LogsOk(s, t);
    }
  }

  lemma PollStep(c: Config, s: State, w: nat)
    requires Basic(c, s) && w < |s.workers| && s.workers[w].pc.Waiting?
    ensures Basic(c, DoPoll(s, w))
  {
    assert WorkerOk(s, w);
    PollBooks(s, w);
    WorkerOnlyStep(c, s, DoPoll(s, w), w);
  }

  lemma ReadStep(c: Config, s: State, w: nat)
    requires Basic(c, s) && w < |s.workers| && s.workers[w].pc.Counting?
    requires s.workers[w].pc.i < |s.workers[w].batch|
    ensures Basic(c, DoRead(s, w))
  {
    assert WorkerOk(s, w);
    ReadBooks(s, w);
    WorkerOnlyStep(c, s, DoRead(s, w), w);
  }

  // ---------------------------------------------------------------- the monitor methods and thread creation

  lemma SpawnStep(c: Config, s: State)
    requires Basic(c, s)
    ensures Basic(c, DoSpawn(s))
  {
    var s' := DoSpawn(s);
    forall b | 0 <= b < |s'.sh.bufs| && Held(s, b) ensures Held(s', b) {
      var w :| 0 <= w < |s.workers| && InFlight(s.workers[w]) && b in s.workers[w].batch;
      assert InFlight(s'.workers[w]);
    }
    assert Owners(s'.sh, s'.sh.allocatedBufs) == Owners(s.sh, s.sh.allocatedBufs);
    forall w | 0 <= w < |s'.workers| ensures WorkerOk(s', w) {
      assert WorkerOk(s, w);
    }
    forall t | 0 <= t < |s'.threads| ensures PointerOk(s', t) && LogsOk(s', t) {
      if t < |s.threads| { assert PointerOk(s, t) && LogsOk(s, t); }
    }
  }

  lemma ExitStep(c: Config, s: State, t: ThreadId)
    requires Basic(c, s) && t < |s.threads| && s.threads[t].pc.Idle?
    ensures Basic(c, DoExit(s, t))
  {
    var s' := DoExit(s, t);
    forall b | 0 <= b < |s'.sh.bufs| && Held(s, b) ensures Held(s', b) {
      var w :| 0 <= w < |s.workers| && InFlight(s.workers[w]) && b in s.workers[w].batch;
      assert InFlight(s'.workers[w]);
    }
    assert Owners(s'.sh, s'.sh.allocatedBufs) == Owners(s.sh, s.sh.allocatedBufs);
    forall w | 0 <= w < |s'.workers| ensures WorkerOk(s', w) {
      assert WorkerOk(s, w);
    }
    forall u | 0 <= u < |s'.threads| ensures PointerOk(s', u) && LogsOk(s', u) {
      assert PointerOk(s, u) && LogsOk(s, u);
    }
  }

  /** The buffer about to be handed out is in no list but the free one, once. */
  lemma NextBufferUnused(s: State)
    requires InRange(s) && Partition(s)
    ensures var b := NextBuffer(s.sh);
            && b !in s.sh.allocatedBufs
            && (forall w | 0 <= w < |s.workers| && InFlight(s.workers[w]) :: b !in s.workers[w].batch)
    ensures s.sh.freeBufs != [] ==>
              var n := |s.sh.freeBufs| - 1;
              forall x :: x in s.sh.freeBufs[..n] <==> x in s.sh.freeBufs && x != NextBuffer(s.sh)
  {
    var b := NextBuffer(s.sh);
    if s.sh.freeBufs != [] {
      assert b in s.sh.freeBufs;
      assert s.sh.freeBufs == s.sh.freeBufs[..|s.sh.freeBufs| - 1] + [b];
    }
  }

  lemma AllocPartition(c: Config, s: State, s': State, t: ThreadId, mem: seq<Word>)
    requires InRange(s) && Partition(s) && t < |s.threads|
    requires s'.sh == AllocBuffer(c, s.sh, t, mem) && s'.workers == s.workers
    ensures Partition(s')
  {
    NextBufferUnused(s);
    forall b | 0 <= b < |s'.sh.bufs|
      ensures b in s'.sh.allocatedBufs || b in s'.sh.freeBufs || Held(s', b)
    {
      if b < |s.sh.bufs| && Held(s, b) {
        assert Held(s', b);
      }
    }
  }

  lemma AllocAllocated(c: Config, s: State, t: ThreadId, mem: seq<Word>, pc: Pc)
    requires Basic(c, s) && t < |s.threads| && MayAlloc(s, t, pc)
    requires s.sh.cells[t].ptr.None? && !s.threads[t].pc.Exited?
    ensures AllocatedOk(CallAlloc(c, s, t, mem, pc))
  {
    var s' := CallAlloc(c, s, t, mem, pc);
    NextBufferUnused(s);
    var before, now := Owners(s.sh, s.sh.allocatedBufs), Owners(s'.sh, s'.sh.allocatedBufs);
    forall i | 0 <= i < |s.sh.allocatedBufs| ensures now[i] == before[i] != t {
      assert s.sh.allocatedBufs[i] in s.sh.allocatedBufs;
    }
  }

  lemma AllocThreads(c: Config, s: State, t: ThreadId, mem: seq<Word>, pc: Pc, u: ThreadId)
    requires Basic(c, s) && t < |s.threads| && MayAlloc(s, t, pc)
    requires s.sh.cells[t].ptr.None? && !s.threads[t].pc.Exited? && u < |s.threads|
    ensures PointerOk(CallAlloc(c, s, t, mem, pc), u) && LogsOk(CallAlloc(c, s, t, mem, pc), u)
  {
    NextBufferUnused(s);
    assert PointerOk(s, u) && LogsOk(s, u);
  }

  lemma AllocWorkers(c: Config, s: State, t: ThreadId, mem: seq<Word>, pc: Pc, w: nat)
    requires Basic(c, s) && t < |s.threads| && MayAlloc(s, t, pc)
    requires s.sh.cells[t].ptr.None? && w < |s.workers|
    ensures WorkerOk(CallAlloc(c, s, t, mem, pc), w)
  {
    NextBufferUnused(s);
    assert WorkerOk(s, w);
  }

  predicate MayAlloc(s: State, t: ThreadId, pc: Pc)
    requires t < |s.threads|
  {
    || (s.threads[t].pc.Acquired? && pc == Acquired(Some(NextBuffer(s.sh))))
    || (s.threads[t].pc.Allocating? && pc == Switching(NextBuffer(s.sh)))
  }

  lemma AllocStep(c: Config, s: State, t: ThreadId, mem: seq<Word>, pc: Pc)
    requires Basic(c, s) && t < |s.threads| && MayAlloc(s, t, pc) && s.sh.cells[t].ptr.None?
    ensures Basic(c, CallAlloc(c, s, t, mem, pc))
  {
    var s' := CallAlloc(c, s, t, mem, pc);
    AllocPartition(c, s, s', t, mem);
    AllocAllocated(c, s, t, mem, pc);
    forall u | 0 <= u < |s'.threads| ensures PointerOk(s', u) && LogsOk(s', u) {
      AllocThreads(c, s, t, mem, pc, u);
    }
    forall w | 0 <= w < |s'.workers| ensures WorkerOk(s', w) {
      AllocWorkers(c, s, t, mem, pc, w);
    }
  }

  lemma NoDupConcat<T(!new)>(xs: seq<T>, ys: seq<T>)
    requires NoDup(xs) && NoDup(ys) && Apart(xs, ys)
    ensures NoDup(xs + ys)
  {
    forall i, j | 0 <= i < j < |xs + ys| ensures (xs + ys)[i] != (xs + ys)[j] {
      if i < |xs| <= j { assert xs[i] in xs && ys[j - |xs|] in ys; }
    }
  }

  lemma IncPartition(c: Config, s: State, t: ThreadId)
    requires InRange(s) && Partition(s) && t < |s.threads| && s.threads[t].pc.Full?
    ensures Partition(DoTryInc(c, s, t))
  {
    var s' := DoTryInc(c, s, t);
    NoDupConcat(s.sh.freeBufs, s.sh.allocatedBufs);
    forall b | 0 <= b < |s'.sh.bufs|
      ensures b in s'.sh.allocatedBufs || b in s'.sh.freeBufs || Held(s', b)
    {
      if Held(s, b) {
        var w :| 0 <= w < |s.workers| && InFlight(s.workers[w]) && b in s.workers[w].batch;
        assert InFlight(s'.workers[w]);
      } else if |s'.workers| > |s.workers| && b in s.sh.allocatedBufs {
        assert InFlight(s'.workers[|s.workers|]);
      }
    }
  }

  lemma IncThread(c: Config, s: State, t: ThreadId, u: ThreadId)
    requires Basic(c, s) && t < |s.threads| && s.threads[t].pc.Full? && u < |s.threads|
    ensures PointerOk(DoTryInc(c, s, t), u) && LogsOk(DoTryInc(c, s, t), u)
  {
    assert PointerOk(s, u) && LogsOk(s, u);
  }

  /** The threads that take part in the current epoch are the owners of its buffers. */
  lemma CurrentParticipants(c: Config, s: State, t: ThreadId)
    requires Basic(c, s) && t < |s.threads|
    ensures s.sh.epoch in s.threads[t].logs <==> t in Owners(s.sh, s.sh.allocatedBufs)
  {
    var owners := Owners(s.sh, s.sh.allocatedBufs);
    assert LogsOk(s, t);
    if s.sh.epoch in s.threads[t].logs {
      var i :| 0 <= i < |s.sh.allocatedBufs| && s.sh.allocatedBufs[i] == s.sh.cells[t].ptr.value;
      assert owners[i] == t;
    }
  }

  lemma IncWorker(c: Config, s: State, t: ThreadId, w: nat)
    requires Basic(c, s) && t < |s.threads| && s.threads[t].pc.Full? && w < |DoTryInc(c, s, t).workers|
    ensures WorkerOk(DoTryInc(c, s, t), w)
  {
    var s' := DoTryInc(c, s, t);
    if w < |s.workers| {
      assert WorkerOk(s, w);
    } else {
      forall u | 0 <= u < |s.threads|
        ensures s.sh.epoch in s.threads[u].logs <==> u in Owners(s.sh, s.sh.allocatedBufs)
      {
        CurrentParticipants(c, s, u);
      }
      forall v | 0 <= v < |s.workers| ensures s'.workers[v].epoch < s.sh.epoch {
        assert WorkerOk(s, v);
      }
    }
  }

  lemma IncSizes(c: Config, s: State, t: ThreadId)
    requires InRange(s) && Sizes(c, s) && t < |s.threads| && s.threads[t].pc.Full?
    ensures Sizes(c, DoTryInc(c, s, t))
  {
    var s' := DoTryInc(c, s, t);
    if |s'.workers| > |s.workers| {
      InFlightCountAppend(s.workers, s'.workers[|s.workers|]);
    }
  }

  lemma IncAllocated(c: Config, s: State, t: ThreadId)
    requires InRange(s) && AllocatedOk(s) && t < |s.threads| && s.threads[t].pc.Full?
    ensures AllocatedOk(DoTryInc(c, s, t))
  {
    var s' := DoTryInc(c, s, t);
    assert s'.sh.allocatedBufs == [] || s'.sh == s.sh;
    assert Owners(s'.sh, s'.sh.allocatedBufs) == [] || s'.sh == s.sh;
    forall b | 0 <= b < |s.sh.bufs| ensures s.sh.bufs[b].epoch <= s.sh.epoch {
      assert b in s.sh.allocatedBufs || s.sh.bufs[b].epoch < s.sh.epoch;
    }
  }

  lemma IncStep(c: Config, s: State, t: ThreadId)
    requires Basic(c, s) && t < |s.threads| && s.threads[t].pc.Full?
    ensures Basic(c, DoTryInc(c, s, t))
  {
    var s' := DoTryInc(c, s, t);
    IncPartition(c, s, t);
    IncSizes(c, s, t);
    IncAllocated(c, s, t);
    forall u | 0 <= u < |s'.threads| ensures PointerOk(s', u) && LogsOk(s', u) {
      IncThread(c, s, t, u);
    }
    forall w | 0 <= w < |s'.workers| ensures WorkerOk(s', w) {
      IncWorker(c, s, t, w);
    }
  }

  lemma ReleasePartition(s: State, w: nat)
    requires InRange(s) && Partition(s) && w < |s.workers| && s.workers[w].pc.Counting?
    ensures Partition(DoRelease(s, w))
  {
    var s' := DoRelease(s, w);
    NoDupConcat(s.sh.freeBufs, s.workers[w].batch);
    forall b | 0 <= b < |s'.sh.bufs|
      ensures b in s'.sh.allocatedBufs || b in s'.sh.freeBufs || Held(s', b)
    {
      if Held(s, b) && b !in s.workers[w].batch {
        var v :| 0 <= v < |s.workers| && InFlight(s.workers[v]) && b in s.workers[v].batch;
        assert InFlight(s'.workers[v]);
      }
    }
  }

  lemma ReleaseStep(c: Config, s: State, w: nat)
    requires Basic(c, s) && w < |s.workers| && s.workers[w].pc.Counting?
    requires s.workers[w].pc.i >= |s.workers[w].batch|
    ensures Basic(c, DoRelease(s, w))
  {
    var s' := DoRelease(s, w);
    ReleasePartition(s, w);
    InFlightCountUpdate(s.workers, w, s'.workers[w]);
    assert Owners(s'.sh, s'.sh.allocatedBufs) == Owners(s.sh, s.sh.allocatedBufs);
    forall v | 0 <= v < |s'.workers| ensures WorkerOk(s', v) {
      assert WorkerOk(s, v);
    }
    forall t | 0 <= t < |s'.threads| ensures PointerOk(s', t) && LogsOk(s', t) {
      assert PointerOk(s, t) && LogsOk(s, t);
    }
  }

  // ---------------------------------------------------------------- all steps, all runs

  /** The assertion of `allocBuffer` holds at both of its call sites. */
  lemma AllocFindsNull(c: Config, s: State, l: Label)
    requires Basic(c, s) && Enabled(c, s, l) && (l.Alloc? || l.AllocForRef?)
    ensures s.sh.cells[l.t].ptr.None?
  {
    assert PointerOk(s, l.t);
  }

  lemma BasicAllocForRef(c: Config, s: State, l: Label)
    requires Basic(c, s) && Enabled(c, s, l) && l.AllocForRef?
    ensures Basic(c, Next(c, s, l))
  {
    AllocFindsNull(c, s, l);
    var pc := Acquired(Some(NextBuffer(s.sh)));
    AllocStep(c, s, l.t, l.mem, pc);
    FlagsIrrelevant(c, CallAlloc(c, s, l.t, l.mem, pc), DoAllocForRef(c, s, l.t, l.mem));
  }

  lemma BasicAlloc(c: Config, s: State, l: Label)
    requires Basic(c, s) && Enabled(c, s, l) && l.Alloc?
    ensures Basic(c, Next(c, s, l))
  {
    AllocFindsNull(c, s, l);
    AllocStep(c, s, l.t, l.mem, Switching(NextBuffer(s.sh)));
  }

  lemma BasicExit(c: Config, s: State, l: Label)
    requires Basic(c, s) && Enabled(c, s, l) && l.Exit?
    ensures Basic(c, Next(c, s, l))
  {
    ExitStep(c, s, l.t);
  }

  lemma BasicTryInc(c: Config, s: State, l: Label)
    requires Basic(c, s) && Enabled(c, s, l) && l.TryInc?
    ensures Basic(c, Next(c, s, l))
  {
    IncStep(c, s, l.t);
  }

  lemma BasicSpawn(c: Config, s: State, l: Label)
    requires Basic(c, s) && Enabled(c, s, l) && l.Spawn?
    ensures Basic(c, Next(c, s, l))
  {
    SpawnStep(c, s);
  }

  lemma BasicWorkerStep(c: Config, s: State, l: Label)
    requires Basic(c, s) && Enabled(c, s, l) && IsWorkerLabel(l)
    ensures Basic(c, Next(c, s, l))
  {
    match l
    case ReleaseBatch(w) => ReleaseStep(c, s, w);
    case Poll(w) => PollStep(c, s, w);
    case Read(w) => ReadStep(c, s, w);
  }

  lemma BasicMonitorStep(c: Config, s: State, l: Label)
    requires Basic(c, s) && Enabled(c, s, l) && IsThreadLabel(l) && !IsQuiet(l)
    ensures Basic(c, Next(c, s, l))
  {
    match l
    case AllocForRef(_, _) => BasicAllocForRef(c, s, l);
    case Alloc(_, _) => BasicAlloc(c, s, l);
    case TryInc(_) => BasicTryInc(c, s, l);
    case Exit(_) => BasicExit(c, s, l);
  }

  /** Whatever step is taken, on any run, the books stay right. */
  lemma BasicStep(c: Config, s: State, l: Label)
    requires Basic(c, s) && Enabled(c, s, l)
    ensures Basic(c, Next(c, s, l))
  {
    if l.Spawn? {
      BasicSpawn(c, s, l);
    } else if IsWorkerLabel(l) {
      BasicWorkerStep(c, s, l);
    } else if IsQuiet(l) {
      QuietThreadStep(c, s, l);
    } else {
      BasicMonitorStep(c, s, l);
    }
  }

  lemma FlagsIrrelevant(c: Config, s: State, s': State)
    requires Basic(c, s) && s'.sh == s.sh && s'.threads == s.threads && s'.workers == s.workers
    ensures Basic(c, s')
  {
    forall b | 0 <= b < |s.sh.bufs| && Held(s, b) ensures Held(s', b) {
    }
    forall t | 0 <= t < |s'.threads| ensures PointerOk(s', t) && LogsOk(s', t) {
      assert PointerOk(s, t) && LogsOk(s, t);
    }
    forall w | 0 <= w < |s'.workers| ensures WorkerOk(s', w) {
      assert WorkerOk(s, w);
    }
  }

  lemma {:induction false} BasicRun(c: Config, ls: seq<Label>)
    requires Legal(c, ls)
    ensures Basic(c, After(c, ls))
  {
    if ls != [] {
      BasicRun(c, ls[..|ls| - 1]);
      BasicStep(c, After(c, ls[..|ls| - 1]), ls[|ls| - 1]);
    }
  }
}
