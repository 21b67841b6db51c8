/** The epoch protocol of the logging runtime as a labelled transition system.

    Any number of application threads and worker threads share one buffer
    manager.  A method of the manager runs under its monitor, so each of its
    calls is one atomic step; every unlocked access of a thread or a worker to
    memory that another thread may look at is a step of its own.  Memory is
    sequentially consistent.

    `Next` is a function of the label, so a run is the sequence of its labels:
    `Legal` says that every label was enabled, `After` is the state reached.
*/
module Protocol {

  datatype Option<+T> = None | Some(value: T)

  type Word = bv64
  type BufId = nat
  type ThreadId = nat

  /** The compile-time constants: how many events make a buffer full, the step
      of the deadline, and the number of workers that may be active at once. */
  datatype Config = Config(maxEvents: nat, batchSize: nat, maxWorkers: nat) {
    predicate Valid() {
      maxEvents >= 2 && batchSize >= 1
    }

    /** Number of words in the storage of an event buffer. */
    function Capacity(): nat {
      maxEvents + batchSize + 1
    }
  }

  const SOURCE_CONFIG := Config(10_000_000, 64, 32)

  // ---------------------------------------------------------------- the shared memory

  datatype Buffer = Buffer(
    events: nat,
    nextRdtscTime: nat,
    slots: seq<Word>,
    threadId: ThreadId,
    epoch: nat,
    closed: bool)

  /** What other threads can see of an application thread: its buffer pointer
      (`__log_buffer`) and the latest buffer it was assigned (its context). */
  datatype Cell = Cell(ptr: Option<BufId>, ctx: Option<BufId>)

  /** Everything the monitor methods read and write. */
  datatype Shared = Shared(
    epoch: nat,
    activeWorkers: int,
    allocatedBufs: seq<BufId>,
    freeBufs: seq<BufId>,
    tlsBufAddrs: set<ThreadId>,
    bufs: seq<Buffer>,
    cells: seq<Cell>)

  ghost predicate SharedInRange(sh: Shared) {
    && (forall i | 0 <= i < |sh.allocatedBufs| :: sh.allocatedBufs[i] < |sh.bufs|)
    && (forall i | 0 <= i < |sh.freeBufs| :: sh.freeBufs[i] < |sh.bufs|)
    && (forall b | 0 <= b < |sh.bufs| :: sh.bufs[b].threadId < |sh.cells|)
    && (forall t | t in sh.tlsBufAddrs :: t < |sh.cells|)
    && (forall t | 0 <= t < |sh.cells| ::
          && (sh.cells[t].ptr.Some? ==> sh.cells[t].ptr.value < |sh.bufs|)
          && (sh.cells[t].ctx.Some? ==> sh.cells[t].ctx.value < |sh.bufs|))
  }

  // ---------------------------------------------------------------- the monitor methods

  /** A buffer that was just reset and handed to thread `t`; its words are `mem`. */
  function FreshBuffer(c: Config, t: ThreadId, epoch: nat, mem: seq<Word>): Buffer {
    Buffer(0, c.batchSize, mem, t, epoch, false)
  }

  /** The buffer `allocBuffer` hands out: the last free one, or a new one. */
  function NextBuffer(sh: Shared): BufId {
    if sh.freeBufs == [] then |sh.bufs| else sh.freeBufs[|sh.freeBufs| - 1]
  }

  /** `allocBuffer` past its assertion.  `mem` is what a new buffer finds in its storage. */
  function AllocBuffer(c: Config, sh: Shared, t: ThreadId, mem: seq<Word>): Shared
    requires SharedInRange(sh) && t < |sh.cells|
  {
    var b := NextBuffer(sh);
    sh.(bufs := if sh.freeBufs == [] then sh.bufs + [FreshBuffer(c, t, sh.epoch, mem)]
                else sh.bufs[b := FreshBuffer(c, t, sh.epoch, sh.bufs[b].slots)],
        freeBufs := if sh.freeBufs == [] then [] else sh.freeBufs[..|sh.freeBufs| - 1],
        cells := sh.cells[t := Cell(Some(b), Some(b))],
        allocatedBufs := sh.allocatedBufs + [b],
        tlsBufAddrs := sh.tlsBufAddrs + {t})
  }

  datatype Outcome = Lost | Spawned | Skipped

  /** Which branch `tryIncEpoch` takes for a thread whose Ref is on buffer `b`. */
  function IncOutcome(c: Config, sh: Shared, b: BufId): Outcome
    requires b < |sh.bufs|
  {
    if sh.epoch != sh.bufs[b].epoch then Lost
    else if sh.activeWorkers < c.maxWorkers then Spawned
    else Skipped
  }

  function TryIncEpoch(c: Config, sh: Shared, b: BufId): Shared
    requires b < |sh.bufs|
  {
    var out := IncOutcome(c, sh, b);
    if out.Lost? then sh
    else
      sh.(cells := seq(|sh.cells|, i requires 0 <= i < |sh.cells| =>
                         if i in sh.tlsBufAddrs then sh.cells[i].(ptr := None) else sh.cells[i]),
          tlsBufAddrs := {},
          activeWorkers := if out.Spawned? then sh.activeWorkers + 1 else sh.activeWorkers,
          freeBufs := if out.Spawned? then sh.freeBufs else sh.freeBufs + sh.allocatedBufs,
          allocatedBufs := [],
          epoch := sh.epoch + 1)
  }

  function Release(sh: Shared, batch: seq<BufId>): Shared {
    sh.(activeWorkers := sh.activeWorkers - 1, freeBufs := sh.freeBufs + batch)
  }

  function ThreadExit(sh: Shared, t: ThreadId): Shared
    requires SharedInRange(sh) && t < |sh.cells|
  {
    sh.(bufs := if sh.cells[t].ctx.Some? then
                  var b := sh.cells[t].ctx.value;
                  sh.bufs[b := sh.bufs[b].(closed := true)]
                else sh.bufs,
        tlsBufAddrs := sh.tlsBufAddrs - {t})
  }

  // ---------------------------------------------------------------- threads and workers

  /** A thread's cached reference to the buffer it logs into. */
  datatype Ref = Ref(logBuf: BufId, events: nat, nextRdtscTime: nat)

  /** Where an application thread is. */
  datatype Pc =
    | Idle                                       // no Ref
    | Acquired(buf: Option<BufId>)               // getLogBufferRef: pointer loaded, or buffer allocated
    | Ready                                      // has a Ref, between two events
    | Loaded(word: Word, cur: Option<BufId>)     // pointer loaded, event not stored yet
    | Stored(word: Word, cur: Option<BufId>)     // event stored, not counted yet
    | Full                                       // about to call tryIncEpoch
    | Allocating                                 // about to call allocBuffer
    | Switching(newBuf: BufId)                    // updateLogBuffer: about to write back `events`
    | WroteBack(newBuf: BufId)                    // updateLogBuffer: about to set `closed`
    | Detached(newBuf: BufId)                     // updateLogBuffer: about to adopt the new buffer
    | Dropping                                   // ~Ref: `events` written, deadline not yet
    | Exited

  /** One call of the logging function: the encoded event and whether it was counted. */
  datatype Issue = Issue(word: Word, counted: bool)

  /** `logs`, `lastEpoch` and `issued` are history: the words counted for the
      buffer of each epoch, the epoch of the latest buffer, every event issued. */
  datatype Thread = Thread(
    pc: Pc,
    ref: Ref,
    logs: map<nat, seq<Word>>,
    lastEpoch: nat,
    issued: seq<Issue>)

  datatype WorkerPc = Waiting(i: nat) | Counting(i: nat, sum: nat) | Finished(sum: nat)

  /** `epoch`, `owners` and `seen` are history: the epoch whose end started the
      worker, the owners of its buffers, and the contents of those it has read. */
  datatype Worker = Worker(
    batch: seq<BufId>,
    epoch: nat,
    owners: seq<ThreadId>,
    seen: seq<seq<Word>>,
    pc: WorkerPc)

  /** The assertions of the code, and the bound of a buffer's storage. */
  datatype Fault = AllocAssertion | UpdateAssertion | StorageOverrun

  /** `dropped` and `orphaned` are history: a successful tryIncEpoch found too many
      workers; getLogBufferRef replaced a buffer that was never closed. */
  datatype State = State(
    sh: Shared,
    threads: seq<Thread>,
    workers: seq<Worker>,
    fault: Option<Fault>,
    dropped: bool,
    orphaned: bool)

  const INIT := State(Shared(0, 0, [], [], {}, [], []), [], [], None, false, false)

  /** The Ref is in scope and its buffer has not been closed by its owner. */
  predicate HoldsRef(pc: Pc) {
    pc.Ready? || pc.Loaded? || pc.Stored? || pc.Full? || pc.Allocating? ||
    pc.Switching? || pc.WroteBack? || pc.Dropping?
  }

  /** In the middle of a buffer switch: the context names the new buffer already. */
  predicate MidSwitch(pc: Pc) {
    pc.Switching? || pc.WroteBack? || pc.Detached?
  }

  predicate InFlight(wk: Worker) {
    !wk.pc.Finished?
  }

  ghost predicate ThreadInRange(th: Thread, n: nat) {
    && (HoldsRef(th.pc) ==> th.ref.logBuf < n)
    && (th.pc.Acquired? && th.pc.buf.Some? ==> th.pc.buf.value < n)
    && (MidSwitch(th.pc) ==> th.pc.newBuf < n)
  }

  ghost predicate WorkerInRange(wk: Worker, n: nat, threads: nat) {
    && |wk.owners| == |wk.batch|
    && (forall i | 0 <= i < |wk.batch| :: wk.batch[i] < n)
    && (forall i | 0 <= i < |wk.owners| :: wk.owners[i] < threads)
  }

  ghost predicate InRange(s: State) {
    && SharedInRange(s.sh)
    && |s.sh.cells| == |s.threads|
    && (forall t | 0 <= t < |s.threads| :: ThreadInRange(s.threads[t], |s.sh.bufs|))
    && (forall w | 0 <= w < |s.workers| :: WorkerInRange(s.workers[w], |s.sh.bufs|, |s.threads|))
  }

  // ---------------------------------------------------------------- the steps

  datatype Label =
    | Spawn
    | LoadForRef(t: ThreadId)
    | AllocForRef(t: ThreadId, mem: seq<Word>)
    | MakeRef(t: ThreadId)
    | LoadPtr(t: ThreadId, word: Word)
    | Store(t: ThreadId)
    | Count(t: ThreadId)
    | TryInc(t: ThreadId)
    | Alloc(t: ThreadId, mem: seq<Word>)
    | WriteBack(t: ThreadId)
    | Close(t: ThreadId)
    | Adopt(t: ThreadId)
    | DropEvents(t: ThreadId)
    | DropDeadline(t: ThreadId)
    | Exit(t: ThreadId)
    | Poll(w: nat)
    | Read(w: nat)
    | ReleaseBatch(w: nat)

  predicate IsWorkerLabel(l: Label) {
    l.Poll? || l.Read? || l.ReleaseBatch?
  }

  predicate IsRefLabel(l: Label) {
    l.LoadForRef? || l.AllocForRef? || l.MakeRef? || l.DropEvents? || l.DropDeadline? || l.Exit?
  }

  predicate IsLogLabel(l: Label) {
    !l.Spawn? && !IsWorkerLabel(l) && !IsRefLabel(l)
  }

  predicate IsThreadLabel(l: Label) {
    IsRefLabel(l) || IsLogLabel(l)
  }

  /** When a thread's next statement is the one `l` names. */
  predicate ThreadEnabled(c: Config, pc: Pc, l: Label)
    requires IsThreadLabel(l)
  {
    match l
    case LoadForRef(_) => pc.Idle?
    case AllocForRef(_, mem) => pc == Acquired(None) && |mem| == c.Capacity()
    case MakeRef(_) => pc.Acquired? && pc.buf.Some?
    case LoadPtr(_, _) => pc.Ready?
    case Store(_) => pc.Loaded?
    case Count(_) => pc.Stored?
    case TryInc(_) => pc.Full?
    case Alloc(_, mem) => pc.Allocating? && |mem| == c.Capacity()
    case WriteBack(_) => pc.Switching?
    case Close(_) => pc.WroteBack?
    case Adopt(_) => pc.Detached?
    case DropEvents(_) => pc.Ready?
    case DropDeadline(_) => pc.Dropping?
    case Exit(_) => pc.Idle?
  }

  predicate Enabled(c: Config, s: State, l: Label) {
    && s.fault.None?
    && match l
       case Spawn => true
       case Poll(w) => w < |s.workers| && s.workers[w].pc.Waiting?
       case Read(w) => && w < |s.workers| && s.workers[w].pc.Counting?
                       && s.workers[w].pc.i < |s.workers[w].batch|
       case ReleaseBatch(w) => && w < |s.workers| && s.workers[w].pc.Counting?
                               && s.workers[w].pc.i >= |s.workers[w].batch|
       case _ => l.t < |s.threads| && ThreadEnabled(c, s.threads[l.t].pc, l)
  }

  function SetPc(s: State, t: ThreadId, pc: Pc): State
    requires t < |s.threads|
  {
    s.(threads := s.threads[t := s.threads[t].(pc := pc)])
  }

  function SetBuffer(s: State, b: BufId, v: Buffer): State
    requires b < |s.sh.bufs|
  {
    s.(sh := s.sh.(bufs := s.sh.bufs[b := v]))
  }

  /** A new thread: its pointer and its context are NULL. */
  function DoSpawn(s: State): (s': State)
    requires InRange(s)
    ensures InRange(s')
  {
    s.(threads := s.threads + [Thread(Idle, Ref(0, 0, 0), map[], 0, [])],
       sh := s.sh.(cells := s.sh.cells + [Cell(None, None)]))
  }

  /** The call of `allocBuffer` by a thread that goes on at `pc`. */
  function CallAlloc(c: Config, s: State, t: ThreadId, mem: seq<Word>, pc: Pc): (s': State)
    requires InRange(s) && t < |s.threads|
    requires pc == Acquired(Some(NextBuffer(s.sh))) ||
             (pc == Switching(NextBuffer(s.sh)) && HoldsRef(s.threads[t].pc))
    ensures InRange(s')
  {
    if s.sh.cells[t].ptr.Some? then s.(fault := Some(AllocAssertion))
    else
      var th := s.threads[t];
      s.(sh := AllocBuffer(c, s.sh, t, mem),
         threads := s.threads[t := th.(pc := pc, logs := th.logs[s.sh.epoch := []],
                                       lastEpoch := s.sh.epoch)])
  }

  function DoAllocForRef(c: Config, s: State, t: ThreadId, mem: seq<Word>): (s': State)
    requires InRange(s) && t < |s.threads|
    ensures InRange(s')
  {
    var ctx := s.sh.cells[t].ctx;
    CallAlloc(c, s, t, mem, Acquired(Some(NextBuffer(s.sh)))).(
      orphaned := s.orphaned || (ctx.Some? && !s.sh.bufs[ctx.value].closed))
  }

  function DoLoadForRef(s: State, t: ThreadId): (s': State)
    requires InRange(s) && t < |s.threads|
    ensures InRange(s')
  {
    SetPc(s, t, Acquired(s.sh.cells[t].ptr))
  }

  function DoMakeRef(s: State, t: ThreadId, b: BufId): (s': State)
    requires InRange(s)
    requires t < |s.threads| && b < |s.sh.bufs|
    ensures InRange(s')
  {
    var buf := s.sh.bufs[b];
    s.(threads := s.threads[t := s.threads[t].(pc := Ready, ref := Ref(b, buf.events, buf.nextRdtscTime))])
  }

  function DoLoadPtr(s: State, t: ThreadId, word: Word): (s': State)
    requires InRange(s) && t < |s.threads| && s.threads[t].pc.Ready?
    ensures InRange(s')
  {
    SetPc(s, t, Loaded(word, s.sh.cells[t].ptr))
  }

  function DoStore(s: State, t: ThreadId): (s': State)
    requires InRange(s) && t < |s.threads| && s.threads[t].pc.Loaded?
    ensures InRange(s')
  {
    var th := s.threads[t];
    var buf := s.sh.bufs[th.ref.logBuf];
    if th.ref.events >= |buf.slots| then s.(fault := Some(StorageOverrun))
    else
      SetPc(SetBuffer(s, th.ref.logBuf, buf.(slots := buf.slots[th.ref.events := th.pc.word])),
            t, Stored(th.pc.word, th.pc.cur))
  }

  function LogOf(th: Thread, e: nat): seq<Word> {
    if e in th.logs then th.logs[e] else []
  }

  /** The test after the store.  An event whose pointer load gave NULL is not
      counted; any other is, and a deadline that is hit moves on by one batch. */
  function CountEvent(c: Config, th: Thread): Thread
    requires th.pc.Stored?
  {
    var r := th.ref;
    if th.pc.cur.None? then
      th.(pc := Allocating, issued := th.issued + [Issue(th.pc.word, false)])
    else
      var hit := r.events >= r.nextRdtscTime;
      th.(pc := if hit && r.events + 1 >= c.maxEvents then Full else Ready,
          ref := r.(events := r.events + 1,
                    nextRdtscTime := if hit then r.nextRdtscTime + c.batchSize else r.nextRdtscTime),
          logs := th.logs[th.lastEpoch := LogOf(th, th.lastEpoch) + [th.pc.word]],
          issued := th.issued + [Issue(th.pc.word, true)])
  }

  function DoCount(c: Config, s: State, t: ThreadId): (s': State)
    requires InRange(s) && t < |s.threads| && s.threads[t].pc.Stored?
    ensures InRange(s')
  {
    s.(threads := s.threads[t := CountEvent(c, s.threads[t])])
  }

  function Owners(sh: Shared, batch: seq<BufId>): seq<ThreadId>
    requires forall i | 0 <= i < |batch| :: batch[i] < |sh.bufs|
  {
    seq(|batch|, i requires 0 <= i < |batch| => sh.bufs[batch[i]].threadId)
  }

  function DoTryInc(c: Config, s: State, t: ThreadId): (s': State)
    requires InRange(s) && t < |s.threads| && s.threads[t].pc.Full?
    ensures InRange(s')
  {
    var sh := s.sh;
    var b := s.threads[t].ref.logBuf;
    var out := IncOutcome(c, sh, b);
    SetPc(s, t, Allocating).(
      sh := TryIncEpoch(c, sh, b),
      workers := if out.Spawned? then
                   s.workers + [Worker(sh.allocatedBufs, sh.epoch, Owners(sh, sh.allocatedBufs), [], Waiting(0))]
                 else s.workers,
      dropped := s.dropped || out.Skipped?)
  }

  function DoWriteBack(s: State, t: ThreadId): (s': State)
    requires InRange(s) && t < |s.threads| && s.threads[t].pc.Switching?
    ensures InRange(s')
  {
    var th := s.threads[t];
    var b := th.ref.logBuf;
    if th.pc.newBuf == b then s.(fault := Some(UpdateAssertion))
    else SetPc(SetBuffer(s, b, s.sh.bufs[b].(events := th.ref.events)), t, WroteBack(th.pc.newBuf))
  }

  function DoClose(s: State, t: ThreadId): (s': State)
    requires InRange(s) && t < |s.threads| && s.threads[t].pc.WroteBack?
    ensures InRange(s')
  {
    var th := s.threads[t];
    var b := th.ref.logBuf;
    SetPc(SetBuffer(s, b, s.sh.bufs[b].(closed := true)), t, Detached(th.pc.newBuf))
  }

  function DoAdopt(c: Config, s: State, t: ThreadId): (s': State)
    requires InRange(s)
    requires t < |s.threads| && s.threads[t].pc.Detached?
    ensures InRange(s')
  {
    var th := s.threads[t];
    s.(threads := s.threads[t := th.(pc := Ready, ref := Ref(th.pc.newBuf, 0, c.batchSize))])
  }

  function DoDropEvents(s: State, t: ThreadId): (s': State)
    requires InRange(s) && t < |s.threads| && s.threads[t].pc.Ready?
    ensures InRange(s')
  {
    var r := s.threads[t].ref;
    SetPc(SetBuffer(s, r.logBuf, s.sh.bufs[r.logBuf].(events := r.events)), t, Dropping)
  }

  function DoDropDeadline(s: State, t: ThreadId): (s': State)
    requires InRange(s) && t < |s.threads| && s.threads[t].pc.Dropping?
    ensures InRange(s')
  {
    var r := s.threads[t].ref;
    SetPc(SetBuffer(s, r.logBuf, s.sh.bufs[r.logBuf].(nextRdtscTime := r.nextRdtscTime)), t, Idle)
  }

  function DoExit(s: State, t: ThreadId): (s': State)
    requires InRange(s) && t < |s.threads|
    ensures InRange(s')
  {
    SetPc(s, t, Exited).(sh := ThreadExit(s.sh, t))
  }

  function DoPoll(s: State, w: nat): (s': State)
    requires InRange(s) && w < |s.workers| && s.workers[w].pc.Waiting?
    ensures InRange(s')
  {
    var wk := s.workers[w];
    var i := wk.pc.i;
    if i >= |wk.batch| then s.(workers := s.workers[w := wk.(pc := Counting(0, 0))])
    else if s.sh.bufs[wk.batch[i]].closed then s.(workers := s.workers[w := wk.(pc := Waiting(i + 1))])
    else s
  }

  /** The words a reader of the buffer finds below its count. */
  function Contents(buf: Buffer): seq<Word> {
    if buf.events <= |buf.slots| then buf.slots[..buf.events] else buf.slots
  }

  function DoRead(s: State, w: nat): (s': State)
    requires InRange(s) && w < |s.workers| && s.workers[w].pc.Counting?
    requires s.workers[w].pc.i < |s.workers[w].batch|
    ensures InRange(s')
  {
    var wk := s.workers[w];
    var buf := s.sh.bufs[wk.batch[wk.pc.i]];
    s.(workers := s.workers[w := wk.(pc := Counting(wk.pc.i + 1, wk.pc.sum + buf.events),
                                     seen := wk.seen + [Contents(buf)])])
  }

  function DoRelease(s: State, w: nat): (s': State)
    requires InRange(s)
    requires w < |s.workers| && s.workers[w].pc.Counting?
    ensures InRange(s')
  {
    var wk := s.workers[w];
    s.(sh := Release(s.sh, wk.batch), workers := s.workers[w := wk.(pc := Finished(wk.pc.sum))])
  }

  /** The steps of getLogBufferRef, ~Ref and ~Context. */
  function RefStep(c: Config, s: State, l: Label): (s': State)
    requires InRange(s) && Enabled(c, s, l) && IsRefLabel(l)
    ensures InRange(s')
  {
    match l
    case LoadForRef(t) => DoLoadForRef(s, t)
    case AllocForRef(t, mem) => DoAllocForRef(c, s, t, mem)
    case MakeRef(t) => DoMakeRef(s, t, s.threads[t].pc.buf.value)
    case DropEvents(t) => DoDropEvents(s, t)
    case DropDeadline(t) => DoDropDeadline(s, t)
    case Exit(t) => DoExit(s, t)
  }

  /** The steps of one call of the logging function, its slow path included. */
  function LogStep(c: Config, s: State, l: Label): (s': State)
    requires InRange(s) && Enabled(c, s, l) && IsLogLabel(l)
    ensures InRange(s')
  {
    match l
    case LoadPtr(t, word) => DoLoadPtr(s, t, word)
    case Store(t) => DoStore(s, t)
    case Count(t) => DoCount(c, s, t)
    case TryInc(t) => DoTryInc(c, s, t)
    case Alloc(t, mem) => CallAlloc(c, s, t, mem, Switching(NextBuffer(s.sh)))
    case WriteBack(t) => DoWriteBack(s, t)
    case Close(t) => DoClose(s, t)
    case Adopt(t) => DoAdopt(c, s, t)
  }

  /** The steps of workerMain. */
  function WorkerStep(c: Config, s: State, l: Label): (s': State)
    requires InRange(s) && Enabled(c, s, l) && IsWorkerLabel(l)
    ensures InRange(s')
  {
    match l
    case Poll(w) => DoPoll(s, w)
    case Read(w) => DoRead(s, w)
    case ReleaseBatch(w) => DoRelease(s, w)
  }

  function Next(c: Config, s: State, l: Label): (s': State)
    requires InRange(s) && Enabled(c, s, l)
    ensures InRange(s')
  {
    if l.Spawn? then DoSpawn(s)
    else if IsWorkerLabel(l) then WorkerStep(c, s, l)
    else if IsRefLabel(l) then RefStep(c, s, l)
    else LogStep(c, s, l)
  }

  // ---------------------------------------------------------------- runs

  ghost predicate LegalFrom(c: Config, s: State, ls: seq<Label>)
    requires InRange(s)
    decreases |ls|, 0
  {
    ls == [] ||
    (LegalFrom(c, s, ls[..|ls| - 1]) && Enabled(c, AfterFrom(c, s, ls[..|ls| - 1]), ls[|ls| - 1]))
  }

  ghost function AfterFrom(c: Config, s: State, ls: seq<Label>): (s': State)
    requires InRange(s) && LegalFrom(c, s, ls)
    ensures InRange(s')
    decreases |ls|, 1
  {
    if ls == [] then s
    else Next(c, AfterFrom(c, s, ls[..|ls| - 1]), ls[|ls| - 1])
  }

  ghost predicate Legal(c: Config, ls: seq<Label>) {
    LegalFrom(c, INIT, ls)
  }

  ghost function After(c: Config, ls: seq<Label>): (s: State)
    requires Legal(c, ls)
    ensures InRange(s)
  {
    AfterFrom(c, INIT, ls)
  }
}
