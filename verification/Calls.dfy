/** Whole operations of one thread or worker, done without an interruption: what they make
    of the shared state in one piece, and that the steps of the protocol do the same. */
module Calls {
  import opened Protocol

  datatype Result = Result(sh: Shared, ref: Ref, fault: Option<Fault>)

  predicate HasRef(sh: Shared, r: Ref) {
    r.logBuf < |sh.bufs|
  }

  /** The store of a word at the place of the Ref. */
  function WithWord(sh: Shared, r: Ref, word: Word): Shared
    requires HasRef(sh, r) && r.events < |sh.bufs[r.logBuf].slots|
  {
    var buf := sh.bufs[r.logBuf];
    sh.(bufs := sh.bufs[r.logBuf := buf.(slots := buf.slots[r.events := word])])
  }

  /** The old buffer after updateLogBuffer. */
  function WithClosed(sh: Shared, r: Ref): Shared
    requires HasRef(sh, r)
  {
    sh.(bufs := sh.bufs[r.logBuf := sh.bufs[r.logBuf].(events := r.events, closed := true)])
  }

  /** updateLogBuffer, once the new buffer is there. */
  function Update(c: Config, sh: Shared, r: Ref, newBuf: BufId): Result
    requires SharedInRange(sh) && HasRef(sh, r) && newBuf < |sh.bufs|
  {
    if newBuf == r.logBuf then Result(sh, r, Some(UpdateAssertion))
    else Result(WithClosed(sh, r), Ref(newBuf, 0, c.batchSize), None)
  }

  /** `ref->updateLogBuffer(__buf_manager.allocBuffer())` */
  function SwitchBuffer(c: Config, sh: Shared, t: ThreadId, r: Ref, mem: seq<Word>): Result
    requires SharedInRange(sh) && t < |sh.cells| && HasRef(sh, r)
  {
    if sh.cells[t].ptr.Some? then Result(sh, r, Some(AllocAssertion))
    else Update(c, AllocBuffer(c, sh, t, mem), r, NextBuffer(sh))
  }

  /** The slow path, for a Ref whose count has moved unless the pointer was NULL. */
  function Slow(c: Config, sh: Shared, t: ThreadId, r: Ref, isNull: bool, mem: seq<Word>): Result
    requires SharedInRange(sh) && t < |sh.cells| && HasRef(sh, r)
  {
    var r1 := r.(nextRdtscTime := r.nextRdtscTime + c.batchSize);
    if isNull then SwitchBuffer(c, sh, t, r, mem)
    else if r.events >= c.maxEvents then SwitchBuffer(c, TryIncEpoch(c, sh, r.logBuf), t, r1, mem)
    else Result(sh, r1, None)
  }

  /** One call of __tsan_write8_buf_manager that logs `word`, if the store is inside the
      storage. */
  function StoreAndGoOn(c: Config, sh: Shared, t: ThreadId, r: Ref, word: Word, mem: seq<Word>): Result
    requires SharedInRange(sh) && t < |sh.cells| && HasRef(sh, r) && r.events < |sh.bufs[r.logBuf].slots|
  {
    var sh1, isNull := WithWord(sh, r, word), sh.cells[t].ptr.None?;
    var r1 := if isNull then r else r.(events := r.events + 1);
    if isNull || r.events >= r.nextRdtscTime then Slow(c, sh1, t, r1, isNull, mem) else Result(sh1, r1, None)
  }

  lemma GoesSlow(c: Config, sh: Shared, t: ThreadId, r: Ref, word: Word, mem: seq<Word>, sh1: Shared, r1: Ref)
    requires SharedInRange(sh) && t < |sh.cells| && HasRef(sh, r) && r.events < |sh.bufs[r.logBuf].slots|
    requires SharedInRange(sh1) && sh1 == WithWord(sh, r, word)
    requires r1 == if sh.cells[t].ptr.None? then r else r.(events := r.events + 1)
    requires sh.cells[t].ptr.None? || r.events >= r.nextRdtscTime
    ensures StoreAndGoOn(c, sh, t, r, word, mem) == Slow(c, sh1, t, r1, sh.cells[t].ptr.None?, mem)
  {
    var isNull := sh.cells[t].ptr.None?;
    assert r1 == if isNull then r else r.(events := r.events + 1);
  }

  function Call(c: Config, sh: Shared, t: ThreadId, r: Ref, word: Word, mem: seq<Word>): Result
    requires SharedInRange(sh) && t < |sh.cells| && HasRef(sh, r)
  {
    if r.events < |sh.bufs[r.logBuf].slots| then StoreAndGoOn(c, sh, t, r, word, mem)
    else Result(sh, r, Some(StorageOverrun))
  }

  /** A thread with no pointer obtains a buffer first; then the Ref copies its fields. */
  function WithBuffer(c: Config, sh: Shared, t: ThreadId, mem: seq<Word>): Shared
    requires SharedInRange(sh) && t < |sh.cells|
  {
    if sh.cells[t].ptr.None? then AllocBuffer(c, sh, t, mem) else sh
  }

  function RefOf(sh: Shared, t: ThreadId): Ref
    requires SharedInRange(sh) && t < |sh.cells| && sh.cells[t].ptr.Some?
  {
    var b := sh.cells[t].ptr.value;
    Ref(b, sh.bufs[b].events, sh.bufs[b].nextRdtscTime)
  }

  /** The buffer after the destructor of its Ref. */
  function WithCounts(sh: Shared, r: Ref): Shared
    requires HasRef(sh, r)
  {
    sh.(bufs := sh.bufs[r.logBuf := sh.bufs[r.logBuf].(events := r.events, nextRdtscTime := r.nextRdtscTime)])
  }

  lemma SwitchInRange(c: Config, sh: Shared, t: ThreadId, r: Ref, mem: seq<Word>)
    requires SharedInRange(sh) && t < |sh.cells| && HasRef(sh, r)
    ensures var out := SwitchBuffer(c, sh, t, r, mem);
            SharedInRange(out.sh) && |out.sh.cells| == |sh.cells| && HasRef(out.sh, out.ref)
  {
  }

  // ---------------------------------------------------------------- the steps do the same

  /** Whose steps a run is made of. */
  datatype Actor = Anyone | OfThread(t: ThreadId) | OfWorker(w: nat)

  predicate By(who: Actor, l: Label) {
    match who
    case Anyone => true
    case OfThread(t) => IsThreadLabel(l) && l.t == t
    case OfWorker(w) => IsWorkerLabel(l) && l.w == w
  }

  /** Some run that is made of such steps only leads from `s` to `s'`. */
  ghost predicate Leads(c: Config, who: Actor, s: State, s': State)
    requires InRange(s)
  {
    exists ls :: LegalFrom(c, s, ls) && AfterFrom(c, s, ls) == s' && AllBy(who, ls)
  }

  predicate AllBy(who: Actor, ls: seq<Label>) {
    forall i | 0 <= i < |ls| :: By(who, ls[i])
  }

  lemma LeadsStart(c: Config, who: Actor, s: State)
    requires InRange(s)
    ensures Leads(c, who, s, s)
  {
    assert LegalFrom(c, s, []) && AfterFrom(c, s, []) == s && AllBy(who, []);
  }

  lemma LeadsStep(c: Config, who: Actor, s: State, s': State, l: Label)
    requires InRange(s) && InRange(s') && Leads(c, who, s, s') && Enabled(c, s', l) && By(who, l)
    ensures Leads(c, who, s, Next(c, s', l))
  {
    var ls :| LegalFrom(c, s, ls) && AfterFrom(c, s, ls) == s' && AllBy(who, ls);
    assert (ls + [l])[..|ls|] == ls;
    assert LegalFrom(c, s, ls + [l]) && AfterFrom(c, s, ls + [l]) == Next(c, s', l);
    assert AllBy(who, ls + [l]);
  }

  lemma LeadsTrans(c: Config, who: Actor, s: State, s1: State, s2: State)
    requires InRange(s) && InRange(s1) && Leads(c, who, s, s1) && Leads(c, who, s1, s2)
    ensures Leads(c, who, s, s2)
  {
    var ls :| LegalFrom(c, s1, ls) && AfterFrom(c, s1, ls) == s2 && AllBy(who, ls);
    LeadsAlong(c, who, s, s1, ls);
  }

  lemma {:induction false} LeadsAlong(c: Config, who: Actor, s: State, s1: State, ls: seq<Label>)
    requires InRange(s) && InRange(s1) && Leads(c, who, s, s1) && LegalFrom(c, s1, ls) && AllBy(who, ls)
    ensures Leads(c, who, s, AfterFrom(c, s1, ls))
  {
    if ls != [] {
      LeadsAlong(c, who, s, s1, ls[..|ls| - 1]);
      LeadsStep(c, who, s, AfterFrom(c, s1, ls[..|ls| - 1]), ls[|ls| - 1]);
    }
  }

  lemma LeadsAnyone(c: Config, who: Actor, s: State, s': State)
    requires InRange(s) && Leads(c, who, s, s')
    ensures Leads(c, Anyone, s, s')
  {
    var ls :| LegalFrom(c, s, ls) && AfterFrom(c, s, ls) == s' && AllBy(who, ls);
    assert AllBy(Anyone, ls);
  }

  /** State `s` shows the outcome of an operation of thread `t`: after a fault nothing is
      said of the Ref; else the thread is between two events. */
  ghost predicate Shows(s: State, t: ThreadId, out: Result) {
    && t < |s.threads| && s.sh == out.sh && s.fault == out.fault
    && (out.fault.None? ==> s.threads[t].pc.Ready? && s.threads[t].ref == out.ref)
  }

  /** Some run made of steps of thread `t` alone has this outcome. */
  ghost predicate Ends(c: Config, s: State, t: ThreadId, out: Result)
    requires InRange(s)
  {
    exists s' :: Leads(c, OfThread(t), s, s') && Shows(s', t, out)
  }

  // The four steps of a switch, one lemma each: what the label makes of a state.

  lemma LeadsAlloc(c: Config, s: State, t: ThreadId, mem: seq<Word>)
    requires InRange(s) && s.fault.None? && t < |s.threads| && s.threads[t].pc.Allocating?
    requires |mem| == c.Capacity()
    ensures Leads(c, OfThread(t), s, CallAlloc(c, s, t, mem, Switching(NextBuffer(s.sh))))
  {
    LeadsStart(c, OfThread(t), s);
    LeadsStep(c, OfThread(t), s, s, Alloc(t, mem));
  }

  lemma LeadsWriteBack(c: Config, s: State, s1: State, t: ThreadId)
    requires InRange(s) && InRange(s1) && Leads(c, OfThread(t), s, s1)
    requires s1.fault.None? && t < |s1.threads| && s1.threads[t].pc.Switching?
    ensures Leads(c, OfThread(t), s, DoWriteBack(s1, t))
  {
    LeadsStep(c, OfThread(t), s, s1, WriteBack(t));
  }

  lemma LeadsClose(c: Config, s: State, s1: State, t: ThreadId)
    requires InRange(s) && InRange(s1) && Leads(c, OfThread(t), s, s1)
    requires s1.fault.None? && t < |s1.threads| && s1.threads[t].pc.WroteBack?
    ensures Leads(c, OfThread(t), s, DoClose(s1, t))
  {
    LeadsStep(c, OfThread(t), s, s1, Close(t));
  }

  lemma LeadsAdopt(c: Config, s: State, s1: State, t: ThreadId)
    requires InRange(s) && InRange(s1) && Leads(c, OfThread(t), s, s1)
    requires s1.fault.None? && t < |s1.threads| && s1.threads[t].pc.Detached?
    ensures Leads(c, OfThread(t), s, DoAdopt(c, s1, t))
  {
    LeadsStep(c, OfThread(t), s, s1, Adopt(t));
  }

  /** Close and adopt, after the write-back of a switch that does not fault. */
  lemma CloseIsRun(c: Config, s: State, s1: State, t: ThreadId)
    requires InRange(s) && InRange(s1) && s1.fault.None? && t < |s1.threads| && s1.threads[t].pc.Switching?
    requires s1.threads[t].pc.newBuf != s1.threads[t].ref.logBuf
    requires Leads(c, OfThread(t), s, DoWriteBack(s1, t))
    ensures Ends(c, s, t, Update(c, s1.sh, s1.threads[t].ref, s1.threads[t].pc.newBuf))
  {
    var s2 := DoWriteBack(s1, t);
    var s3 := DoClose(s2, t);
    LeadsClose(c, s, s2, t);
    LeadsAdopt(c, s, s3, t);
    assert DoAdopt(c, s3, t).sh.bufs == WithClosed(s1.sh, s1.threads[t].ref).bufs;
    assert Shows(DoAdopt(c, s3, t), t, Update(c, s1.sh, s1.threads[t].ref, s1.threads[t].pc.newBuf));
  }

  lemma UpdateIsRun(c: Config, s: State, s1: State, t: ThreadId)
    requires InRange(s) && InRange(s1) && Leads(c, OfThread(t), s, s1)
    requires s1.fault.None? && t < |s1.threads| && s1.threads[t].pc.Switching?
    ensures Ends(c, s, t, Update(c, s1.sh, s1.threads[t].ref, s1.threads[t].pc.newBuf))
  {
    LeadsWriteBack(c, s, s1, t);
    if s1.threads[t].pc.newBuf != s1.threads[t].ref.logBuf {
      CloseIsRun(c, s, s1, t);
    } else {
      assert Shows(DoWriteBack(s1, t), t, Update(c, s1.sh, s1.threads[t].ref, s1.threads[t].pc.newBuf));
    }
  }

  lemma SwitchIsRun(c: Config, s: State, t: ThreadId, mem: seq<Word>)
    requires InRange(s) && s.fault.None? && t < |s.threads| && s.threads[t].pc.Allocating?
    requires |mem| == c.Capacity()
    ensures Ends(c, s, t, SwitchBuffer(c, s.sh, t, s.threads[t].ref, mem))
  {
    var s1 := CallAlloc(c, s, t, mem, Switching(NextBuffer(s.sh)));
    LeadsAlloc(c, s, t, mem);
    if s.sh.cells[t].ptr.None? {
      UpdateIsRun(c, s, s1, t);
    } else {
      assert Shows(s1, t, SwitchBuffer(c, s.sh, t, s.threads[t].ref, mem));
    }
  }

  /** The states inside a call: pointer loaded, word stored, event counted. */
  lemma LeadsLoadPtr(c: Config, s: State, t: ThreadId, word: Word)
    requires InRange(s) && s.fault.None? && t < |s.threads| && s.threads[t].pc.Ready?
    ensures Leads(c, OfThread(t), s, DoLoadPtr(s, t, word))
  {
    LeadsStart(c, OfThread(t), s);
    LeadsStep(c, OfThread(t), s, s, LoadPtr(t, word));
  }

  lemma LeadsStore(c: Config, s: State, s1: State, t: ThreadId)
    requires InRange(s) && InRange(s1) && Leads(c, OfThread(t), s, s1)
    requires s1.fault.None? && t < |s1.threads| && s1.threads[t].pc.Loaded?
    ensures Leads(c, OfThread(t), s, DoStore(s1, t))
  {
    LeadsStep(c, OfThread(t), s, s1, Store(t));
  }

  lemma LeadsCount(c: Config, s: State, s1: State, t: ThreadId)
    requires InRange(s) && InRange(s1) && Leads(c, OfThread(t), s, s1)
    requires s1.fault.None? && t < |s1.threads| && s1.threads[t].pc.Stored?
    ensures Leads(c, OfThread(t), s, DoCount(c, s1, t))
  {
    LeadsStep(c, OfThread(t), s, s1, Count(t));
  }

  lemma LeadsTryInc(c: Config, s: State, s1: State, t: ThreadId)
    requires InRange(s) && InRange(s1) && Leads(c, OfThread(t), s, s1)
    requires s1.fault.None? && t < |s1.threads| && s1.threads[t].pc.Full?
    ensures Leads(c, OfThread(t), s, DoTryInc(c, s1, t))
  {
    LeadsStep(c, OfThread(t), s, s1, TryInc(t));
  }

  /** The test after the store: the shared state has the word, and the thread goes on with
      the next event, with a proposal of a new epoch, or with a switch. */
  lemma CountIsRun(c: Config, s: State, t: ThreadId, word: Word)
    requires InRange(s) && s.fault.None? && t < |s.threads| && s.threads[t].pc.Ready?
    requires s.threads[t].ref.events < |s.sh.bufs[s.threads[t].ref.logBuf].slots|
    ensures exists s' :: Leads(c, OfThread(t), s, s') && Counted(c, s, t, word, s')
  {
    var s1 := DoLoadPtr(s, t, word);
    var s2 := DoStore(s1, t);
    LeadsLoadPtr(c, s, t, word);
    LeadsStore(c, s, s1, t);
    LeadsCount(c, s, s2, t);
    assert Counted(c, s, t, word, DoCount(c, s2, t));
  }

  ghost predicate Counted(c: Config, s: State, t: ThreadId, word: Word, s': State)
    requires InRange(s) && t < |s.threads| && HasRef(s.sh, s.threads[t].ref)
    requires s.threads[t].ref.events < |s.sh.bufs[s.threads[t].ref.logBuf].slots|
  {
    var r := s.threads[t].ref;
    var isNull := s.sh.cells[t].ptr.None?;
    var r1 := if isNull then r else r.(events := r.events + 1);
    var hit := !isNull && r.events >= r.nextRdtscTime;
    && InRange(s') && t < |s'.threads| && s'.fault.None?
    && s'.sh == WithWord(s.sh, r, word)
    && s'.threads[t].ref == (if hit then r1.(nextRdtscTime := r.nextRdtscTime + c.batchSize) else r1)
    && if isNull then s'.threads[t].pc.Allocating?
       else if hit && r1.events >= c.maxEvents then s'.threads[t].pc.Full?
       else s'.threads[t].pc.Ready?
  }

  /** A call that nobody interrupts is a run of the protocol, whatever branch it takes and
      whichever assertion stops it. */
  lemma CallIsRun(c: Config, s: State, t: ThreadId, word: Word, mem: seq<Word>)
    requires InRange(s) && s.fault.None? && t < |s.threads| && s.threads[t].pc.Ready?
    requires |mem| == c.Capacity()
    ensures Ends(c, s, t, Call(c, s.sh, t, s.threads[t].ref, word, mem))
  {
    var r := s.threads[t].ref;
    if r.events >= |s.sh.bufs[r.logBuf].slots| {
      LeadsLoadPtr(c, s, t, word);
      LeadsStore(c, s, DoLoadPtr(s, t, word), t);
      assert Shows(DoStore(DoLoadPtr(s, t, word), t), t, Call(c, s.sh, t, r, word, mem));
    } else {
      CountIsRun(c, s, t, word);
      var s1 :| Leads(c, OfThread(t), s, s1) && Counted(c, s, t, word, s1);
      CallBranches(c, s.sh, t, r, word, mem);
      CallAfter(c, s, t, word, mem, s1, Call(c, s.sh, t, r, word, mem));
    }
  }

  /** The outcome of a call that stores its word, by its three branches. */
  ghost predicate IsBranch(c: Config, sh: Shared, t: ThreadId, r: Ref, word: Word, mem: seq<Word>, out: Result)
    requires SharedInRange(sh) && t < |sh.cells| && HasRef(sh, r) && r.events < |sh.bufs[r.logBuf].slots|
  {
    var sh1, hit := WithWord(sh, r, word), r.events >= r.nextRdtscTime;
    var r1 := r.(events := r.events + 1,
                 nextRdtscTime := if hit then r.nextRdtscTime + c.batchSize else r.nextRdtscTime);
    if sh.cells[t].ptr.None? then SharedInRange(sh1) && out == SwitchBuffer(c, sh1, t, r, mem)
    else if hit && r1.events >= c.maxEvents then
      && SharedInRange(TryIncEpoch(c, sh1, r.logBuf))
      && out == SwitchBuffer(c, TryIncEpoch(c, sh1, r.logBuf), t, r1, mem)
    else out == Result(sh1, r1, None) && SharedInRange(sh1)
  }

  lemma WordInRange(sh: Shared, r: Ref, word: Word)
    requires SharedInRange(sh) && HasRef(sh, r) && r.events < |sh.bufs[r.logBuf].slots|
    ensures SharedInRange(WithWord(sh, r, word))
  {
  }

  lemma IncInRange(c: Config, sh: Shared, b: BufId)
    requires SharedInRange(sh) && b < |sh.bufs|
    ensures SharedInRange(TryIncEpoch(c, sh, b)) && |TryIncEpoch(c, sh, b).cells| == |sh.cells|
  {
  }

  lemma CallBranches(c: Config, sh: Shared, t: ThreadId, r: Ref, word: Word, mem: seq<Word>)
    requires SharedInRange(sh) && t < |sh.cells| && HasRef(sh, r) && r.events < |sh.bufs[r.logBuf].slots|
    ensures IsBranch(c, sh, t, r, word, mem, Call(c, sh, t, r, word, mem))
  {
    WordInRange(sh, r, word);
    IncInRange(c, WithWord(sh, r, word), r.logBuf);
  }

  lemma BranchInRange(c: Config, sh: Shared, t: ThreadId, r: Ref, word: Word, mem: seq<Word>, out: Result)
    requires SharedInRange(sh) && t < |sh.cells| && HasRef(sh, r) && r.events < |sh.bufs[r.logBuf].slots|
    requires IsBranch(c, sh, t, r, word, mem, out)
    ensures SharedInRange(out.sh) && |out.sh.cells| == |sh.cells| && HasRef(out.sh, out.ref)
  {
    var sh1, hit := WithWord(sh, r, word), r.events >= r.nextRdtscTime;
    if sh.cells[t].ptr.None? {
      SwitchInRange(c, sh1, t, r, mem);
    } else if hit && r.events + 1 >= c.maxEvents {
      var r1 := r.(events := r.events + 1, nextRdtscTime := r.nextRdtscTime + c.batchSize);
      SwitchInRange(c, TryIncEpoch(c, sh1, r.logBuf), t, r1, mem);
    }
  }

  lemma CallInRange(c: Config, sh: Shared, t: ThreadId, r: Ref, word: Word, mem: seq<Word>)
    requires SharedInRange(sh) && t < |sh.cells| && HasRef(sh, r)
    ensures var out := Call(c, sh, t, r, word, mem);
            SharedInRange(out.sh) && |out.sh.cells| == |sh.cells| && HasRef(out.sh, out.ref)
  {
    if r.events < |sh.bufs[r.logBuf].slots| {
      CallBranches(c, sh, t, r, word, mem);
      BranchInRange(c, sh, t, r, word, mem, Call(c, sh, t, r, word, mem));
    }
  }

  lemma CallAfter(c: Config, s: State, t: ThreadId, word: Word, mem: seq<Word>, s1: State, out: Result)
    requires InRange(s) && s.fault.None? && t < |s.threads| && s.threads[t].pc.Ready?
    requires |mem| == c.Capacity() && s.threads[t].ref.events < |s.sh.bufs[s.threads[t].ref.logBuf].slots|
    requires Leads(c, OfThread(t), s, s1) && Counted(c, s, t, word, s1)
    requires IsBranch(c, s.sh, t, s.threads[t].ref, word, mem, out)
    ensures Ends(c, s, t, out)
  {
    if s1.threads[t].pc.Ready? {
      assert Shows(s1, t, out);
    } else {
      SwitchAfter(c, s, s1, t, mem);
    }
  }

  /** The switch of a counted call, with the proposal of a new epoch if the buffer is full. */
  lemma SwitchAfter(c: Config, s: State, s1: State, t: ThreadId, mem: seq<Word>)
    requires InRange(s) && InRange(s1) && Leads(c, OfThread(t), s, s1) && |mem| == c.Capacity()
    requires s1.fault.None? && t < |s1.threads| && (s1.threads[t].pc.Allocating? || s1.threads[t].pc.Full?)
    ensures SharedInRange(if s1.threads[t].pc.Full? then TryIncEpoch(c, s1.sh, s1.threads[t].ref.logBuf) else s1.sh)
    ensures var sh := if s1.threads[t].pc.Full? then TryIncEpoch(c, s1.sh, s1.threads[t].ref.logBuf) else s1.sh;
            Ends(c, s, t, SwitchBuffer(c, sh, t, s1.threads[t].ref, mem))
  {
    var s2 := if s1.threads[t].pc.Full? then DoTryInc(c, s1, t) else s1;
    if s1.threads[t].pc.Full? { LeadsTryInc(c, s, s1, t); }
    SwitchIsRun(c, s2, t, mem);
    var s' :| Leads(c, OfThread(t), s2, s') && Shows(s', t, SwitchBuffer(c, s2.sh, t, s2.threads[t].ref, mem));
    LeadsTrans(c, OfThread(t), s, s2, s');
  }

  // ---------------------------------------------------------------- a worker

  function Total(sh: Shared, batch: seq<BufId>): nat
    requires forall i | 0 <= i < |batch| :: batch[i] < |sh.bufs|
  {
    if batch == [] then 0 else Total(sh, batch[..|batch| - 1]) + sh.bufs[batch[|batch| - 1]].events
  }

  /** The state with worker `w` somewhere else. */
  function WithWorker(s: State, w: nat, pc: WorkerPc, seen: seq<seq<Word>>): State
    requires w < |s.workers|
  {
    s.(workers := s.workers[w := s.workers[w].(pc := pc, seen := seen)])
  }

  function SeenUpTo(sh: Shared, batch: seq<BufId>): seq<seq<Word>>
    requires forall i | 0 <= i < |batch| :: batch[i] < |sh.bufs|
  {
    if batch == [] then []
    else SeenUpTo(sh, batch[..|batch| - 1]) + [Contents(sh.bufs[batch[|batch| - 1]])]
  }

  /** A new worker whose buffers are all closed. */
  ghost predicate MayWork(s: State, w: nat)
    requires InRange(s)
  {
    && s.fault.None? && w < |s.workers|
    && s.workers[w].pc == Waiting(0) && s.workers[w].seen == []
    && forall i | 0 <= i < |s.workers[w].batch| :: s.sh.bufs[s.workers[w].batch[i]].closed
  }

  lemma LeadsPoll(c: Config, s: State, s1: State, w: nat)
    requires InRange(s) && InRange(s1) && Leads(c, OfWorker(w), s, s1)
    requires s1.fault.None? && w < |s1.workers| && s1.workers[w].pc.Waiting?
    ensures Leads(c, OfWorker(w), s, DoPoll(s1, w))
  {
    LeadsStep(c, OfWorker(w), s, s1, Poll(w));
  }

  lemma LeadsRead(c: Config, s: State, s1: State, w: nat)
    requires InRange(s) && InRange(s1) && Leads(c, OfWorker(w), s, s1)
    requires s1.fault.None? && w < |s1.workers| && s1.workers[w].pc.Counting?
    requires s1.workers[w].pc.i < |s1.workers[w].batch|
    ensures Leads(c, OfWorker(w), s, DoRead(s1, w))
  {
    LeadsStep(c, OfWorker(w), s, s1, Read(w));
  }

  lemma PollNext(s: State, w: nat, k: nat)
    requires InRange(s) && MayWork(s, w) && k < |s.workers[w].batch|
    ensures InRange(WithWorker(s, w, Waiting(k), []))
    ensures DoPoll(WithWorker(s, w, Waiting(k), []), w) == WithWorker(s, w, Waiting(k + 1), [])
  {
  }

  lemma PollLast(s: State, w: nat)
    requires InRange(s) && MayWork(s, w)
    ensures var s1 := WithWorker(s, w, Waiting(|s.workers[w].batch|), []);
            InRange(s1) && DoPoll(s1, w) == WithWorker(s, w, Counting(0, 0), [])
  {
  }

  /** After `k` reads. */
  ghost function WithReads(s: State, w: nat, k: nat): (s': State)
    requires InRange(s) && MayWork(s, w) && k <= |s.workers[w].batch|
    ensures InRange(s')
  {
    var part := s.workers[w].batch[..k];
    WithWorker(s, w, Counting(k, Total(s.sh, part)), SeenUpTo(s.sh, part))
  }

  lemma ReadNext(s: State, w: nat, k: nat)
    requires InRange(s) && MayWork(s, w) && k < |s.workers[w].batch|
    ensures DoRead(WithReads(s, w, k), w) == WithReads(s, w, k + 1)
  {
    assert s.workers[w].batch[..k + 1][..k] == s.workers[w].batch[..k];
  }

  lemma {:induction false} PollsAreRun(c: Config, s: State, w: nat, k: nat)
    requires InRange(s) && MayWork(s, w) && k <= |s.workers[w].batch|
    ensures Leads(c, OfWorker(w), s, WithWorker(s, w, Waiting(k), []))
  {
    if k == 0 {
      LeadsStart(c, OfWorker(w), s);
      assert WithWorker(s, w, Waiting(0), []) == s;
    } else {
      PollsAreRun(c, s, w, k - 1);
      PollNext(s, w, k - 1);
      LeadsPoll(c, s, WithWorker(s, w, Waiting(k - 1), []), w);
    }
  }

  lemma {:induction false} ReadsAreRun(c: Config, s: State, w: nat, k: nat)
    requires InRange(s) && MayWork(s, w) && k <= |s.workers[w].batch|
    ensures Leads(c, OfWorker(w), s, WithReads(s, w, k))
  {
    if k == 0 {
      var n := |s.workers[w].batch|;
      PollsAreRun(c, s, w, n);
      PollLast(s, w);
      LeadsPoll(c, s, WithWorker(s, w, Waiting(n), []), w);
      assert s.workers[w].batch[..0] == [];
    } else {
      ReadsAreRun(c, s, w, k - 1);
      ReadNext(s, w, k - 1);
      LeadsRead(c, s, WithReads(s, w, k - 1), w);
    }
  }

  /** A worker all of whose buffers are closed gets through workerMain without help: it
      reports the sum of their counts and gives them back. */
  lemma WorkerIsRun(c: Config, s: State, w: nat)
    requires InRange(s) && s.fault.None? && w < |s.workers|
    requires s.workers[w].pc == Waiting(0) && s.workers[w].seen == []
    requires forall i | 0 <= i < |s.workers[w].batch| :: s.sh.bufs[s.workers[w].batch[i]].closed
    ensures exists s' :: Leads(c, OfWorker(w), s, s') && s'.sh == Release(s.sh, s.workers[w].batch)
                         && w < |s'.workers| && s'.workers[w].pc == Finished(Total(s.sh, s.workers[w].batch))
  {
    var batch := s.workers[w].batch;
    assert batch[..|batch|] == batch;
    ReadsAreRun(c, s, w, |batch|);
    LeadsStep(c, OfWorker(w), s, WithReads(s, w, |batch|), ReleaseBatch(w));
    assert Leads(c, OfWorker(w), s, DoRelease(WithReads(s, w, |batch|), w));
  }

  /** With an open buffer in its batch a worker that only steps itself stays in front of it. */
  lemma {:induction false} StaysInFront(c: Config, s: State, w: nat, u: nat, ls: seq<Label>)
    requires InRange(s) && w < |s.workers| && s.workers[w].pc == Waiting(0) && u < |s.workers[w].batch|
    requires !s.sh.bufs[s.workers[w].batch[u]].closed && LegalFrom(c, s, ls) && AllBy(OfWorker(w), ls)
    ensures InFrontOf(s, AfterFrom(c, s, ls), w, u)
  {
    if ls != [] {
      var before := ls[..|ls| - 1];
      StaysInFront(c, s, w, u, before);
      assert By(OfWorker(w), ls[|ls| - 1]);
      PollInFront(c, s, AfterFrom(c, s, before), w, u, ls[|ls| - 1]);
    }
  }

  ghost predicate InFrontOf(s: State, s': State, w: nat, u: nat)
    requires w < |s.workers|
  {
    && w < |s'.workers| && s'.sh == s.sh && s'.workers[w].batch == s.workers[w].batch
    && s'.workers[w].pc.Waiting? && s'.workers[w].pc.i <= u
  }

  lemma PollInFront(c: Config, s: State, s1: State, w: nat, u: nat, l: Label)
    requires InRange(s) && InRange(s1) && w < |s.workers| && u < |s.workers[w].batch|
    requires !s.sh.bufs[s.workers[w].batch[u]].closed && InFrontOf(s, s1, w, u)
    requires Enabled(c, s1, l) && By(OfWorker(w), l)
    ensures InFrontOf(s, Next(c, s1, l), w, u)
  {
  }

  /** A new worker gets through workerMain without anybody's help if and only if every
      buffer of its batch is closed. */
  lemma WorkerFinishesIff(c: Config, s: State, w: nat)
    requires InRange(s) && s.fault.None? && w < |s.workers|
    requires s.workers[w].pc == Waiting(0) && s.workers[w].seen == []
    ensures (exists s' :: Leads(c, OfWorker(w), s, s') && w < |s'.workers| && s'.workers[w].pc.Finished?) <==>
            forall i | 0 <= i < |s.workers[w].batch| :: s.sh.bufs[s.workers[w].batch[i]].closed
  {
    if forall i | 0 <= i < |s.workers[w].batch| :: s.sh.bufs[s.workers[w].batch[i]].closed {
      WorkerIsRun(c, s, w);
    } else {
      var u :| 0 <= u < |s.workers[w].batch| && !s.sh.bufs[s.workers[w].batch[u]].closed;
      forall s' | Leads(c, OfWorker(w), s, s') ensures InFrontOf(s, s', w, u) {
        var ls :| LegalFrom(c, s, ls) && AfterFrom(c, s, ls) == s' && AllBy(OfWorker(w), ls);
        StaysInFront(c, s, w, u, ls);
      }
    }
  }

  // ---------------------------------------------------------------- the logging loop

  /** The calls of run_buf_manager, up to the first fault; `mems` is what the storage of a
      new buffer would hold, for each call. */
  function CallAll(c: Config, sh: Shared, t: ThreadId, r: Ref, words: seq<Word>, mems: seq<seq<Word>>): (out: Result)
    requires SharedInRange(sh) && t < |sh.cells| && HasRef(sh, r) && |mems| == |words|
    ensures SharedInRange(out.sh) && t < |out.sh.cells| && HasRef(out.sh, out.ref)
  {
    if words == [] then Result(sh, r, None)
    else
      var n := |words| - 1;
      var before := CallAll(c, sh, t, r, words[..n], mems[..n]);
      if before.fault.Some? then before
      else
        CallInRange(c, before.sh, t, before.ref, words[n], mems[n]);
        Call(c, before.sh, t, before.ref, words[n], mems[n])
  }

  lemma CallAllStep(c: Config, sh: Shared, t: ThreadId, r: Ref, words: seq<Word>, mems: seq<seq<Word>>, i: nat, mem: seq<Word>)
    requires SharedInRange(sh) && t < |sh.cells| && HasRef(sh, r) && |mems| == i < |words|
    ensures var before := CallAll(c, sh, t, r, words[..i], mems);
            CallAll(c, sh, t, r, words[..i + 1], mems + [mem]) ==
            if before.fault.Some? then before else Call(c, before.sh, t, before.ref, words[i], mem)
  {
    assert words[..i + 1][..i] == words[..i] && (mems + [mem])[..i] == mems;
  }

  /** The whole loop, not interrupted, is a run of the protocol. */
  lemma {:induction false} LoopIsRun(c: Config, s: State, t: ThreadId, words: seq<Word>, mems: seq<seq<Word>>)
    requires InRange(s) && s.fault.None? && t < |s.threads| && s.threads[t].pc.Ready?
    requires |mems| == |words| && forall i | 0 <= i < |mems| :: |mems[i]| == c.Capacity()
    ensures Ends(c, s, t, CallAll(c, s.sh, t, s.threads[t].ref, words, mems))
  {
    var r := s.threads[t].ref;
    if words == [] {
      LeadsStart(c, OfThread(t), s);
      assert Shows(s, t, CallAll(c, s.sh, t, r, words, mems));
    } else {
      var n := |words| - 1;
      var before := CallAll(c, s.sh, t, r, words[..n], mems[..n]);
      LoopIsRun(c, s, t, words[..n], mems[..n]);
      var s1 :| Leads(c, OfThread(t), s, s1) && Shows(s1, t, before);
      if before.fault.None? {
        LeadsInRange(c, OfThread(t), s, s1);
        CallIsRun(c, s1, t, words[n], mems[n]);
        var s' :| Leads(c, OfThread(t), s1, s') && Shows(s', t, Call(c, s1.sh, t, s1.threads[t].ref, words[n], mems[n]));
        LeadsTrans(c, OfThread(t), s, s1, s');
      }
    }
  }

  lemma LeadsInRange(c: Config, who: Actor, s: State, s': State)
    requires InRange(s) && Leads(c, who, s, s')
    ensures InRange(s')
  {
  }

  /** What run_buf_manager does to the shared state, given what it finds in the storage of
      new buffers: a Ref, the calls, and, unless one of them faults, the end of the Ref. */
  function Looped(c: Config, sh: Shared, t: ThreadId, words: seq<Word>, mem: seq<Word>, mems: seq<seq<Word>>): Result
    requires SharedInRange(sh) && t < |sh.cells| && |words| == |mems|
  {
    var sh0 := WithBuffer(c, sh, t, mem);
    var out := CallAll(c, sh0, t, RefOf(sh0, t), words, mems);
    if out.fault.Some? then out else out.(sh := WithCounts(out.sh, out.ref))
  }
}
