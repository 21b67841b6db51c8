/** How far a thread stores into a buffer, on runs of any kind: what the Ref found when it
    was made decides it, and nothing else does. */
module Overruns {
  import opened Multiples
  import opened Protocol
  import opened Bookkeeping
  import opened Ownership
  import opened Safety
  import opened Trace
  import opened Switches

  // ---------------------------------------------------------------- deadlines, on every run

  ghost predicate OnBatch(c: Config, n: nat)
    requires c.Valid()
  {
    n % c.batchSize == 0 && c.batchSize <= n <= LastIndex(c)
  }

  ghost predicate RefDeadline(c: Config, th: Thread)
    requires c.Valid()
  {
    th.pc.Ready? || th.pc.Loaded? || th.pc.Stored? || th.pc.Dropping? ==> OnBatch(c, th.ref.nextRdtscTime)
  }

  ghost predicate BufferDeadline(c: Config, buf: Buffer)
    requires c.Valid()
  {
    |buf.slots| == c.Capacity() && OnBatch(c, buf.nextRdtscTime)
  }

  ghost predicate Deadlines(c: Config, s: State) {
    && c.Valid() && InRange(s)
    && (forall b | 0 <= b < |s.sh.bufs| :: BufferDeadline(c, s.sh.bufs[b]))
    && (forall t | 0 <= t < |s.threads| :: RefDeadline(c, s.threads[t]))
  }

  lemma FirstDeadline(c: Config)
    requires c.Valid()
    ensures OnBatch(c, c.batchSize)
  {
    LastIndexInside(c);
    ModAdd(0, c.batchSize);
  }

  lemma CountOnBatch(c: Config, th: Thread)
    requires c.Valid() && th.pc.Stored? && OnBatch(c, th.ref.nextRdtscTime)
    ensures RefDeadline(c, CountEvent(c, th))
  {
    var n := th.ref.nextRdtscTime;
    LastIndexInside(c);
    ModAdd(n, c.batchSize);
    if n < LastIndex(c) { StepToMultiple(n, LastIndex(c), c.batchSize); }
  }

  lemma AllocDeadlines(c: Config, s: State, t: ThreadId, mem: seq<Word>, pc: Pc)
    requires Deadlines(c, s) && t < |s.threads| && |mem| == c.Capacity() && MayAlloc(s, t, pc)
    ensures Deadlines(c, CallAlloc(c, s, t, mem, pc))
  {
    FirstDeadline(c);
  }

  lemma RefDeadlines(c: Config, s: State, l: Label)
    requires Deadlines(c, s) && Enabled(c, s, l) && IsRefLabel(l)
    ensures Deadlines(c, RefStep(c, s, l))
  {
    if l.AllocForRef? { AllocDeadlines(c, s, l.t, l.mem, Acquired(Some(NextBuffer(s.sh)))); }
  }

  lemma SlowDeadlines(c: Config, s: State, l: Label)
    requires Deadlines(c, s) && Enabled(c, s, l) && IsSlowLabel(l)
    ensures Deadlines(c, LogStep(c, s, l))
  {
    FirstDeadline(c);
    if l.Alloc? {
      AllocDeadlines(c, s, l.t, l.mem, Switching(NextBuffer(s.sh)));
    } else if l.WriteBack? || l.Close? {
      WriteDeadlines(c, s, l);
    }
  }

  lemma WriteDeadlines(c: Config, s: State, l: Label)
    requires Deadlines(c, s) && Enabled(c, s, l) && (l.WriteBack? || l.Close?)
    ensures Deadlines(c, LogStep(c, s, l))
  {
  }

  lemma LogDeadlines(c: Config, s: State, l: Label)
    requires Deadlines(c, s) && Enabled(c, s, l) && IsLogLabel(l)
    ensures Deadlines(c, LogStep(c, s, l))
  {
    if IsSlowLabel(l) { SlowDeadlines(c, s, l); }
    if l.Count? { CountOnBatch(c, s.threads[l.t]); }
  }

  lemma DeadlinesStep(c: Config, s: State, l: Label)
    requires Deadlines(c, s) && Enabled(c, s, l)
    ensures Deadlines(c, Next(c, s, l))
  {
    if IsRefLabel(l) { RefDeadlines(c, s, l); } else if IsLogLabel(l) { LogDeadlines(c, s, l); }
  }

  lemma {:induction false} DeadlinesRun(c: Config, ls: seq<Label>)
    requires c.Valid() && Legal(c, ls)
    ensures Deadlines(c, After(c, ls))
  {
    if ls != [] {
      DeadlinesRun(c, ls[..|ls| - 1]);
      DeadlinesStep(c, After(c, ls[..|ls| - 1]), ls[|ls| - 1]);
    }
  }

  // ---------------------------------------------------------------- where a Ref finds its buffer full

  /** The count at which a Ref that has count `e` and deadline `d` proposes the end of the
      epoch.  As long as the count is past the deadline, every event moves the deadline by
      a batch; if it still is when the size is reached, that is when the buffer is full. */
  function FullAt(c: Config, e: nat, d: nat): nat
    requires c.Valid()
  {
    var m := if e >= c.maxEvents - 1 then e else c.maxEvents - 1;
    if m > d + (m - e) * c.batchSize then m + 1 else LastIndex(c) + 1
  }

  lemma InOrder(c: Config, e: nat, d: nat)
    requires c.Valid() && e <= d
    ensures FullAt(c, e, d) == LastIndex(c) + 1
  {
    var m := if e >= c.maxEvents - 1 then e else c.maxEvents - 1;
    MulMonotone(1, c.batchSize, m - e);
    assert (m - e) * c.batchSize == c.batchSize * (m - e);
  }

  /** Counting an event does not change it, and the buffer is found full when it is reached. */
  lemma FullAtKept(c: Config, e: nat, d: nat)
    requires c.Valid() && OnBatch(c, d)
    ensures if e >= d then
              if e + 1 >= c.maxEvents then FullAt(c, e, d) == e + 1
              else FullAt(c, e + 1, d + c.batchSize) == FullAt(c, e, d)
            else FullAt(c, e + 1, d) == FullAt(c, e, d)
  {
    LastIndexInside(c);
    if e < d {
      InOrder(c, e, d);
      InOrder(c, e + 1, d);
    } else if e + 1 >= c.maxEvents {
      if e == d { AtDeadline(c, d); }
    } else {
      var m, b := c.maxEvents - 1, c.batchSize;
      assert (m - e) * b == (m - (e + 1)) * b + b;
    }
  }

  /** A deadline from which the size is reached is the last one. */
  lemma AtDeadline(c: Config, d: nat)
    requires c.Valid() && OnBatch(c, d) && d + 1 >= c.maxEvents
    ensures d == LastIndex(c)
  {
    LastIndexInside(c);
    if d < LastIndex(c) { StepToMultiple(d, LastIndex(c), c.batchSize); }
  }

  /** Every store of such a Ref is below that count; and past LastIndex only at the count
      the Ref started from. */
  lemma FullAtBounds(c: Config, e: nat, d: nat)
    requires c.Valid() && OnBatch(c, d)
    ensures e < FullAt(c, e, d)
    ensures FullAt(c, e, d) <= LastIndex(c) + 1 || FullAt(c, e, d) == e + 1
  {
    LastIndexInside(c);
  }

  // ---------------------------------------------------------------- what a Ref started from

  /** The two steps that give a thread a Ref, or move it to a new buffer. */
  predicate Starts(l: Label, t: ThreadId) {
    (l.MakeRef? || l.Adopt?) && l.t == t
  }

  /** The count and the deadline the Ref starts from: those found in the buffer, or those of
      an empty one. */
  ghost function Found(c: Config, s: State, l: Label): (nat, nat) {
    if l.MakeRef? && l.t < |s.threads| && s.threads[l.t].pc.Acquired? && s.threads[l.t].pc.buf.Some?
       && s.threads[l.t].pc.buf.value < |s.sh.bufs| then
      var buf := s.sh.bufs[s.threads[l.t].pc.buf.value];
      (buf.events, buf.nextRdtscTime)
    else (0, c.batchSize)
  }

  /** Step `i` is the latest start of thread `t` before step `n`. */
  ghost predicate LatestStart(ls: seq<Label>, i: nat, n: nat, t: ThreadId)
    requires n <= |ls|
  {
    i < n && Starts(ls[i], t) && forall k | i < k < n && ByThread(ls[k], t) :: !Starts(ls[k], t)
  }

  predicate IsFast(l: Label) {
    l.LoadPtr? || l.Store? || l.Count?
  }

  /** Since its latest start the thread has only logged: what its Ref shows. */
  ghost predicate Since(c: Config, th: Thread, e: nat, d: nat)
    requires c.Valid()
  {
    && th.ref.events >= e
    && match th.pc
       case Full => th.ref.events == FullAt(c, e, d)
       case Ready => FullAt(c, th.ref.events, th.ref.nextRdtscTime) == FullAt(c, e, d)
       case Loaded(_, _) => FullAt(c, th.ref.events, th.ref.nextRdtscTime) == FullAt(c, e, d)
       case Stored(_, _) => FullAt(c, th.ref.events, th.ref.nextRdtscTime) == FullAt(c, e, d)
       case _ => false
  }

  /** Between steps `i` and `n` the thread has only loaded its pointer, and stored one event
      if it has just done so. */
  ghost predicate NoneCounted(ls: seq<Label>, i: nat, n: nat, t: ThreadId, stored: bool)
    requires n <= |ls|
  {
    forall k | i < k < n && ByThread(ls[k], t) :: ls[k].LoadPtr? || (stored && ls[k].Store?)
  }

  ghost predicate FromStart(c: Config, ls: seq<Label>, i: nat, n: nat, t: ThreadId)
    requires c.Valid() && Legal(c, ls) && n <= |ls|
  {
    && LatestStart(ls, i, n, t) && t < |At(c, ls, n).threads|
    && var th := At(c, ls, n).threads[t];
       var f := Found(c, At(c, ls, i), ls[i]);
       && OnBatch(c, f.1) && Since(c, th, f.0, f.1)
       && (th.ref.events == f.0 ==> NoneCounted(ls, i, n, t, th.pc.Stored?))
  }

  predicate HasLog(pc: Pc) {
    pc.Ready? || pc.Loaded? || pc.Stored? || pc.Full?
  }

  // One step of the thread: where its Ref comes from, and what logging makes of it.

  lemma RefStarts(c: Config, s: State, l: Label)
    requires Deadlines(c, s) && Enabled(c, s, l) && IsRefLabel(l) && HasLog(RefStep(c, s, l).threads[l.t].pc)
    ensures l.MakeRef? && OnBatch(c, Found(c, s, l).1)
    ensures Since(c, RefStep(c, s, l).threads[l.t], Found(c, s, l).0, Found(c, s, l).1)
    ensures RefStep(c, s, l).threads[l.t].ref.events == Found(c, s, l).0
  {
  }

  lemma SlowStarts(c: Config, s: State, l: Label)
    requires Deadlines(c, s) && Enabled(c, s, l) && IsSlowLabel(l)
    requires HasLog(LogStep(c, s, l).threads[l.t].pc) && LogStep(c, s, l).fault.None?
    ensures l.Adopt? && OnBatch(c, Found(c, s, l).1)
    ensures Since(c, LogStep(c, s, l).threads[l.t], Found(c, s, l).0, Found(c, s, l).1)
    ensures LogStep(c, s, l).threads[l.t].ref.events == Found(c, s, l).0
  {
    FirstDeadline(c);
  }

  lemma CountSince(c: Config, th: Thread, e: nat, d: nat)
    requires c.Valid() && th.pc.Stored? && OnBatch(c, th.ref.nextRdtscTime) && Since(c, th, e, d)
    requires HasLog(CountEvent(c, th).pc)
    ensures Since(c, CountEvent(c, th), e, d) && CountEvent(c, th).ref.events > th.ref.events
  {
    FullAtKept(c, th.ref.events, th.ref.nextRdtscTime);
  }

  /** What a fast step of its thread does: the count stays, or moves on by a Count. */
  lemma FastSince(c: Config, s: State, l: Label, e: nat, d: nat)
    requires Deadlines(c, s) && Enabled(c, s, l) && IsLogLabel(l) && IsFast(l) && Since(c, s.threads[l.t], e, d)
    requires LogStep(c, s, l).fault.None? && HasLog(LogStep(c, s, l).threads[l.t].pc)
    ensures Since(c, LogStep(c, s, l).threads[l.t], e, d)
    ensures if l.Count? then LogStep(c, s, l).threads[l.t].ref.events > s.threads[l.t].ref.events
            else
              && LogStep(c, s, l).threads[l.t].ref == s.threads[l.t].ref && !s.threads[l.t].pc.Stored?
              && (l.Store? ==> LogStep(c, s, l).threads[l.t].pc.Stored?)
  {
    if l.Count? { CountSince(c, s.threads[l.t], e, d); }
  }

  /** Before a fast step its thread has a log. */
  lemma FastHasLog(c: Config, s: State, l: Label)
    requires Enabled(c, s, l) && IsFast(l)
    ensures HasLog(s.threads[l.t].pc) && !s.threads[l.t].pc.Full?
  {
  }

  // Along the run.

  ghost predicate LoggingAt(c: Config, ls: seq<Label>, n: nat, t: ThreadId)
    requires Legal(c, ls) && n <= |ls|
  {
    At(c, ls, n).fault.None? && t < |At(c, ls, n).threads| && HasLog(At(c, ls, n).threads[t].pc)
  }

  lemma DeadlinesAt(c: Config, ls: seq<Label>, n: nat)
    requires c.Valid() && Legal(c, ls) && n <= |ls|
    ensures Deadlines(c, At(c, ls, n))
  {
    LegalPrefix(c, ls, n);
    DeadlinesRun(c, ls[..n]);
  }

  lemma StartHere(c: Config, ls: seq<Label>, k: nat, t: ThreadId)
    requires c.Valid() && Legal(c, ls) && k < |ls| && LoggingAt(c, ls, k + 1, t)
    requires ByThread(ls[k], t) && !IsFast(ls[k])
    ensures FromStart(c, ls, k, k + 1, t)
  {
    DeadlinesAt(c, ls, k);
    AtStep(c, ls, k);
    if IsRefLabel(ls[k]) { RefStarts(c, At(c, ls, k), ls[k]); } else { SlowStarts(c, At(c, ls, k), ls[k]); }
  }

  lemma LoggedBefore(c: Config, ls: seq<Label>, k: nat, t: ThreadId)
    requires Legal(c, ls) && k < |ls| && LoggingAt(c, ls, k + 1, t)
    requires !ByThread(ls[k], t) || IsFast(ls[k])
    ensures LoggingAt(c, ls, k, t)
    ensures !ByThread(ls[k], t) ==> At(c, ls, k + 1).threads[t] == At(c, ls, k).threads[t]
  {
    var s := At(c, ls, k);
    AtStep(c, ls, k);
    NewThread(c, s, ls[k]);
    if ByThread(ls[k], t) { FastHasLog(c, s, ls[k]); } else { OthersKeepPc(c, s, ls[k], t); }
  }

  lemma StillLatest(ls: seq<Label>, i: nat, k: nat, t: ThreadId)
    requires k < |ls| && LatestStart(ls, i, k, t) && (ByThread(ls[k], t) ==> IsFast(ls[k]))
    ensures LatestStart(ls, i, k + 1, t)
  {
  }

  lemma StillNone(ls: seq<Label>, i: nat, k: nat, t: ThreadId, was: bool, now: bool)
    requires k < |ls| && NoneCounted(ls, i, k, t, was) && (was ==> now)
    requires ByThread(ls[k], t) ==> ls[k].LoadPtr? || (now && ls[k].Store?)
    ensures NoneCounted(ls, i, k + 1, t, now)
  {
  }

  lemma StartKept(c: Config, ls: seq<Label>, i: nat, k: nat, t: ThreadId)
    requires c.Valid() && Legal(c, ls) && k < |ls| && !ByThread(ls[k], t) && FromStart(c, ls, i, k, t)
    requires t < |At(c, ls, k + 1).threads| && At(c, ls, k + 1).threads[t] == At(c, ls, k).threads[t]
    ensures FromStart(c, ls, i, k + 1, t)
  {
    StillLatest(ls, i, k, t);
    var th, f := At(c, ls, k).threads[t], Found(c, At(c, ls, i), ls[i]);
    if th.ref.events == f.0 { StillNone(ls, i, k, t, th.pc.Stored?, th.pc.Stored?); }
  }

  lemma StartFast(c: Config, ls: seq<Label>, i: nat, k: nat, t: ThreadId)
    requires c.Valid() && Legal(c, ls) && k < |ls| && ByThread(ls[k], t) && IsFast(ls[k])
    requires FromStart(c, ls, i, k, t) && LoggingAt(c, ls, k + 1, t)
    ensures FromStart(c, ls, i, k + 1, t)
  {
    StillLatest(ls, i, k, t);
    FastAt(c, ls, i, k, t);
    var th, th' := At(c, ls, k).threads[t], At(c, ls, k + 1).threads[t];
    var f := Found(c, At(c, ls, i), ls[i]);
    if th'.ref.events == f.0 { StillNone(ls, i, k, t, th.pc.Stored?, th'.pc.Stored?); }
  }

  lemma FastAt(c: Config, ls: seq<Label>, i: nat, k: nat, t: ThreadId)
    requires c.Valid() && Legal(c, ls) && k < |ls| && ByThread(ls[k], t) && IsFast(ls[k])
    requires FromStart(c, ls, i, k, t) && LoggingAt(c, ls, k + 1, t)
    ensures var th, th' := At(c, ls, k).threads[t], At(c, ls, k + 1).threads[t];
            var f := Found(c, At(c, ls, i), ls[i]);
            && Since(c, th', f.0, f.1)
            && (if ls[k].Count? then th'.ref.events > th.ref.events
                else th'.ref == th.ref && !th.pc.Stored? && (ls[k].Store? ==> th'.pc.Stored?))
  {
    var s := At(c, ls, k);
    var f := Found(c, At(c, ls, i), ls[i]);
    DeadlinesAt(c, ls, k);
    AtStep(c, ls, k);
    FastSince(c, s, ls[k], f.0, f.1);
  }

  lemma NotLoggingAtStart(c: Config, ls: seq<Label>, t: ThreadId)
    requires Legal(c, ls)
    ensures !LoggingAt(c, ls, 0, t)
  {
    AtStart(c, ls);
  }

  lemma {:induction false} FindStart(c: Config, ls: seq<Label>, n: nat, t: ThreadId) returns (i: nat)
    requires c.Valid() && Legal(c, ls) && n <= |ls| && LoggingAt(c, ls, n, t)
    ensures FromStart(c, ls, i, n, t)
  {
    i := 0;
    NotLoggingAtStart(c, ls, t);
    if n > 0 {
      var k := n - 1;
      if ByThread(ls[k], t) && !IsFast(ls[k]) {
        StartHere(c, ls, k, t);
        i := k;
      } else {
        LoggedBefore(c, ls, k, t);
        i := FindStart(c, ls, k, t);
        if ByThread(ls[k], t) { StartFast(c, ls, i, k, t); } else { StartKept(c, ls, i, k, t); }
      }
    }
  }

  // ---------------------------------------------------------------- the theorems

  /** The first event of a Ref that was made at step `i`: nothing else was logged with it. */
  ghost predicate FirstOfRef(ls: seq<Label>, i: nat, n: nat, t: ThreadId)
    requires n <= |ls|
  {
    i < n && ls[i].MakeRef? && ls[i].t == t && NoneCounted(ls, i, n, t, false)
  }

  ghost function FoundCount(c: Config, s: State, l: Label): nat {
    Found(c, s, l).0
  }

  /** On every run: a Ref that started with count e and deadline d stores only below
      FullAt(e, d), proposes the end of the epoch exactly there, and never stores below e. */
  lemma RefRange(c: Config, ls: seq<Label>, n: nat, t: ThreadId) returns (i: nat)
    requires c.Valid() && Legal(c, ls) && n <= |ls| && LoggingAt(c, ls, n, t)
    ensures LatestStart(ls, i, n, t)
    ensures var f, th := Found(c, At(c, ls, i), ls[i]), At(c, ls, n).threads[t];
            && f.0 <= th.ref.events
            && (if th.pc.Full? then th.ref.events == FullAt(c, f.0, f.1) else th.ref.events < FullAt(c, f.0, f.1))
            && (FullAt(c, f.0, f.1) <= LastIndex(c) + 1 || FullAt(c, f.0, f.1) == f.0 + 1)
            && (f.0 <= f.1 ==> FullAt(c, f.0, f.1) == LastIndex(c) + 1)
  {
    i := FindStart(c, ls, n, t);
    var f, th := Found(c, At(c, ls, i), ls[i]), At(c, ls, n).threads[t];
    DeadlinesAt(c, ls, n);
    FullAtBounds(c, f.0, f.1);
    if !th.pc.Full? {
      assert RefDeadline(c, th);
      FullAtBounds(c, th.ref.events, th.ref.nextRdtscTime);
    }
    if f.0 <= f.1 { InOrder(c, f.0, f.1); }
  }

  lemma SameStart(ls: seq<Label>, i: nat, k: nat, n: nat, t: ThreadId)
    requires n <= |ls| && LatestStart(ls, i, n, t) && FirstOfRef(ls, k, n, t)
    ensures i == k
  {
    assert ByThread(ls[i], t) && ByThread(ls[k], t);
  }

  /** A store is past any index `limit` at or past LastIndex if and only if it is the first of
      a Ref that was made on a count past it. */
  lemma StorePastIff(c: Config, ls: seq<Label>, n: nat, limit: nat)
    requires c.Valid() && Legal(c, ls) && n < |ls| && ls[n].Store? && limit >= LastIndex(c)
    ensures ls[n].t < |At(c, ls, n).threads|
    ensures At(c, ls, n).threads[ls[n].t].ref.events > limit <==>
            exists i: nat :: FirstOfRef(ls, i, n, ls[n].t) && FoundCount(c, At(c, ls, i), ls[i]) > limit
  {
    var t := ls[n].t;
    StoreLogging(c, ls, n);
    var i := FindStart(c, ls, n, t);
    var th, f := At(c, ls, n).threads[t], Found(c, At(c, ls, i), ls[i]);
    DeadlinesAt(c, ls, n);
    assert RefDeadline(c, th);
    FullAtBounds(c, th.ref.events, th.ref.nextRdtscTime);
    FullAtBounds(c, f.0, f.1);
    forall k: nat | FirstOfRef(ls, k, n, t) ensures k == i { SameStart(ls, i, k, n, t); }
    if th.ref.events > limit { assert FirstOfRef(ls, i, n, t) && FoundCount(c, At(c, ls, i), ls[i]) > limit; }
  }

  lemma StoreLogging(c: Config, ls: seq<Label>, n: nat)
    requires Legal(c, ls) && n < |ls| && ls[n].Store?
    ensures LoggingAt(c, ls, n, ls[n].t) && At(c, ls, n).threads[ls[n].t].pc.Loaded?
  {
    AtStep(c, ls, n);
  }

  lemma LogOverrun(c: Config, s: State, l: Label)
    requires InRange(s) && Enabled(c, s, l) && IsLogLabel(l)
    ensures LogStep(c, s, l).fault == Some(StorageOverrun) <==>
            l.Store? && s.threads[l.t].ref.events >= |s.sh.bufs[s.threads[l.t].ref.logBuf].slots|
  {
  }

  lemma OverrunStep(c: Config, s: State, l: Label)
    requires Deadlines(c, s) && Enabled(c, s, l)
    ensures Next(c, s, l).fault == Some(StorageOverrun) <==>
            l.Store? && s.threads[l.t].ref.events > c.Capacity() - 1
  {
    if IsLogLabel(l) { LogOverrun(c, s, l); }
    if l.Store? { assert BufferDeadline(c, s.sh.bufs[s.threads[l.t].ref.logBuf]); }
  }

  /** On any run, a store past the end of a buffer is what stops it if and only if its last
      step is a store, the first one of a Ref that was made on a buffer whose count was past
      the end already. */
  lemma OverrunIff(c: Config, ls: seq<Label>)
    requires c.Valid() && Legal(c, ls)
    ensures After(c, ls).fault == Some(StorageOverrun) <==>
            && ls != [] && ls[|ls| - 1].Store?
            && var n, t := |ls| - 1, ls[|ls| - 1].t;
               exists i: nat :: FirstOfRef(ls, i, n, t) && FoundCount(c, At(c, ls, i), ls[i]) > c.Capacity() - 1
  {
    if ls != [] {
      var n := |ls| - 1;
      AtStep(c, ls, n);
      assert ls[..|ls|] == ls;
      DeadlinesAt(c, ls, n);
      OverrunStep(c, At(c, ls, n), ls[n]);
      if ls[n].Store? {
        LastIndexInside(c);
        StorePastIff(c, ls, n, c.Capacity() - 1);
      }
    }
  }

  /** Only a run that has dropped a batch can get there. */
  lemma OverrunNeedsDrop(c: Config, ls: seq<Label>)
    requires c.Valid() && Legal(c, ls) && After(c, ls).fault == Some(StorageOverrun)
    ensures After(c, ls).dropped
  {
    if !After(c, ls).dropped { NoFault(c, ls); }
  }
}
