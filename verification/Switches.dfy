/** When the assertion of updateLogBuffer fails, on runs of any kind: whatever other
    threads do between the steps of a switch, and whatever was dropped before. */
module Switches {
  import opened Protocol
  import opened Ownership
  import opened Safety
  import opened Trace

  predicate ByThread(l: Label, t: ThreadId) {
    IsThreadLabel(l) && l.t == t
  }

  /** Step `i` is the latest call of allocBuffer, in a slow path, before step `n` of the
      same thread, and the thread made no step in between. */
  ghost predicate LatestAlloc(ls: seq<Label>, i: nat, n: nat, t: ThreadId)
    requires n <= |ls|
  {
    i < n && ls[i].Alloc? && ls[i].t == t && forall k | i < k < n :: !ByThread(ls[k], t)
  }

  /** What the thread can see before that call: the next buffer is the one its Ref is on. */
  ghost predicate NextIsOwn(s: State, t: ThreadId) {
    t < |s.threads| && NextBuffer(s.sh) == s.threads[t].ref.logBuf
  }

  // ---------------------------------------------------------------- the step that fails

  lemma LogUpdateFault(c: Config, s: State, l: Label)
    requires InRange(s) && Enabled(c, s, l) && IsLogLabel(l)
    ensures LogStep(c, s, l).fault == Some(UpdateAssertion) <==>
            l.WriteBack? && s.threads[l.t].pc.newBuf == s.threads[l.t].ref.logBuf
  {
  }

  lemma UpdateFaultStep(c: Config, s: State, l: Label)
    requires InRange(s) && Enabled(c, s, l)
    ensures Next(c, s, l).fault == Some(UpdateAssertion) <==>
            l.WriteBack? && s.threads[l.t].pc.newBuf == s.threads[l.t].ref.logBuf
  {
    if IsLogLabel(l) { LogUpdateFault(c, s, l); }
  }

  // ---------------------------------------------------------------- back to the allocation

  lemma RefNotSwitching(c: Config, s: State, l: Label)
    requires InRange(s) && Enabled(c, s, l) && IsRefLabel(l)
    ensures !RefStep(c, s, l).threads[l.t].pc.Switching?
  {
  }

  /** Only allocBuffer brings a thread to the write-back; it hands out the next buffer. */
  lemma LogSwitching(c: Config, s: State, l: Label)
    requires InRange(s) && Enabled(c, s, l) && IsLogLabel(l)
    requires LogStep(c, s, l).threads[l.t].pc.Switching? && LogStep(c, s, l).fault.None?
    ensures l.Alloc? && LogStep(c, s, l).threads[l.t].pc.newBuf == NextBuffer(s.sh)
    ensures LogStep(c, s, l).threads[l.t].ref == s.threads[l.t].ref
  {
  }

  ghost predicate Arrived(s: State, s': State, l: Label, t: ThreadId) {
    && t < |s.threads| && t < |s'.threads| && s'.threads[t].pc.Switching?
    && s'.threads[t].ref == s.threads[t].ref
    && if ByThread(l, t) then l.Alloc? && s'.threads[t].pc.newBuf == NextBuffer(s.sh)
       else s'.threads[t] == s.threads[t]
  }

  lemma SwitchingStep(c: Config, s: State, l: Label, t: ThreadId)
    requires InRange(s) && Enabled(c, s, l) && Next(c, s, l).fault.None?
    requires t < |Next(c, s, l).threads| && Next(c, s, l).threads[t].pc.Switching?
    ensures Arrived(s, Next(c, s, l), l, t)
  {
    NewThread(c, s, l);
    if !ByThread(l, t) {
      OthersKeepPc(c, s, l, t);
    } else if IsRefLabel(l) {
      RefNotSwitching(c, s, l);
    } else {
      LogSwitching(c, s, l);
    }
  }

  lemma SwitchingAt(c: Config, ls: seq<Label>, k: nat, t: ThreadId)
    requires Legal(c, ls) && k < |ls| && At(c, ls, k + 1).fault.None?
    requires t < |At(c, ls, k + 1).threads| && At(c, ls, k + 1).threads[t].pc.Switching?
    ensures Arrived(At(c, ls, k), At(c, ls, k + 1), ls[k], t)
  {
    AtStep(c, ls, k);
    SwitchingStep(c, At(c, ls, k), ls[k], t);
  }

  lemma AtStart(c: Config, ls: seq<Label>)
    requires Legal(c, ls)
    ensures At(c, ls, 0) == INIT
  {
    assert ls[..0] == [];
  }

  ghost predicate FromAlloc(c: Config, ls: seq<Label>, i: nat, n: nat, t: ThreadId)
    requires Legal(c, ls) && n <= |ls|
  {
    && LatestAlloc(ls, i, n, t)
    && t < |At(c, ls, i).threads| && t < |At(c, ls, n).threads|
    && At(c, ls, n).threads[t].pc == Switching(NextBuffer(At(c, ls, i).sh))
    && At(c, ls, n).threads[t].ref == At(c, ls, i).threads[t].ref
  }

  lemma AllocHere(c: Config, ls: seq<Label>, k: nat, t: ThreadId)
    requires Legal(c, ls) && k < |ls| && ByThread(ls[k], t)
    requires Arrived(At(c, ls, k), At(c, ls, k + 1), ls[k], t)
    ensures FromAlloc(c, ls, k, k + 1, t)
  {
  }

  lemma AllocBefore(c: Config, ls: seq<Label>, i: nat, k: nat, t: ThreadId)
    requires Legal(c, ls) && k < |ls| && !ByThread(ls[k], t) && FromAlloc(c, ls, i, k, t)
    requires Arrived(At(c, ls, k), At(c, ls, k + 1), ls[k], t)
    ensures FromAlloc(c, ls, i, k + 1, t)
  {
  }

  ghost predicate SwitchingNow(c: Config, ls: seq<Label>, n: nat, t: ThreadId)
    requires Legal(c, ls) && n <= |ls|
  {
    At(c, ls, n).fault.None? && t < |At(c, ls, n).threads| && At(c, ls, n).threads[t].pc.Switching?
  }

  lemma NotAtStart(c: Config, ls: seq<Label>, t: ThreadId)
    requires Legal(c, ls)
    ensures !SwitchingNow(c, ls, 0, t)
  {
    AtStart(c, ls);
  }

  lemma BackOne(c: Config, ls: seq<Label>, k: nat, t: ThreadId)
    requires Legal(c, ls) && k < |ls| && SwitchingNow(c, ls, k + 1, t)
    ensures Arrived(At(c, ls, k), At(c, ls, k + 1), ls[k], t)
    ensures if ByThread(ls[k], t) then FromAlloc(c, ls, k, k + 1, t) else SwitchingNow(c, ls, k, t)
  {
    AtStep(c, ls, k);
    SwitchingAt(c, ls, k, t);
    if ByThread(ls[k], t) { AllocHere(c, ls, k, t); }
  }

  /** A thread about to write back got its new buffer from its latest allocBuffer. */
  lemma {:induction false} FindAlloc(c: Config, ls: seq<Label>, n: nat, t: ThreadId) returns (i: nat)
    requires Legal(c, ls) && n <= |ls| && SwitchingNow(c, ls, n, t)
    ensures FromAlloc(c, ls, i, n, t)
  {
    i := 0;
    NotAtStart(c, ls, t);
    if n > 0 {
      var k := n - 1;
      BackOne(c, ls, k, t);
      if ByThread(ls[k], t) {
        i := k;
      } else {
        i := FindAlloc(c, ls, k, t);
        AllocBefore(c, ls, i, k, t);
      }
    }
  }

  // ---------------------------------------------------------------- the theorems

  /** On any run, the assertion `curBuf != logBuf` is what stops it if and only if its last
      step is a write-back, and the latest allocBuffer of that thread was entered when the
      next buffer to hand out was the one the thread's Ref is on. */
  lemma UpdateFailsIff(c: Config, ls: seq<Label>)
    requires Legal(c, ls)
    ensures After(c, ls).fault == Some(UpdateAssertion) <==>
            && ls != [] && ls[|ls| - 1].WriteBack?
            && var n, t := |ls| - 1, ls[|ls| - 1].t;
               exists i :: LatestAlloc(ls, i, n, t) && NextIsOwn(At(c, ls, i), t)
  {
    if ls != [] {
      var n := |ls| - 1;
      AtStep(c, ls, n);
      assert ls[..|ls|] == ls;
      UpdateFaultStep(c, At(c, ls, n), ls[n]);
      if ls[n].WriteBack? { WriteBackFailsIff(c, ls, n); }
    }
  }

  lemma WriteBackFailsIff(c: Config, ls: seq<Label>, n: nat)
    requires Legal(c, ls) && n < |ls| && ls[n].WriteBack? && Enabled(c, At(c, ls, n), ls[n])
    ensures var th := At(c, ls, n).threads[ls[n].t];
            th.pc.newBuf == th.ref.logBuf <==>
            exists i :: LatestAlloc(ls, i, n, ls[n].t) && NextIsOwn(At(c, ls, i), ls[n].t)
  {
    var t := ls[n].t;
    var i := FindAlloc(c, ls, n, t);
    forall k: nat | LatestAlloc(ls, k, n, t) ensures k == i {
      assert ByThread(ls[i], t) && ByThread(ls[k], t);
    }
  }

  /** That needs a batch to have been dropped before: on a run that has dropped none, no
      thread that calls allocBuffer finds its own buffer next. */
  lemma OwnNextNeedsDrop(c: Config, ls: seq<Label>, i: nat)
    requires c.Valid() && Legal(c, ls) && i < |ls| && ls[i].Alloc? && NextIsOwn(At(c, ls, i), ls[i].t)
    ensures At(c, ls, i).dropped
  {
    LegalPrefix(c, ls, i);
    AtStep(c, ls, i);
    if !At(c, ls, i).dropped {
      OwnRun(c, ls[..i]);
      OwnNotNext(c, At(c, ls, i), ls[i].t);
    }
  }

  lemma OwnNotNext(c: Config, s: State, t: ThreadId)
    requires Own(c, s) && t < |s.threads| && s.threads[t].pc.Allocating?
    ensures !NextIsOwn(s, t)
  {
    assert ThreadOwn(c, s, t);
    if s.sh.freeBufs != [] { assert NextBuffer(s.sh) in s.sh.freeBufs; }
  }
}
