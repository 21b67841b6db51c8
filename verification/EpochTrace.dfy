/** Epoch by epoch: what a worker has read is what the labels of the run say its owners
    logged in that epoch, and it is final. */
module EpochTrace {
  import opened Protocol
  import opened Bookkeeping
  import opened Ownership
  import opened Safety
  import opened Trace
  import opened Progress

  // ---------------------------------------------------------------- read off the labels

  /** The events of thread `t` whose pointer load found a buffer during epoch `e`. */
  ghost function EpochWords(c: Config, ls: seq<Label>, t: ThreadId, e: nat): seq<Word>
    requires Legal(c, ls)
    decreases |ls|
  {
    if ls == [] then []
    else
      var before, l := ls[..|ls| - 1], ls[|ls| - 1];
      var s := After(c, before);
      EpochWords(c, before, t, e) +
      if l.LoadPtr? && l.t == t && s.sh.cells[t].ptr.Some? && s.sh.epoch == e then [l.word] else []
  }

  /** The event in hand, if it is one of epoch `e`. */
  function PendingOf(th: Thread, e: nat): seq<Word> {
    if th.lastEpoch == e then Pending(th.pc) else []
  }

  ghost predicate EpochOk(th: Thread, e: nat, words: seq<Word>) {
    words == LogOf(th, e) + PendingOf(th, e)
  }

  ghost function LoadedIn(s: State, l: Label, t: ThreadId, e: nat): seq<Word>
    requires |s.sh.cells| == |s.threads| && t < |s.threads|
  {
    if s.sh.epoch == e then LoadedNow(s, l, t) else []
  }

  // ---------------------------------------------------------------- one step

  /** A new assignment starts the log of an epoch the thread had no part in. */
  lemma AllocEpoch(c: Config, s: State, t: ThreadId, mem: seq<Word>, pc: Pc, e: nat, words: seq<Word>)
    requires InRange(s) && t < |s.threads| && MayAlloc(s, t, pc) && LogsOk(s, t)
    requires s.sh.cells[t].ptr.None? && EpochOk(s.threads[t], e, words)
    ensures EpochOk(CallAlloc(c, s, t, mem, pc).threads[t], e, words)
  {
  }

  lemma RefEpoch(c: Config, s: State, l: Label, e: nat, words: seq<Word>)
    requires InRange(s) && Enabled(c, s, l) && IsRefLabel(l) && !l.AllocForRef? && EpochOk(s.threads[l.t], e, words)
    ensures EpochOk(RefStep(c, s, l).threads[l.t], e, words)
  {
    RefPending(c, s, l);
    RefHistory(c, s, l);
  }

  lemma SlowEpoch(c: Config, s: State, l: Label, e: nat, words: seq<Word>)
    requires InRange(s) && Enabled(c, s, l) && IsSlowLabel(l) && !l.Alloc? && EpochOk(s.threads[l.t], e, words)
    ensures EpochOk(LogStep(c, s, l).threads[l.t], e, words)
  {
    SlowPending(c, s, l);
    LogHistory(c, s, l);
  }

  lemma LoadEpoch(c: Config, s: State, l: Label, e: nat, words: seq<Word>)
    requires InRange(s) && Enabled(c, s, l) && l.LoadPtr? && EpochOk(s.threads[l.t], e, words)
    requires s.sh.cells[l.t].ptr.Some? ==> s.threads[l.t].lastEpoch == s.sh.epoch
    ensures EpochOk(LogStep(c, s, l).threads[l.t], e, words + LoadedIn(s, l, l.t, e))
  {
    LogPending(c, s, l);
    LogHistory(c, s, l);
    assert Pending(s.threads[l.t].pc) == [];
  }

  lemma StoreEpoch(c: Config, s: State, l: Label, e: nat, words: seq<Word>)
    requires InRange(s) && Enabled(c, s, l) && l.Store? && EpochOk(s.threads[l.t], e, words)
    ensures EpochOk(LogStep(c, s, l).threads[l.t], e, words)
  {
    LogPending(c, s, l);
    LogHistory(c, s, l);
  }

  lemma CountEpoch(c: Config, th: Thread, e: nat, words: seq<Word>)
    requires th.pc.Stored? && EpochOk(th, e, words)
    ensures EpochOk(CountEvent(c, th), e, words)
  {
  }

  lemma LogEpoch(c: Config, s: State, l: Label, e: nat, words: seq<Word>)
    requires InRange(s) && Enabled(c, s, l) && IsLogLabel(l) && LogsOk(s, l.t) && EpochOk(s.threads[l.t], e, words)
    requires s.sh.cells[l.t].ptr.Some? ==> s.threads[l.t].lastEpoch == s.sh.epoch
    requires l.Alloc? ==> s.sh.cells[l.t].ptr.None?
    ensures EpochOk(LogStep(c, s, l).threads[l.t], e, words + LoadedIn(s, l, l.t, e))
  {
    assert words + [] == words;
    match l
    case Count(t) => CountEpoch(c, s.threads[t], e, words);
    case Alloc(t, mem) => AllocEpoch(c, s, t, mem, Switching(NextBuffer(s.sh)), e, words);
    case LoadPtr(_, _) => LoadEpoch(c, s, l, e, words);
    case Store(_) => StoreEpoch(c, s, l, e, words);
    case _ => SlowEpoch(c, s, l, e, words);
  }

  lemma RefsEpoch(c: Config, s: State, l: Label, e: nat, words: seq<Word>)
    requires InRange(s) && Enabled(c, s, l) && IsRefLabel(l) && LogsOk(s, l.t) && EpochOk(s.threads[l.t], e, words)
    requires l.AllocForRef? ==> s.sh.cells[l.t].ptr.None?
    ensures EpochOk(RefStep(c, s, l).threads[l.t], e, words + LoadedIn(s, l, l.t, e))
  {
    assert words + [] == words;
    if l.AllocForRef? {
      AllocEpoch(c, s, l.t, l.mem, Acquired(Some(NextBuffer(s.sh))), e, words);
    } else {
      RefEpoch(c, s, l, e, words);
    }
  }

  lemma OthersEpoch(c: Config, s: State, l: Label, t: ThreadId, e: nat, words: seq<Word>)
    requires InRange(s) && Enabled(c, s, l) && t < |s.threads| && (l.Spawn? || IsWorkerLabel(l) || l.t != t)
    requires EpochOk(s.threads[t], e, words)
    ensures t < |Next(c, s, l).threads| && EpochOk(Next(c, s, l).threads[t], e, words + LoadedIn(s, l, t, e))
  {
    OthersKeepPc(c, s, l, t);
    assert words + [] == words;
  }

  /** What a step of a thread needs to know of it. */
  ghost predicate Placed(s: State, l: Label)
    requires |s.sh.cells| == |s.threads| && IsThreadLabel(l) && l.t < |s.threads|
  {
    && LogsOk(s, l.t)
    && (s.sh.cells[l.t].ptr.Some? ==> s.threads[l.t].lastEpoch == s.sh.epoch)
    && (l.Alloc? || l.AllocForRef? ==> s.sh.cells[l.t].ptr.None?)
  }

  lemma IsPlaced(c: Config, s: State, l: Label)
    requires Basic(c, s) && Own(c, s) && Enabled(c, s, l) && IsThreadLabel(l)
    ensures Placed(s, l)
  {
    assert PointerOk(s, l.t) && LogsOk(s, l.t) && ThreadOwn(c, s, l.t);
  }

  lemma EpochWordsStep(c: Config, s: State, l: Label, t: ThreadId, e: nat, words: seq<Word>)
    requires InRange(s) && Enabled(c, s, l) && (IsThreadLabel(l) ==> Placed(s, l))
    requires t < |s.threads| && EpochOk(s.threads[t], e, words)
    ensures t < |Next(c, s, l).threads| && EpochOk(Next(c, s, l).threads[t], e, words + LoadedIn(s, l, t, e))
  {
    if l.Spawn? || IsWorkerLabel(l) || l.t != t {
      OthersEpoch(c, s, l, t, e, words);
    } else if IsRefLabel(l) {
      RefsEpoch(c, s, l, e, words);
      assert Next(c, s, l) == RefStep(c, s, l);
    } else {
      LogEpoch(c, s, l, e, words);
      assert Next(c, s, l) == LogStep(c, s, l);
    }
  }

  // ---------------------------------------------------------------- whole runs

  lemma {:induction false} NotYetEpoch(c: Config, ls: seq<Label>, t: ThreadId, e: nat)
    requires Legal(c, ls) && t >= |After(c, ls).threads|
    ensures EpochWords(c, ls, t, e) == []
  {
    if ls != [] {
      NewThread(c, After(c, ls[..|ls| - 1]), ls[|ls| - 1]);
      NotYetEpoch(c, ls[..|ls| - 1], t, e);
    }
  }

  lemma DropFreeBefore(c: Config, ls: seq<Label>)
    requires Legal(c, ls) && DropFree(c, ls) && ls != []
    ensures DropFree(c, ls[..|ls| - 1])
  {
    var s := After(c, ls[..|ls| - 1]);
    if s.dropped { DropsStay(c, s, ls[|ls| - 1]); }
  }

  lemma EpochWordsOne(c: Config, ls: seq<Label>, t: ThreadId, e: nat)
    requires c.Valid() && Legal(c, ls) && ls != [] && DropFree(c, ls[..|ls| - 1])
    requires t < |After(c, ls[..|ls| - 1]).threads|
    requires EpochOk(After(c, ls[..|ls| - 1]).threads[t], e, EpochWords(c, ls[..|ls| - 1], t, e))
    ensures t < |After(c, ls).threads| && EpochOk(After(c, ls).threads[t], e, EpochWords(c, ls, t, e))
  {
    var before, l := ls[..|ls| - 1], ls[|ls| - 1];
    BasicRun(c, before);
    OwnRun(c, before);
    if IsThreadLabel(l) { IsPlaced(c, After(c, before), l); }
    EpochWordsStep(c, After(c, before), l, t, e, EpochWords(c, before, t, e));
  }

  /** A new thread has neither a log nor an event in hand. */
  lemma FirstEpochWords(c: Config, ls: seq<Label>, t: ThreadId, e: nat)
    requires Legal(c, ls) && ls != [] && t < |After(c, ls).threads| && t >= |After(c, ls[..|ls| - 1]).threads|
    ensures EpochOk(After(c, ls).threads[t], e, EpochWords(c, ls, t, e))
  {
    NewThread(c, After(c, ls[..|ls| - 1]), ls[|ls| - 1]);
    NotYetEpoch(c, ls[..|ls| - 1], t, e);
  }

  /** Every thread's log of every epoch, with the event in hand, is what the labels say. */
  lemma {:induction false} EpochWordsRun(c: Config, ls: seq<Label>, t: ThreadId, e: nat)
    requires c.Valid() && Legal(c, ls) && DropFree(c, ls) && t < |After(c, ls).threads|
    ensures EpochOk(After(c, ls).threads[t], e, EpochWords(c, ls, t, e))
  {
    if ls != [] {
      DropFreeBefore(c, ls);
      if t < |After(c, ls[..|ls| - 1]).threads| {
        EpochWordsRun(c, ls[..|ls| - 1], t, e);
        EpochWordsOne(c, ls, t, e);
      } else {
        FirstEpochWords(c, ls, t, e);
      }
    }
  }

  /** The record of each epoch, whether a worker has it or the buffer, is what the labels
      say the thread logged in that epoch, up to the event in hand. */
  lemma EpochPreserved(c: Config, ls: seq<Label>, t: ThreadId, e: nat)
    requires c.Valid() && Legal(c, ls) && DropFree(c, ls)
    requires t < |After(c, ls).threads| && e <= After(c, ls).sh.epoch
    ensures var s := After(c, ls);
            EpochWords(c, ls, t, e) == Recorded(s, t, e) + PendingOf(s.threads[t], e)
  {
    BasicRun(c, ls);
    OwnRun(c, ls);
    EpochWordsRun(c, ls, t, e);
    RecordedIsLog(c, After(c, ls), t, e);
  }

  /** A worker started at the end of epoch w; whatever it has read of a buffer is all that
      the owner loaded a non-NULL pointer for in that epoch.  When it is finished it has
      read the buffer of every thread that did, and its sum is the number of those words. */
  lemma WorkerSawEverything(c: Config, ls: seq<Label>, w: nat)
    requires c.Valid() && Legal(c, ls) && DropFree(c, ls) && w < |After(c, ls).workers|
    ensures var s := After(c, ls);
            var wk := s.workers[w];
            && |wk.seen| <= |wk.owners| && NoDup(wk.owners)
            && (forall i | 0 <= i < |wk.seen| :: wk.seen[i] == EpochWords(c, ls, wk.owners[i], w))
            && (forall t | 0 <= t < |s.threads| && EpochWords(c, ls, t, w) != [] :: t in wk.owners)
            && (wk.pc.Finished? ==> |wk.seen| == |wk.owners| && wk.pc.sum == SumLengths(wk.seen))
  {
    var s := After(c, ls);
    var wk := s.workers[w];
    BasicRun(c, ls);
    OwnRun(c, ls);
    assert WorkerOk(s, w) && WorkerOwn(s, w);
    forall i | 0 <= i < |wk.seen| ensures wk.seen[i] == EpochWords(c, ls, wk.owners[i], w) {
      EpochWordsRun(c, ls, wk.owners[i], w);
      assert Sealed(s, wk.owners[i], w);
    }
    forall t | 0 <= t < |s.threads| && EpochWords(c, ls, t, w) != [] ensures t in wk.owners {
      EpochWordsRun(c, ls, t, w);
      assert PointerOk(s, t) && LogsOk(s, t);
    }
  }

  // ---------------------------------------------------------------- what was read is final

  ghost predicate SeenGrows(wk: Worker, wk': Worker) {
    wk'.owners == wk.owners && wk.seen <= wk'.seen
  }

  lemma SeenStep(c: Config, s: State, l: Label, w: nat)
    requires InRange(s) && Enabled(c, s, l) && w < |s.workers|
    ensures w < |Next(c, s, l).workers| && SeenGrows(s.workers[w], Next(c, s, l).workers[w])
  {
    if IsLogLabel(l) { LogBatchStays(c, s, l, w); }
  }

  lemma {:induction false} SeenRun(c: Config, ls: seq<Label>, i: nat, j: nat, w: nat)
    requires Legal(c, ls) && i <= j <= |ls| && w < |At(c, ls, i).workers|
    ensures w < |At(c, ls, j).workers| && SeenGrows(At(c, ls, i).workers[w], At(c, ls, j).workers[w])
    decreases j - i
  {
    if i < j {
      AtStep(c, ls, i);
      SeenStep(c, At(c, ls, i), ls[i], w);
      SeenRun(c, ls, i + 1, j, w);
    }
  }

  lemma AtDropFree(c: Config, ls: seq<Label>, i: nat)
    requires c.Valid() && Legal(c, ls) && DropFree(c, ls) && i <= |ls|
    ensures Legal(c, ls[..i]) && DropFree(c, ls[..i]) && After(c, ls[..i]) == At(c, ls, i)
  {
    LegalPrefix(c, ls, i);
    AtOwn(c, ls, i);
  }

  /** What a worker has read of a thread's epoch is final: it stays, and however the run
      goes on the thread never adds to that epoch again. */
  lemma ReadIsFinal(c: Config, ls: seq<Label>, i: nat, w: nat, k: nat)
    requires c.Valid() && Legal(c, ls) && DropFree(c, ls) && i <= |ls|
    requires w < |At(c, ls, i).workers| && k < |At(c, ls, i).workers[w].seen|
    requires k < |At(c, ls, i).workers[w].owners|
    ensures Legal(c, ls[..i]) && w < |After(c, ls).workers| && k < |After(c, ls).workers[w].seen|
    ensures var wk := At(c, ls, i).workers[w];
            && After(c, ls).workers[w].owners == wk.owners
            && After(c, ls).workers[w].seen[k] == wk.seen[k]
            && EpochWords(c, ls, wk.owners[k], w) == EpochWords(c, ls[..i], wk.owners[k], w) == wk.seen[k]
  {
    AtDropFree(c, ls, i);
    assert ls[..|ls|] == ls;
    SeenRun(c, ls, i, |ls|, w);
    WorkerSawEverything(c, ls[..i], w);
    WorkerSawEverything(c, ls, w);
  }
}
