/** Trace preservation: what a thread's buffers and the workers hold, put together
    in epoch order, is every event the thread issued except exactly those whose
    pointer load returned NULL. */
module Trace {
  import opened Protocol
  import opened Bookkeeping
  import opened Ownership
  import opened Safety

  // ---------------------------------------------------------------- the specification: read off the labels

  /** The events of thread `t` along a run whose pointer load found a buffer. */
  ghost function KeptWords(c: Config, ls: seq<Label>, t: ThreadId): seq<Word>
    requires Legal(c, ls)
    decreases |ls|
  {
    if ls == [] then []
    else
      var before, l := ls[..|ls| - 1], ls[|ls| - 1];
      KeptWords(c, before, t) +
      if l.LoadPtr? && l.t == t && After(c, before).sh.cells[t].ptr.Some? then [l.word] else []
  }

  /** The event a thread has loaded its pointer for and not counted yet. */
  function Pending(pc: Pc): seq<Word> {
    match pc
    case Loaded(word, Some(_)) => [word]
    case Stored(word, Some(_)) => [word]
    case _ => []
  }

  // ---------------------------------------------------------------- the memory: buffers and workers

  /** The buffers taken in epoch `e`, in the order they were taken. */
  ghost function BatchOf(s: State, e: nat): seq<BufId> {
    if e < |s.workers| then s.workers[e].batch else s.sh.allocatedBufs
  }

  ghost function OwnersOf(s: State, e: nat): seq<ThreadId>
    requires InRange(s)
  {
    if e < |s.workers| then s.workers[e].owners else Owners(s.sh, s.sh.allocatedBufs)
  }

  ghost function SeenOf(s: State, e: nat): seq<seq<Word>> {
    if e < |s.workers| then s.workers[e].seen else []
  }

  /** The count of a buffer: its owner's Ref holds it while there is one. */
  function CountOf(s: State, b: BufId): nat
    requires InRange(s) && b < |s.sh.bufs|
  {
    var th := s.threads[s.sh.bufs[b].threadId];
    if HoldsRef(th.pc) && th.ref.logBuf == b then th.ref.events else s.sh.bufs[b].events
  }

  ghost function IndexOf(owners: seq<ThreadId>, t: ThreadId): (i: nat)
    requires t in owners
    ensures i < |owners| && owners[i] == t
  {
    var i :| 0 <= i < |owners| && owners[i] == t; i
  }

  /** What there is of thread `t`'s events of epoch `e`: what the worker has read, or
      what the buffer holds below its count. */
  ghost function Recorded(s: State, t: ThreadId, e: nat): seq<Word>
    requires InRange(s)
  {
    if t in OwnersOf(s, e) then
      var i := IndexOf(OwnersOf(s, e), t);
      if i < |SeenOf(s, e)| then SeenOf(s, e)[i]
      else
        var b := BatchOf(s, e)[i];
        if CountOf(s, b) <= |s.sh.bufs[b].slots| then s.sh.bufs[b].slots[..CountOf(s, b)] else []
    else []
  }

  /** The records of the epochs before `n`, in order. */
  ghost function JoinRecorded(s: State, t: ThreadId, n: nat): seq<Word>
    requires InRange(s)
  {
    if n == 0 then [] else JoinRecorded(s, t, n - 1) + Recorded(s, t, n - 1)
  }

  // ---------------------------------------------------------------- the history in between

  function Kept(issued: seq<Issue>): seq<Word> {
    if issued == [] then []
    else Kept(issued[..|issued| - 1]) +
         if issued[|issued| - 1].counted then [issued[|issued| - 1].word] else []
  }

  function Joined(logs: map<nat, seq<Word>>, n: nat): seq<Word> {
    if n == 0 then [] else Joined(logs, n - 1) + if n - 1 in logs then logs[n - 1] else []
  }

  lemma {:induction false} JoinedAgree(logs: map<nat, seq<Word>>, logs': map<nat, seq<Word>>, n: nat)
    requires forall e | 0 <= e < n :: (e in logs <==> e in logs') && (e in logs ==> logs[e] == logs'[e])
    ensures Joined(logs, n) == Joined(logs', n)
  {
    if n > 0 { JoinedAgree(logs, logs', n - 1); }
  }

  lemma {:induction false} JoinedSkip(logs: map<nat, seq<Word>>, m: nat, n: nat)
    requires m <= n && forall e | m <= e < n :: e !in logs
    ensures Joined(logs, n) == Joined(logs, m)
  {
    if m < n { JoinedSkip(logs, m, n - 1); }
  }

  ghost predicate HistoryOk(th: Thread) {
    Kept(th.issued) == Joined(th.logs, th.lastEpoch + 1)
  }

  lemma KeptAppend(issued: seq<Issue>, x: Issue)
    ensures Kept(issued + [x]) == Kept(issued) + if x.counted then [x.word] else []
  {
    assert (issued + [x])[..|issued|] == issued;
  }

  lemma CountHistory(c: Config, th: Thread)
    requires th.pc.Stored? && HistoryOk(th) && th.lastEpoch in th.logs
    ensures HistoryOk(CountEvent(c, th))
  {
    var th' := CountEvent(c, th);
    KeptAppend(th.issued, th'.issued[|th.issued|]);
    JoinedAgree(th.logs, th'.logs, th.lastEpoch);
  }

  lemma AllocHistory(th: Thread, e: nat)
    requires HistoryOk(th) && (th.logs == map[] || th.lastEpoch < e)
    requires forall x | x in th.logs :: x <= th.lastEpoch
    ensures Joined(th.logs[e := []], e + 1) == Kept(th.issued)
  {
    JoinedAgree(th.logs, th.logs[e := []], e);
    if th.logs == map[] {
      JoinedSkip(th.logs, 0, e);
      JoinedSkip(th.logs, 0, th.lastEpoch + 1);
    } else {
      JoinedSkip(th.logs, th.lastEpoch + 1, e);
    }
  }

  /** Every other step leaves the history of every thread alone. */
  lemma OtherHistory(c: Config, s: State, l: Label, t: ThreadId)
    requires InRange(s) && Enabled(c, s, l) && t < |s.threads|
    requires !IsHistoryLabel(l) || l.t != t
    ensures var th, th' := s.threads[t], Next(c, s, l).threads[t];
            th'.issued == th.issued && th'.logs == th.logs && th'.lastEpoch == th.lastEpoch
  {
    if l.Spawn? || IsWorkerLabel(l) || l.t != t {
      OthersKeepPc(c, s, l, t);
    } else if IsRefLabel(l) {
      RefHistory(c, s, l);
    } else {
      LogHistory(c, s, l);
    }
  }

  predicate IsHistoryLabel(l: Label) {
    l.Count? || l.Alloc? || l.AllocForRef?
  }

  lemma RefHistory(c: Config, s: State, l: Label)
    requires InRange(s) && Enabled(c, s, l) && IsRefLabel(l) && !IsHistoryLabel(l)
    ensures var th, th' := s.threads[l.t], RefStep(c, s, l).threads[l.t];
            th'.issued == th.issued && th'.logs == th.logs && th'.lastEpoch == th.lastEpoch
  {
  }

  lemma LogHistory(c: Config, s: State, l: Label)
    requires InRange(s) && Enabled(c, s, l) && IsLogLabel(l) && !IsHistoryLabel(l)
    ensures var th, th' := s.threads[l.t], LogStep(c, s, l).threads[l.t];
            th'.issued == th.issued && th'.logs == th.logs && th'.lastEpoch == th.lastEpoch
  {
  }

  lemma CountKeepsHistory(c: Config, s: State, l: Label)
    requires InRange(s) && Enabled(c, s, l) && l.Count?
    requires PointerOk(s, l.t) && LogsOk(s, l.t) && HistoryOk(s.threads[l.t])
    ensures HistoryOk(LogStep(c, s, l).threads[l.t])
  {
    CountHistory(c, s.threads[l.t]);
  }

  lemma CallAllocHistory(c: Config, s: State, t: ThreadId, mem: seq<Word>, pc: Pc)
    requires InRange(s) && t < |s.threads| && MayAlloc(s, t, pc) && LogsOk(s, t) && HistoryOk(s.threads[t])
    requires s.sh.cells[t].ptr.None? ==> s.threads[t].logs == map[] || s.threads[t].lastEpoch < s.sh.epoch
    ensures HistoryOk(CallAlloc(c, s, t, mem, pc).threads[t])
  {
    if s.sh.cells[t].ptr.None? { AllocHistory(s.threads[t], s.sh.epoch); }
  }

  lemma OwnHistory(c: Config, s: State, l: Label)
    requires InRange(s) && Enabled(c, s, l) && IsHistoryLabel(l) && PointerOk(s, l.t) && LogsOk(s, l.t)
    requires HistoryOk(s.threads[l.t])
    ensures HistoryOk(Next(c, s, l).threads[l.t])
  {
    match l
    case Count(_) => CountKeepsHistory(c, s, l);
    case Alloc(t, mem) => CallAllocHistory(c, s, t, mem, Switching(NextBuffer(s.sh)));
    case AllocForRef(t, mem) => CallAllocHistory(c, s, t, mem, Acquired(Some(NextBuffer(s.sh))));
  }

  /** Threads appear by Spawn alone, idle and with nothing issued, and never disappear. */
  lemma NewThread(c: Config, s: State, l: Label)
    requires InRange(s) && Enabled(c, s, l)
    ensures var s' := Next(c, s, l);
            && |s.threads| <= |s'.threads|
            && (forall t | |s.threads| <= t < |s'.threads| ::
                  l.Spawn? && s'.threads[t] == Thread(Idle, Ref(0, 0, 0), map[], 0, []))
  {
  }

  lemma HistoryStep(c: Config, s: State, l: Label, t: ThreadId)
    requires Basic(c, s) && Enabled(c, s, l) && t < |s.threads| && HistoryOk(s.threads[t])
    ensures t < |Next(c, s, l).threads| && HistoryOk(Next(c, s, l).threads[t])
  {
    NewThread(c, s, l);
    if !IsHistoryLabel(l) || l.t != t {
      OtherHistory(c, s, l, t);
    } else {
      assert PointerOk(s, t) && LogsOk(s, t);
      OwnHistory(c, s, l);
    }
  }

  lemma {:induction false} HistoryRun(c: Config, ls: seq<Label>, t: ThreadId)
    requires Legal(c, ls) && t < |After(c, ls).threads|
    ensures HistoryOk(After(c, ls).threads[t])
  {
    if ls != [] {
      var before := ls[..|ls| - 1];
      BasicRun(c, before);
      NewThread(c, After(c, before), ls[|ls| - 1]);
      if t < |After(c, before).threads| {
        HistoryRun(c, before, t);
        HistoryStep(c, After(c, before), ls[|ls| - 1], t);
      }
    }
  }

  // ---------------------------------------------------------------- the history is the labels' specification

  ghost predicate LabelsOk(th: Thread, kept: seq<Word>) {
    kept == Kept(th.issued) + Pending(th.pc)
  }

  /** What the load of a pointer adds. */
  ghost function LoadedNow(s: State, l: Label, t: ThreadId): seq<Word>
    requires |s.sh.cells| == |s.threads| && t < |s.threads|
  {
    if l.LoadPtr? && l.t == t && s.sh.cells[t].ptr.Some? then [l.word] else []
  }

  lemma RefOthers(c: Config, s: State, l: Label, t: ThreadId)
    requires InRange(s) && Enabled(c, s, l) && IsRefLabel(l) && t < |s.threads| && l.t != t
    ensures t < |RefStep(c, s, l).threads| && RefStep(c, s, l).threads[t] == s.threads[t]
  {
  }

  lemma LogOthers(c: Config, s: State, l: Label, t: ThreadId)
    requires InRange(s) && Enabled(c, s, l) && IsLogLabel(l) && t < |s.threads| && l.t != t
    ensures t < |LogStep(c, s, l).threads| && LogStep(c, s, l).threads[t] == s.threads[t]
  {
  }

  lemma OthersKeepPc(c: Config, s: State, l: Label, t: ThreadId)
    requires InRange(s) && Enabled(c, s, l) && t < |s.threads| && (l.Spawn? || IsWorkerLabel(l) || l.t != t)
    ensures t < |Next(c, s, l).threads| && Next(c, s, l).threads[t] == s.threads[t]
  {
    if !l.Spawn? && !IsWorkerLabel(l) {
      if IsRefLabel(l) { RefOthers(c, s, l, t); } else { LogOthers(c, s, l, t); }
    }
  }

  lemma RefPending(c: Config, s: State, l: Label)
    requires InRange(s) && Enabled(c, s, l) && IsRefLabel(l)
    ensures var th, th' := s.threads[l.t], RefStep(c, s, l).threads[l.t];
            th'.issued == th.issued && Pending(th'.pc) == Pending(th.pc)
  {
  }

  /** The steps of the slow path. */
  predicate IsSlowLabel(l: Label) {
    l.TryInc? || l.Alloc? || l.WriteBack? || l.Close? || l.Adopt?
  }

  lemma SlowPending(c: Config, s: State, l: Label)
    requires InRange(s) && Enabled(c, s, l) && IsSlowLabel(l)
    ensures var th, th' := s.threads[l.t], LogStep(c, s, l).threads[l.t];
            th'.issued == th.issued && Pending(th'.pc) == Pending(th.pc)
  {
  }

  lemma LogPending(c: Config, s: State, l: Label)
    requires InRange(s) && Enabled(c, s, l) && (l.LoadPtr? || l.Store?)
    ensures var th, th' := s.threads[l.t], LogStep(c, s, l).threads[l.t];
            th'.issued == th.issued && Pending(th'.pc) == Pending(th.pc) + LoadedNow(s, l, l.t)
  {
  }

  lemma CountLabels(c: Config, th: Thread, kept: seq<Word>)
    requires th.pc.Stored? && LabelsOk(th, kept)
    ensures LabelsOk(CountEvent(c, th), kept)
  {
    KeptAppend(th.issued, CountEvent(c, th).issued[|th.issued|]);
  }

  lemma CountPending(c: Config, s: State, l: Label, kept: seq<Word>)
    requires InRange(s) && Enabled(c, s, l) && l.Count? && LabelsOk(s.threads[l.t], kept)
    ensures LabelsOk(LogStep(c, s, l).threads[l.t], kept)
  {
    CountLabels(c, s.threads[l.t], kept);
  }

  lemma MorePending(th: Thread, th': Thread, kept: seq<Word>, more: seq<Word>)
    requires LabelsOk(th, kept) && th'.issued == th.issued && Pending(th'.pc) == Pending(th.pc) + more
    ensures LabelsOk(th', kept + more)
  {
  }

  lemma RefLabels(c: Config, s: State, l: Label, kept: seq<Word>)
    requires InRange(s) && Enabled(c, s, l) && IsRefLabel(l) && LabelsOk(s.threads[l.t], kept)
    ensures LabelsOk(RefStep(c, s, l).threads[l.t], kept)
  {
    RefPending(c, s, l);
  }

  lemma LogLabels(c: Config, s: State, l: Label, kept: seq<Word>)
    requires InRange(s) && Enabled(c, s, l) && IsLogLabel(l) && LabelsOk(s.threads[l.t], kept)
    ensures LabelsOk(LogStep(c, s, l).threads[l.t], kept + LoadedNow(s, l, l.t))
  {
    if l.Count? {
      CountPending(c, s, l, kept);
    } else if IsSlowLabel(l) {
      SlowPending(c, s, l);
    } else {
      LogPending(c, s, l);
      MorePending(s.threads[l.t], LogStep(c, s, l).threads[l.t], kept, LoadedNow(s, l, l.t));
    }
  }

  lemma OthersLabels(c: Config, s: State, l: Label, t: ThreadId, kept: seq<Word>)
    requires InRange(s) && Enabled(c, s, l) && t < |s.threads| && (l.Spawn? || IsWorkerLabel(l) || l.t != t)
    requires LabelsOk(s.threads[t], kept)
    ensures t < |Next(c, s, l).threads| && LabelsOk(Next(c, s, l).threads[t], kept + LoadedNow(s, l, t))
  {
    OthersKeepPc(c, s, l, t);
    assert kept + [] == kept;
  }

  lemma LabelStep(c: Config, s: State, l: Label, t: ThreadId, kept: seq<Word>)
    requires InRange(s) && Enabled(c, s, l) && t < |s.threads| && LabelsOk(s.threads[t], kept)
    ensures t < |Next(c, s, l).threads| && LabelsOk(Next(c, s, l).threads[t], kept + LoadedNow(s, l, t))
  {
    if l.Spawn? || IsWorkerLabel(l) || l.t != t {
      OthersLabels(c, s, l, t, kept);
    } else if IsRefLabel(l) {
      RefLabels(c, s, l, kept);
    } else {
      LogLabels(c, s, l, kept);
    }
  }

  lemma {:induction false} LabelsRun(c: Config, ls: seq<Label>, t: ThreadId)
    requires Legal(c, ls) && t < |After(c, ls).threads|
    ensures LabelsOk(After(c, ls).threads[t], KeptWords(c, ls, t))
  {
    if ls != [] {
      var before, l := ls[..|ls| - 1], ls[|ls| - 1];
      var s := After(c, before);
      NewThread(c, s, l);
      if t < |s.threads| {
        LabelsRun(c, before, t);
        LabelStep(c, s, l, t, KeptWords(c, before, t));
      } else {
        NotYet(c, before, t);
      }
    }
  }

  lemma {:induction false} NotYet(c: Config, ls: seq<Label>, t: ThreadId)
    requires Legal(c, ls) && t >= |After(c, ls).threads|
    ensures KeptWords(c, ls, t) == []
  {
    if ls != [] {
      NewThread(c, After(c, ls[..|ls| - 1]), ls[|ls| - 1]);
      NotYet(c, ls[..|ls| - 1], t);
    }
  }

  // ---------------------------------------------------------------- the memory holds the history

  lemma RecordedIsLog(c: Config, s: State, t: ThreadId, e: nat)
    requires Basic(c, s) && Own(c, s) && t < |s.threads| && e <= s.sh.epoch
    ensures Recorded(s, t, e) == LogOf(s.threads[t], e)
  {
    if e < |s.workers| { PastEpochRecorded(c, s, t, e); } else { CurrentEpochRecorded(c, s, t); }
  }

  lemma PastEpochRecorded(c: Config, s: State, t: ThreadId, e: nat)
    requires Basic(c, s) && Own(c, s) && t < |s.threads| && e < |s.workers|
    ensures Recorded(s, t, e) == LogOf(s.threads[t], e)
  {
    var wk := s.workers[e];
    assert WorkerOk(s, e) && WorkerOwn(s, e);
    if t in wk.owners {
      var i := IndexOf(wk.owners, t);
      if i >= |wk.seen| {
        assert wk.batch[i] in wk.batch;
        BufferHoldsLog(c, s, wk.batch[i]);
      }
    }
  }

  lemma CurrentEpochRecorded(c: Config, s: State, t: ThreadId)
    requires Basic(c, s) && Own(c, s) && t < |s.threads|
    ensures Recorded(s, t, s.sh.epoch) == LogOf(s.threads[t], s.sh.epoch)
  {
    var owners := Owners(s.sh, s.sh.allocatedBufs);
    CurrentParticipants(c, s, t);
    if t in owners {
      var i := IndexOf(owners, t);
      assert s.sh.allocatedBufs[i] in s.sh.allocatedBufs;
      BufferHoldsLog(c, s, s.sh.allocatedBufs[i]);
    }
  }

  /** Any buffer that is not free holds its owner's log of its epoch, below its count. */
  lemma BufferHoldsLog(c: Config, s: State, b: BufId)
    requires Basic(c, s) && Own(c, s) && b < |s.sh.bufs| && b !in s.sh.freeBufs
    ensures var buf := s.sh.bufs[b];
            var words := LogOf(s.threads[buf.threadId], buf.epoch);
            CountOf(s, b) == |words| <= |buf.slots| && buf.slots[..CountOf(s, b)] == words
  {
    assert BufferOwn(c, s, b) && ThreadOwn(c, s, s.sh.bufs[b].threadId);
  }

  lemma {:induction false} JoinIsJoined(c: Config, s: State, t: ThreadId, n: nat)
    requires Basic(c, s) && Own(c, s) && t < |s.threads| && n <= s.sh.epoch + 1
    ensures JoinRecorded(s, t, n) == Joined(s.threads[t].logs, n)
  {
    if n > 0 {
      JoinIsJoined(c, s, t, n - 1);
      RecordedIsLog(c, s, t, n - 1);
    }
  }

  // ---------------------------------------------------------------- the theorems

  /** On every drop-free run and for every thread: the records of its epochs, joined
      in order, are the events whose pointer load found a buffer; all of them but one
      that is still being logged.  Epoch changes, full buffers, recycling, and dropping
      and rebuilding the Ref lose nothing. */
  lemma TracePreserved(c: Config, ls: seq<Label>, t: ThreadId)
    requires c.Valid() && Legal(c, ls) && DropFree(c, ls) && t < |After(c, ls).threads|
    ensures var s := After(c, ls);
            KeptWords(c, ls, t) == JoinRecorded(s, t, s.sh.epoch + 1) + Pending(s.threads[t].pc)
  {
    var s := After(c, ls);
    BasicRun(c, ls);
    OwnRun(c, ls);
    HistoryRun(c, ls, t);
    LabelsRun(c, ls, t);
    JoinIsJoined(c, s, t, s.sh.epoch + 1);
    assert LogsOk(s, t);
    JoinedTop(s.threads[t].logs, s.threads[t].lastEpoch, s.sh.epoch);
  }

  lemma JoinedTop(logs: map<nat, seq<Word>>, last: nat, epoch: nat)
    requires forall e | e in logs :: e <= last
    requires logs != map[] ==> last <= epoch
    ensures Joined(logs, epoch + 1) == Joined(logs, last + 1)
  {
    if logs == map[] {
      JoinedSkip(logs, 0, epoch + 1);
      JoinedSkip(logs, 0, last + 1);
    } else {
      JoinedSkip(logs, last + 1, epoch + 1);
    }
  }
}
