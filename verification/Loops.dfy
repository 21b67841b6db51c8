/** A whole use of a Ref: getLogBufferRef, the calls, and ~Ref.  The steps of the protocol do
    the same, and two uses one after the other continue each other. */
module Loops {
  import opened Multiples
  import opened Protocol
  import opened Bookkeeping
  import opened Ownership
  import opened Calls

  // ---------------------------------------------------------------- the steps of a Ref

  lemma LeadsRef(c: Config, s: State, s1: State, t: ThreadId, l: Label)
    requires InRange(s) && InRange(s1) && Leads(c, OfThread(t), s, s1) && Enabled(c, s1, l) && IsRefLabel(l) && l.t == t
    ensures Leads(c, OfThread(t), s, RefStep(c, s1, l))
  {
    LeadsStep(c, OfThread(t), s, s1, l);
  }

  /** Some run made of steps of thread `t` alone ends in that shared state, with the thread
      at `pc` and its Ref as given. */
  ghost predicate Gets(c: Config, s: State, t: ThreadId, sh: Shared, pc: Pc, ref: Ref)
    requires InRange(s)
  {
    exists s' :: Leads(c, OfThread(t), s, s') && t < |s'.threads| && s'.fault.None? && s'.sh == sh
                 && s'.threads[t].pc == pc && s'.threads[t].ref == ref
  }

  lemma IsGotten(c: Config, s: State, t: ThreadId, s': State)
    requires InRange(s) && Leads(c, OfThread(t), s, s') && t < |s'.threads| && s'.fault.None?
    ensures Gets(c, s, t, s'.sh, s'.threads[t].pc, s'.threads[t].ref)
  {
  }

  /** getLogBufferRef without an interruption: the thread has a buffer, allocated if its
      pointer was NULL, and its Ref has the count and the deadline the buffer has. */
  lemma GetRefIsRun(c: Config, s: State, t: ThreadId, mem: seq<Word>)
    requires InRange(s) && s.fault.None? && t < |s.threads| && s.threads[t].pc.Idle? && |mem| == c.Capacity()
    ensures SharedInRange(WithBuffer(c, s.sh, t, mem)) && WithBuffer(c, s.sh, t, mem).cells[t].ptr.Some?
    ensures var sh := WithBuffer(c, s.sh, t, mem); Gets(c, s, t, sh, Ready, RefOf(sh, t))
  {
    var s1 := DoLoadForRef(s, t);
    LeadsStart(c, OfThread(t), s);
    LeadsRef(c, s, s, t, LoadForRef(t));
    if s.sh.cells[t].ptr.None? {
      AllocRefIsRun(c, s, s1, t, mem);
    } else {
      MakeRefIsRun(c, s, s1, t);
    }
  }

  lemma AllocRefIsRun(c: Config, s: State, s1: State, t: ThreadId, mem: seq<Word>)
    requires InRange(s) && InRange(s1) && Leads(c, OfThread(t), s, s1) && s1.fault.None? && t < |s1.threads|
    requires s1.threads[t].pc == Acquired(None) && s1.sh.cells[t].ptr.None? && |mem| == c.Capacity()
    ensures SharedInRange(AllocBuffer(c, s1.sh, t, mem)) && AllocBuffer(c, s1.sh, t, mem).cells[t].ptr.Some?
    ensures var sh := AllocBuffer(c, s1.sh, t, mem); Gets(c, s, t, sh, Ready, RefOf(sh, t))
  {
    LeadsRef(c, s, s1, t, AllocForRef(t, mem));
    MakeRefIsRun(c, s, DoAllocForRef(c, s1, t, mem), t);
  }

  lemma MakeRefIsRun(c: Config, s: State, s1: State, t: ThreadId)
    requires InRange(s) && InRange(s1) && Leads(c, OfThread(t), s, s1) && s1.fault.None? && t < |s1.threads|
    requires s1.sh.cells[t].ptr.Some? && s1.threads[t].pc == Acquired(s1.sh.cells[t].ptr)
    ensures Gets(c, s, t, s1.sh, Ready, RefOf(s1.sh, t))
  {
    LeadsRef(c, s, s1, t, MakeRef(t));
    IsGotten(c, s, t, DoMakeRef(s1, t, s1.sh.cells[t].ptr.value));
  }

  /** ~Ref without an interruption: both fields go back to the buffer. */
  lemma DropRefIsRun(c: Config, s: State, t: ThreadId)
    requires InRange(s) && s.fault.None? && t < |s.threads| && s.threads[t].pc.Ready?
    ensures Gets(c, s, t, WithCounts(s.sh, s.threads[t].ref), Idle, s.threads[t].ref)
  {
    var s1 := DoDropEvents(s, t);
    var s2 := DoDropDeadline(s1, t);
    LeadsStart(c, OfThread(t), s);
    LeadsRef(c, s, s, t, DropEvents(t));
    LeadsRef(c, s, s1, t, DropDeadline(t));
    assert s2.sh.bufs == WithCounts(s.sh, s.threads[t].ref).bufs;
    IsGotten(c, s, t, s2);
  }

  /** A Ref that is destroyed and built again on the same buffer is the Ref it was. */
  lemma RefComesBack(c: Config, sh: Shared, t: ThreadId, r: Ref)
    requires SharedInRange(sh) && t < |sh.cells| && HasRef(sh, r) && sh.cells[t].ptr == Some(r.logBuf)
    ensures SharedInRange(WithCounts(sh, r)) && RefOf(WithCounts(sh, r), t) == r
  {
  }

  // ---------------------------------------------------------------- a whole use

  ghost predicate UseEnds(c: Config, s: State, t: ThreadId, out: Result)
    requires InRange(s)
  {
    exists s' :: Leads(c, OfThread(t), s, s') && t < |s'.threads| && s'.sh == out.sh && s'.fault == out.fault
                 && (out.fault.None? ==> s'.threads[t].pc.Idle?)
  }

  /** run_buf_manager, not interrupted, is a run made of the thread's own steps, from no Ref
      to no Ref; so what holds of all runs holds of it. */
  lemma UseIsRun(c: Config, s: State, t: ThreadId, words: seq<Word>, mem: seq<Word>, mems: seq<seq<Word>>)
    requires InRange(s) && s.fault.None? && t < |s.threads| && s.threads[t].pc.Idle? && |mem| == c.Capacity()
    requires |mems| == |words| && forall i | 0 <= i < |mems| :: |mems[i]| == c.Capacity()
    ensures UseEnds(c, s, t, Looped(c, s.sh, t, words, mem, mems))
  {
    var sh := WithBuffer(c, s.sh, t, mem);
    GetRefIsRun(c, s, t, mem);
    var s1 :| Leads(c, OfThread(t), s, s1) && t < |s1.threads| && s1.fault.None? && s1.sh == sh
              && s1.threads[t].pc == Ready && s1.threads[t].ref == RefOf(sh, t);
    LeadsInRange(c, OfThread(t), s, s1);
    LoopIsRun(c, s1, t, words, mems);
    var out := CallAll(c, sh, t, RefOf(sh, t), words, mems);
    var s2 :| Leads(c, OfThread(t), s1, s2) && Shows(s2, t, out);
    LeadsTrans(c, OfThread(t), s, s1, s2);
    if out.fault.None? { EndOfUse(c, s, s2, t); }
  }

  lemma EndOfUse(c: Config, s: State, s2: State, t: ThreadId)
    requires InRange(s) && Leads(c, OfThread(t), s, s2) && s2.fault.None? && t < |s2.threads| && s2.threads[t].pc.Ready?
    ensures InRange(s2) && UseEnds(c, s, t, Result(WithCounts(s2.sh, s2.threads[t].ref), s2.threads[t].ref, None))
  {
    LeadsInRange(c, OfThread(t), s, s2);
    DropRefIsRun(c, s2, t);
    var s3 :| Leads(c, OfThread(t), s2, s3) && t < |s3.threads| && s3.fault.None?
              && s3.sh == WithCounts(s2.sh, s2.threads[t].ref) && s3.threads[t].pc == Idle;
    LeadsTrans(c, OfThread(t), s, s2, s3);
  }

  // ---------------------------------------------------------------- what a use leaves in the buffer

  /** A store of `n` words from place `e` on. */
  ghost predicate Extended(was: Buffer, now: Buffer, e: nat, words: seq<Word>) {
    && e + |words| <= |was.slots| == |now.slots|
    && (forall i | 0 <= i < |words| :: now.slots[e + i] == words[i])
    && (forall i | 0 <= i < |was.slots| && !(e <= i < e + |words|) :: now.slots[i] == was.slots[i])
    && now.(slots := was.slots, events := was.events, nextRdtscTime := was.nextRdtscTime) == was
  }

  /** Only buffer `b` is different. */
  ghost predicate OnlyBuffer(sh: Shared, sh': Shared, b: BufId) {
    && sh' == sh.(bufs := sh'.bufs) && |sh'.bufs| == |sh.bufs| && b < |sh.bufs|
    && forall x | 0 <= x < |sh.bufs| && x != b :: sh'.bufs[x] == sh.bufs[x]
  }

  /** A call that neither finds its pointer NULL nor its buffer full. */
  lemma PlainCall(c: Config, sh: Shared, t: ThreadId, r: Ref, word: Word, mem: seq<Word>)
    requires c.Valid() && SharedInRange(sh) && t < |sh.cells| && HasRef(sh, r) && sh.cells[t].ptr.Some?
    requires Deadline(c, r.events, r.nextRdtscTime) && r.events < LastIndex(c)
    requires |sh.bufs[r.logBuf].slots| == c.Capacity()
    ensures var out := Call(c, sh, t, r, word, mem);
            && out.fault.None? && out.ref.logBuf == r.logBuf && out.ref.events == r.events + 1
            && Deadline(c, out.ref.events, out.ref.nextRdtscTime)
            && r.events < |sh.bufs[r.logBuf].slots| && out.sh == WithWord(sh, r, word)
  {
    LastIndexInside(c);
    if r.events == r.nextRdtscTime { DeadlineMoves(c, r.nextRdtscTime); }
    CallBranches(c, sh, t, r, word, mem);
  }

  ghost predicate PlainEnd(c: Config, sh: Shared, t: ThreadId, r: Ref, words: seq<Word>, out: Result)
    requires c.Valid() && HasRef(sh, r)
  {
    && out.fault.None? && OnlyBuffer(sh, out.sh, r.logBuf)
    && out.ref.logBuf == r.logBuf && out.ref.events == r.events + |words|
    && Deadline(c, out.ref.events, out.ref.nextRdtscTime)
    && Extended(sh.bufs[r.logBuf], out.sh.bufs[r.logBuf], r.events, words)
    && out.sh.bufs[r.logBuf].events == sh.bufs[r.logBuf].events
    && out.sh.bufs[r.logBuf].nextRdtscTime == sh.bufs[r.logBuf].nextRdtscTime
  }

  /** Calls that do not fill the buffer put their words one after the other. */
  lemma {:induction false} PlainCalls(c: Config, sh: Shared, t: ThreadId, r: Ref, words: seq<Word>, mems: seq<seq<Word>>)
    requires c.Valid() && SharedInRange(sh) && t < |sh.cells| && HasRef(sh, r) && sh.cells[t].ptr.Some?
    requires Deadline(c, r.events, r.nextRdtscTime) && r.events + |words| <= LastIndex(c)
    requires |sh.bufs[r.logBuf].slots| == c.Capacity() && |mems| == |words|
    ensures PlainEnd(c, sh, t, r, words, CallAll(c, sh, t, r, words, mems))
  {
    LastIndexInside(c);
    if words != [] {
      var n := |words| - 1;
      PlainCalls(c, sh, t, r, words[..n], mems[..n]);
      var before := CallAll(c, sh, t, r, words[..n], mems[..n]);
      PlainCall(c, before.sh, t, before.ref, words[n], mems[n]);
      OneWordMore(c, sh, t, r, words, before, Call(c, before.sh, t, before.ref, words[n], mems[n]));
    }
  }

  lemma OneWordMore(c: Config, sh: Shared, t: ThreadId, r: Ref, words: seq<Word>, before: Result, out: Result)
    requires c.Valid() && HasRef(sh, r) && words != [] && PlainEnd(c, sh, t, r, words[..|words| - 1], before)
    requires HasRef(before.sh, before.ref) && before.ref.events < |before.sh.bufs[before.ref.logBuf].slots|
    requires out.fault.None? && out.ref.logBuf == r.logBuf && out.ref.events == before.ref.events + 1
    requires Deadline(c, out.ref.events, out.ref.nextRdtscTime)
    requires out.sh == WithWord(before.sh, before.ref, words[|words| - 1])
    ensures PlainEnd(c, sh, t, r, words, out)
  {
  }

  /** A use of run_buf_manager that finds a buffer with room for its words: they follow the
      words that are there, the count says so, and nothing else changes. */
  lemma UseAppends(c: Config, sh: Shared, t: ThreadId, b: BufId, words: seq<Word>, mem: seq<Word>, mems: seq<seq<Word>>)
    requires c.Valid() && SharedInRange(sh) && t < |sh.cells| && sh.cells[t].ptr == Some(b) && |mems| == |words|
    requires |sh.bufs[b].slots| == c.Capacity() && Deadline(c, sh.bufs[b].events, sh.bufs[b].nextRdtscTime)
    requires sh.bufs[b].events + |words| <= LastIndex(c)
    ensures var out := Looped(c, sh, t, words, mem, mems);
            && out.fault.None? && OnlyBuffer(sh, out.sh, b)
            && var was, now := sh.bufs[b], out.sh.bufs[b];
               && now.events == was.events + |words|
               && Contents(now) == Contents(was) + words
               && |now.slots| == c.Capacity() && Deadline(c, now.events, now.nextRdtscTime)
               && now.threadId == was.threadId && now.epoch == was.epoch && now.closed == was.closed
  {
    var r := Ref(b, sh.bufs[b].events, sh.bufs[b].nextRdtscTime);
    LastIndexInside(c);
    PlainCalls(c, sh, t, r, words, mems);
    var was, now := sh.bufs[b], Looped(c, sh, t, words, mem, mems).sh.bufs[b];
    assert Contents(now) == Contents(was) + words;
  }

  /** The first use of a thread, or of an epoch: a new or recycled buffer, with the words
      from its start. */
  lemma FirstUse(c: Config, sh: Shared, t: ThreadId, words: seq<Word>, mem: seq<Word>, mems: seq<seq<Word>>)
    requires c.Valid() && SharedInRange(sh) && t < |sh.cells| && sh.cells[t].ptr.None? && |mems| == |words|
    requires |mem| == c.Capacity() && forall b | 0 <= b < |sh.bufs| :: |sh.bufs[b].slots| == c.Capacity()
    requires |words| <= LastIndex(c)
    ensures var out, b := Looped(c, sh, t, words, mem, mems), NextBuffer(sh);
            && out.fault.None? && b < |out.sh.bufs|
            && t < |out.sh.cells| && out.sh.cells[t] == Cell(Some(b), Some(b))
            && out.sh.bufs[b].events == |words| && Contents(out.sh.bufs[b]) == words
            && out.sh.bufs[b].threadId == t && out.sh.bufs[b].epoch == sh.epoch && !out.sh.bufs[b].closed
  {
    var sh0 := WithBuffer(c, sh, t, mem);
    FirstInOrder(c);
    UseAppends(c, sh0, t, NextBuffer(sh), words, mem, mems);
  }

  lemma FirstInOrder(c: Config)
    requires c.Valid()
    ensures Deadline(c, 0, c.batchSize)
  {
    LastIndexInside(c);
    ModAdd(0, c.batchSize);
  }

  /** On a run that dropped nothing a thread without a Ref has such a buffer, if it has one. */
  lemma IdleInOrder(c: Config, ls: seq<Label>, t: ThreadId)
    requires c.Valid() && Legal(c, ls) && !After(c, ls).dropped
    requires t < |After(c, ls).threads| && After(c, ls).threads[t].pc.Idle? && After(c, ls).sh.cells[t].ptr.Some?
    ensures var buf := After(c, ls).sh.bufs[After(c, ls).sh.cells[t].ptr.value];
            |buf.slots| == c.Capacity() && Deadline(c, buf.events, buf.nextRdtscTime)
  {
    var s := After(c, ls);
    BasicRun(c, ls);
    OwnRun(c, ls);
    assert PointerOk(s, t) && ThreadOwn(c, s, t);
    assert BufferOwn(c, s, s.sh.cells[t].ptr.value);
  }

  /** Two uses in a row: the second one goes on where the first one stopped. */
  lemma UsesContinue(c: Config, sh: Shared, t: ThreadId, b: BufId, ws: seq<Word>, more: seq<Word>,
                     mem: seq<Word>, mems: seq<seq<Word>>, mems': seq<seq<Word>>)
    requires c.Valid() && SharedInRange(sh) && t < |sh.cells| && sh.cells[t].ptr == Some(b)
    requires |mems| == |ws| && |mems'| == |more|
    requires |sh.bufs[b].slots| == c.Capacity() && Deadline(c, sh.bufs[b].events, sh.bufs[b].nextRdtscTime)
    requires sh.bufs[b].events + |ws| + |more| <= LastIndex(c)
    ensures var out := Looped(c, sh, t, ws, mem, mems);
            && SharedInRange(out.sh) && t < |out.sh.cells|
            && var out' := Looped(c, out.sh, t, more, mem, mems');
               && out'.fault.None? && OnlyBuffer(sh, out'.sh, b)
               && out'.sh.bufs[b].events == sh.bufs[b].events + |ws| + |more|
               && Contents(out'.sh.bufs[b]) == Contents(sh.bufs[b]) + ws + more
  {
    UseAppends(c, sh, t, b, ws, mem, mems);
    var out := Looped(c, sh, t, ws, mem, mems);
    UseAppends(c, out.sh, t, b, more, mem, mems');
  }
}
