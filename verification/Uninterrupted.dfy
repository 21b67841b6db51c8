/** The whole operations of Calls, started in states that the protocol can reach. */
module Uninterrupted {
  import opened Protocol
  import opened Bookkeeping
  import opened Ownership
  import opened Safety
  import opened Calls

  lemma Reached(c: Config, ls: seq<Label>)
    requires Legal(c, ls)
    ensures Leads(c, Anyone, INIT, After(c, ls))
  {
    assert LegalFrom(c, INIT, ls) && AfterFrom(c, INIT, ls) == After(c, ls) && AllBy(Anyone, ls);
  }

  /** In any reachable state, dropped batches or not, allocBuffer finds the pointer NULL. */
  lemma CallFindsNull(c: Config, ls: seq<Label>, t: ThreadId, word: Word, mem: seq<Word>)
    requires Legal(c, ls) && |mem| == c.Capacity()
    requires After(c, ls).fault.None? && t < |After(c, ls).threads| && After(c, ls).threads[t].pc.Ready?
    ensures var s := After(c, ls);
            Call(c, s.sh, t, s.threads[t].ref, word, mem).fault != Some(AllocAssertion)
  {
    var s := After(c, ls);
    var out := Call(c, s.sh, t, s.threads[t].ref, word, mem);
    CallIsRun(c, s, t, word, mem);
    var s' :| Leads(c, OfThread(t), s, s') && Shows(s', t, out);
    Reached(c, ls);
    LeadsAnyone(c, OfThread(t), s, s');
    LeadsTrans(c, Anyone, INIT, s, s');
    var all :| LegalFrom(c, INIT, all) && AfterFrom(c, INIT, all) == s' && AllBy(Anyone, all);
    AllocAssertionHolds(c, all);
  }

  // ---------------------------------------------------------------- the exact condition

  /** What a caller can see before the call: the slow path will be handed its own buffer. */
  predicate OwnBufferNext(c: Config, sh: Shared, t: ThreadId, r: Ref)
    requires t < |sh.cells|
  {
    if sh.cells[t].ptr.None? then NextBuffer(sh) == r.logBuf
    else
      && r.events >= r.nextRdtscTime && r.events + 1 >= c.maxEvents
      && sh.activeWorkers >= c.maxWorkers
      && sh.allocatedBufs != [] && sh.allocatedBufs[|sh.allocatedBufs| - 1] == r.logBuf
  }

  function FaultOf(c: Config, sh: Shared, t: ThreadId, r: Ref): Option<Fault>
    requires t < |sh.cells| && HasRef(sh, r)
  {
    if r.events >= |sh.bufs[r.logBuf].slots| then Some(StorageOverrun)
    else if OwnBufferNext(c, sh, t, r) then Some(UpdateAssertion)
    else None
  }

  /** In every reachable state, whatever batches were dropped before, this is how a call
      ends that nobody interrupts. */
  lemma CallFaultsIff(c: Config, ls: seq<Label>, t: ThreadId, word: Word, mem: seq<Word>)
    requires Legal(c, ls) && t < |After(c, ls).threads| && After(c, ls).threads[t].pc.Ready?
    ensures var s := After(c, ls);
            Call(c, s.sh, t, s.threads[t].ref, word, mem).fault == FaultOf(c, s.sh, t, s.threads[t].ref)
  {
    BasicRun(c, ls);
    CallFaults(c, After(c, ls), t, word, mem);
  }

  lemma CallFaults(c: Config, s: State, t: ThreadId, word: Word, mem: seq<Word>)
    requires Basic(c, s) && t < |s.threads| && s.threads[t].pc.Ready?
    ensures Call(c, s.sh, t, s.threads[t].ref, word, mem).fault == FaultOf(c, s.sh, t, s.threads[t].ref)
  {
    NextBufferUnused(s);
    if s.sh.cells[t].ptr.Some? { ParticipantRef(c, s, t); }
    SharedFaults(c, s.sh, t, s.threads[t].ref, word, mem);
  }

  /** The same, from what is needed of the shared state: a thread with a pointer takes part
      in the current epoch. */
  lemma SharedFaults(c: Config, sh: Shared, t: ThreadId, r: Ref, word: Word, mem: seq<Word>)
    requires SharedInRange(sh) && t < |sh.cells| && HasRef(sh, r)
    requires sh.cells[t].ptr.Some? ==>
               && t in sh.tlsBufAddrs && r.logBuf in sh.allocatedBufs && sh.bufs[r.logBuf].epoch == sh.epoch
               && NextBuffer(sh) != r.logBuf
    ensures Call(c, sh, t, r, word, mem).fault == FaultOf(c, sh, t, r)
  {
    if r.events < |sh.bufs[r.logBuf].slots| {
      CallBranches(c, sh, t, r, word, mem);
      BranchFaults(c, sh, t, r, word, mem, Call(c, sh, t, r, word, mem));
    }
  }

  lemma BranchFaults(c: Config, sh: Shared, t: ThreadId, r: Ref, word: Word, mem: seq<Word>, out: Result)
    requires SharedInRange(sh) && t < |sh.cells| && HasRef(sh, r) && r.events < |sh.bufs[r.logBuf].slots|
    requires sh.cells[t].ptr.Some? ==>
               && t in sh.tlsBufAddrs && r.logBuf in sh.allocatedBufs && sh.bufs[r.logBuf].epoch == sh.epoch
               && NextBuffer(sh) != r.logBuf
    requires IsBranch(c, sh, t, r, word, mem, out)
    ensures out.fault == FaultOf(c, sh, t, r)
  {
    if sh.cells[t].ptr.None? {
      SwitchFaultsIff(c, WithWord(sh, r, word), t, r, mem);
    } else if r.events >= r.nextRdtscTime && r.events + 1 >= c.maxEvents {
      FullFaults(c, sh, t, r, word, mem);
    }
  }

  /** The switch of a full buffer, whose thread takes part in the current epoch. */
  lemma FullFaults(c: Config, sh: Shared, t: ThreadId, r: Ref, word: Word, mem: seq<Word>)
    requires SharedInRange(sh) && t < |sh.cells| && HasRef(sh, r) && r.events < |sh.bufs[r.logBuf].slots|
    requires t in sh.tlsBufAddrs && r.logBuf in sh.allocatedBufs && sh.bufs[r.logBuf].epoch == sh.epoch
    requires NextBuffer(sh) != r.logBuf
    ensures var sh1 := TryIncEpoch(c, WithWord(sh, r, word), r.logBuf);
            && SharedInRange(sh1)
            && SwitchBuffer(c, sh1, t, Ref(r.logBuf, r.events + 1, r.nextRdtscTime + c.batchSize), mem).fault ==
               if sh.activeWorkers >= c.maxWorkers && sh.allocatedBufs[|sh.allocatedBufs| - 1] == r.logBuf
               then Some(UpdateAssertion) else None
  {
    var sh0 := WithWord(sh, r, word);
    WordInRange(sh, r, word);
    IncInRange(c, sh0, r.logBuf);
    IncNext(c, sh0, t, r.logBuf);
    SwitchFaultsIff(c, TryIncEpoch(c, sh0, r.logBuf), t,
                    Ref(r.logBuf, r.events + 1, r.nextRdtscTime + c.batchSize), mem);
  }

  lemma IncNext(c: Config, sh: Shared, t: ThreadId, b: BufId)
    requires b < |sh.bufs| && t < |sh.cells| && t in sh.tlsBufAddrs && sh.bufs[b].epoch == sh.epoch
    requires b in sh.allocatedBufs
    ensures var sh1 := TryIncEpoch(c, sh, b);
            && t < |sh1.cells| && sh1.cells[t].ptr.None?
            && NextBuffer(sh1) == if sh.activeWorkers < c.maxWorkers then NextBuffer(sh)
                                  else sh.allocatedBufs[|sh.allocatedBufs| - 1]
  {
  }

  /** A thread whose pointer is not NULL takes part in the current epoch, with the buffer
      its Ref is on. */
  lemma ParticipantRef(c: Config, s: State, t: ThreadId)
    requires Basic(c, s) && t < |s.threads| && s.threads[t].pc.Ready? && s.sh.cells[t].ptr.Some?
    ensures t in s.sh.tlsBufAddrs && s.threads[t].ref.logBuf in s.sh.allocatedBufs
    ensures s.sh.bufs[s.threads[t].ref.logBuf].epoch == s.sh.epoch
  {
    assert PointerOk(s, t);
  }

  lemma SwitchFaultsIff(c: Config, sh: Shared, t: ThreadId, r: Ref, mem: seq<Word>)
    requires SharedInRange(sh) && t < |sh.cells| && HasRef(sh, r) && sh.cells[t].ptr.None?
    ensures SwitchBuffer(c, sh, t, r, mem).fault ==
            if NextBuffer(sh) == r.logBuf then Some(UpdateAssertion) else None
  {
  }

  /** After a drop-free run only the last of these conditions is possible, and the deadline
      makes it depend on one index. */
  lemma DropFreeCallFaultsIff(c: Config, ls: seq<Label>, t: ThreadId, word: Word, mem: seq<Word>)
    requires c.Valid() && Legal(c, ls) && DropFree(c, ls)
    requires t < |After(c, ls).threads| && After(c, ls).threads[t].pc.Ready?
    ensures var s := After(c, ls);
            var r := s.threads[t].ref;
            Call(c, s.sh, t, r, word, mem).fault.Some? <==>
              && s.sh.cells[t].ptr.Some? && r.events == LastIndex(c)
              && s.sh.activeWorkers >= c.maxWorkers
              && s.sh.allocatedBufs != [] && s.sh.allocatedBufs[|s.sh.allocatedBufs| - 1] == r.logBuf
  {
    var s := After(c, ls);
    OwnRun(c, ls);
    BasicRun(c, ls);
    assert Local(c, s, t);
    CallFaultsIff(c, ls, t, word, mem);
    LocalFaultOf(c, s, t);
  }

  lemma LocalFaultOf(c: Config, s: State, t: ThreadId)
    requires Local(c, s, t) && s.threads[t].pc.Ready?
    ensures var r := s.threads[t].ref;
            FaultOf(c, s.sh, t, r).Some? <==>
              && s.sh.cells[t].ptr.Some? && r.events == LastIndex(c)
              && s.sh.activeWorkers >= c.maxWorkers
              && s.sh.allocatedBufs != [] && s.sh.allocatedBufs[|s.sh.allocatedBufs| - 1] == r.logBuf
  {
    FullIff(c, s, t);
    NotNext(c, s, t);
  }

  /** The buffer is full, for the code, exactly at LastIndex; the store is inside. */
  lemma FullIff(c: Config, s: State, t: ThreadId)
    requires Local(c, s, t) && s.threads[t].pc.Ready?
    ensures var r := s.threads[t].ref;
            && (r.events >= r.nextRdtscTime && r.events + 1 >= c.maxEvents <==> r.events == LastIndex(c))
            && r.events < |s.sh.bufs[r.logBuf].slots|
  {
    var r := s.threads[t].ref;
    LastIndexInside(c);
    if r.events == r.nextRdtscTime { DeadlineMoves(c, r.nextRdtscTime); }
    assert BufferOwn(c, s, r.logBuf);
  }

  /** A thread's own buffer is not in the pool, so it is not the next one. */
  lemma NotNext(c: Config, s: State, t: ThreadId)
    requires Local(c, s, t) && s.threads[t].pc.Ready?
    ensures NextBuffer(s.sh) != s.threads[t].ref.logBuf
  {
    if s.sh.freeBufs != [] { assert NextBuffer(s.sh) in s.sh.freeBufs; }
  }
}
