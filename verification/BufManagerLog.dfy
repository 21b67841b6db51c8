/** The logging path with the buffer manager, as the code that threads and workers execute:
    getLogBufferRef, __tsan_write8_buf_manager and its slow path, run_buf_manager, ~Ref,
    and workerMain.  Each call is specified by the whole operation in Calls. */
module BufManagerLog {
  import opened Protocol
  import opened Packing
  import opened Calls
  import opened EventBuffers
  import opened Managers

  ghost predicate Attached(m: BufferManager, ref: BufferRef)
    reads m, ref
  {
    m.Known(ref.logBuf) && ref.buf == ref.logBuf.buf
  }

  method StoreWord(m: BufferManager, ref: BufferRef, word: Word)
    requires m.Valid() && Attached(m, ref) && ref.events < ref.buf.Length
    modifies ref.buf, m`sh
    ensures m.Valid() && m.sh == WithWord(old(m.sh), ref.View(), word)
  {
    ref.buf[ref.events] := word;
    m.sh := WithWord(m.sh, ref.View(), word);
  }

  method UpdateRef(m: BufferManager, ref: BufferRef, curBuf: EventBuffer) returns (ok: bool)
    requires m.Valid() && Attached(m, ref) && m.Known(curBuf)
    modifies m`sh, ref, ref.logBuf
    ensures m.Valid() && Attached(m, ref)
    ensures var out := Update(m.c, old(m.sh), old(ref.View()), curBuf.id);
            m.sh == out.sh && ref.View() == out.ref && ok == out.fault.None?
  {
    ghost var r := ref.View();
    ok := ref.UpdateLogBuffer(curBuf);
    if ok { m.sh := WithClosed(m.sh, r); }
  }

  /** ref->updateLogBuffer(__buf_manager.allocBuffer()) */
  method Switch(m: BufferManager, me: ThreadCell, ref: BufferRef) returns (fault: Option<Fault>)
    requires m.Valid() && m.KnownThread(me) && Attached(m, ref)
    modifies m.Repr, ref
    ensures m.Valid() && m.threads == old(m.threads) && fresh(m.Repr - old(m.Repr)) && Attached(m, ref)
    ensures Result(m.sh, ref.View(), fault) == SwitchBuffer(m.c, old(m.sh), me.threadId, old(ref.View()), ref.buf[..])
  {
    var buf := m.AllocBuffer(me);
    if buf == null { return Some(AllocAssertion); }
    var ok := UpdateRef(m, ref, buf);
    fault := if ok then None else Some(UpdateAssertion);
  }

  method EndEpochAndSwitch(m: BufferManager, me: ThreadCell, ref: BufferRef) returns (fault: Option<Fault>)
    requires m.Valid() && m.KnownThread(me) && Attached(m, ref)
    modifies m.Repr, ref
    ensures m.Valid() && m.threads == old(m.threads) && fresh(m.Repr - old(m.Repr)) && Attached(m, ref)
    ensures var sh := TryIncEpoch(m.c, old(m.sh), old(ref.logBuf.id));
            && SharedInRange(sh)
            && Result(m.sh, ref.View(), fault) == SwitchBuffer(m.c, sh, me.threadId, old(ref.View()), ref.buf[..])
  {
    var _, _ := m.TryIncEpoch(ref);
    fault := Switch(m, me, ref);
  }

  /** The slow path, once the event is counted: `curBuf` is the pointer loaded before. */
  method Write8Slow(m: BufferManager, me: ThreadCell, ref: BufferRef, curBuf: EventBuffer?) returns (fault: Option<Fault>)
    requires m.Valid() && m.KnownThread(me) && Attached(m, ref)
    modifies m.Repr, ref
    ensures m.Valid() && m.threads == old(m.threads) && fresh(m.Repr - old(m.Repr)) && Attached(m, ref)
    ensures Result(m.sh, ref.View(), fault)
            == Slow(m.c, old(m.sh), me.threadId, old(ref.View()), curBuf == null, ref.buf[..])
  {
    if curBuf == null {
      fault := Switch(m, me, ref);
      return;
    }
    ref.nextRdtscTime := ref.nextRdtscTime + m.c.batchSize;
    if ref.events >= m.c.maxEvents {
      fault := EndEpochAndSwitch(m, me, ref);
      return;
    }
    fault := None;
  }

  /** The store and the count; the result says whether the slow path is next. */
  method StoreAndCount(m: BufferManager, ref: BufferRef, word: Word, curBuf: EventBuffer?) returns (slow: bool)
    requires m.Valid() && Attached(m, ref) && ref.events < ref.buf.Length
    modifies ref.buf, m`sh, ref`events
    ensures m.Valid() && m.sh == WithWord(old(m.sh), old(ref.View()), word)
    ensures ref.View() == if curBuf == null then old(ref.View()) else old(ref.View()).(events := old(ref.events) + 1)
    ensures slow <==> curBuf == null || old(ref.events) >= ref.nextRdtscTime
  {
    StoreWord(m, ref, word);
    slow := curBuf == null;
    if !slow {
      slow := ref.events >= ref.nextRdtscTime;
      ref.events := ref.events + 1;
    }
  }

  /** A call that does not overrun the storage. */
  method StoreAndGoOn(m: BufferManager, me: ThreadCell, ref: BufferRef, word: Word) returns (fault: Option<Fault>)
    requires m.Valid() && m.KnownThread(me) && Attached(m, ref) && ref.events < ref.buf.Length
    modifies m.Repr, ref
    ensures m.Valid() && m.threads == old(m.threads) && fresh(m.Repr - old(m.Repr)) && Attached(m, ref)
    ensures Result(m.sh, ref.View(), fault)
            == Calls.StoreAndGoOn(m.c, old(m.sh), me.threadId, old(ref.View()), word, ref.buf[..])
  {
    var curBuf := me.logPointer;
    ghost var sh, r := m.sh, ref.View();
    assert sh.cells[me.threadId].ptr.None? <==> curBuf == null;
    var slow := StoreAndCount(m, ref, word, curBuf);
    ghost var sh1, r1 := m.sh, ref.View();
    if slow {
      fault := Write8Slow(m, me, ref, curBuf);
      GoesSlow(m.c, sh, me.threadId, r, word, ref.buf[..], sh1, r1);
    } else {
      fault := None;
    }
  }

  method LogWord(m: BufferManager, me: ThreadCell, ref: BufferRef, word: Word) returns (fault: Option<Fault>)
    requires m.Valid() && m.KnownThread(me) && Attached(m, ref)
    modifies m.Repr, ref
    ensures m.Valid() && m.threads == old(m.threads) && fresh(m.Repr - old(m.Repr)) && Attached(m, ref)
    ensures Result(m.sh, ref.View(), fault) == Call(m.c, old(m.sh), me.threadId, old(ref.View()), word, ref.buf[..])
  {
    if ref.events >= ref.buf.Length { return Some(StorageOverrun); }
    fault := StoreAndGoOn(m, me, ref, word);
  }

  method Write8(m: BufferManager, me: ThreadCell, ref: BufferRef, pc: bv64, addr: bv64, val: bv64)
    returns (fault: Option<Fault>)
    requires m.Valid() && m.KnownThread(me) && Attached(m, ref)
    modifies m.Repr, ref
    ensures m.Valid() && m.threads == old(m.threads) && fresh(m.Repr - old(m.Repr)) && Attached(m, ref)
    ensures var word := EncodeFull(Access(pc, addr, val));
            Result(m.sh, ref.View(), fault) == Call(m.c, old(m.sh), me.threadId, old(ref.View()), word, ref.buf[..])
  {
    fault := LogWord(m, me, ref, EncodeFull(Access(pc, addr, val)));
  }

  /** getLogBufferRef: the assertion of `allocBuffer` cannot fail here, since the pointer was
      just seen to be NULL. */
  method GetLogBufferRef(m: BufferManager, me: ThreadCell) returns (ref: BufferRef)
    requires m.Valid() && m.KnownThread(me)
    modifies m.Repr
    ensures m.Valid() && m.threads == old(m.threads) && fresh(m.Repr - old(m.Repr)) && fresh(ref) && Attached(m, ref)
    ensures m.sh == WithBuffer(m.c, old(m.sh), me.threadId, ref.buf[..])
    ensures ref.View() == RefOf(m.sh, me.threadId)
    ensures ref.logBuf == me.logPointer && (old(me.logPointer) != null ==> ref.logBuf == old(me.logPointer))
    ensures ref.events == ref.logBuf.events && ref.nextRdtscTime == ref.logBuf.nextRdtscTime
  {
    var logBuf := me.logPointer;
    if logBuf == null {
      logBuf := m.AllocBuffer(me);
    }
    ref := new BufferRef(logBuf);
  }

  /** ~Ref */
  method DestroyRef(m: BufferManager, ref: BufferRef)
    requires m.Valid() && Attached(m, ref)
    modifies m`sh, ref.logBuf
    ensures m.Valid() && m.sh == WithCounts(old(m.sh), ref.View())
    ensures ref.logBuf.events == ref.events && ref.logBuf.nextRdtscTime == ref.nextRdtscTime
    ensures ref.logBuf.closed == old(ref.logBuf.closed)
  {
    ref.Destroy();
    m.sh := WithCounts(m.sh, ref.View());
  }

  /** One more call of the loop, after `i` calls that did not fault. */
  method LogNext(m: BufferManager, me: ThreadCell, ref: BufferRef, words: seq<Word>, i: nat,
                 ghost sh: Shared, ghost r: Ref, ghost mems: seq<seq<Word>>)
    returns (fault: Option<Fault>, ghost mem: seq<Word>)
    requires m.Valid() && m.KnownThread(me) && Attached(m, ref)
    requires SharedInRange(sh) && me.threadId < |sh.cells| && HasRef(sh, r) && |mems| == i < |words|
    requires CallAll(m.c, sh, me.threadId, r, words[..i], mems) == Result(m.sh, ref.View(), None)
    modifies m.Repr, ref
    ensures m.Valid() && m.threads == old(m.threads) && fresh(m.Repr - old(m.Repr)) && Attached(m, ref)
    ensures CallAll(m.c, sh, me.threadId, r, words[..i + 1], mems + [mem]) == Result(m.sh, ref.View(), fault)
  {
    fault := LogWord(m, me, ref, words[i]);
    mem := ref.buf[..];
    CallAllStep(m.c, sh, me.threadId, r, words, mems, i, mem);
  }

  /** The loop of run_buf_manager, up to the first fault. */
  method LogAll(m: BufferManager, me: ThreadCell, ref: BufferRef, words: seq<Word>)
    returns (fault: Option<Fault>, ghost mems: seq<seq<Word>>)
    requires m.Valid() && m.KnownThread(me) && Attached(m, ref)
    modifies m.Repr, ref
    ensures m.Valid() && m.threads == old(m.threads) && fresh(m.Repr - old(m.Repr)) && Attached(m, ref)
    ensures |mems| <= |words| && (fault.None? ==> |mems| == |words|)
    ensures CallAll(m.c, old(m.sh), me.threadId, old(ref.View()), words[..|mems|], mems) == Result(m.sh, ref.View(), fault)
  {
    mems, fault := [], None;
    ghost var sh, r := m.sh, ref.View();
    var i := 0;
    while i < |words| && fault.None?
      invariant m.Valid() && m.threads == old(m.threads) && fresh(m.Repr - old(m.Repr)) && Attached(m, ref)
      invariant |mems| == i <= |words|
      invariant CallAll(m.c, sh, me.threadId, r, words[..i], mems) == Result(m.sh, ref.View(), fault)
    {
      ghost var mem;
      fault, mem := LogNext(m, me, ref, words, i, sh, r, mems);
      mems, i := mems + [mem], i + 1;
    }
  }

  /** run_buf_manager for the given writes. */
  method RunBufManager(m: BufferManager, me: ThreadCell, accesses: seq<Access>)
    returns (fault: Option<Fault>, ghost mem: seq<Word>, ghost mems: seq<seq<Word>>)
    requires m.Valid() && m.KnownThread(me)
    modifies m.Repr
    ensures m.Valid() && |mems| <= |accesses|
    ensures fault.None? ==> |mems| == |accesses|
    ensures var out := Looped(m.c, old(m.sh), me.threadId, EncodeAll(accesses)[..|mems|], mem, mems);
            m.sh == out.sh && fault == out.fault
  {
    var ref := GetLogBufferRef(m, me);
    mem := ref.buf[..];
    fault, mems := LogAll(m, me, ref, EncodeAll(accesses));
    if fault.None? { DestroyRef(m, ref); }
  }

  /** workerMain.  A buffer that is still open makes it wait; as nothing can change while
      this method runs, it then gives up and says so. */
  method WorkerMain(m: BufferManager, buffers: seq<EventBuffer>) returns (done: bool, events: nat)
    requires m.Valid() && forall i | 0 <= i < |buffers| :: m.Known(buffers[i])
    modifies m`activeWorkers, m`freeBufs, m`sh
    ensures m.Valid()
    ensures forall i | 0 <= i < |buffers| :: Ids(buffers)[i] < |old(m.sh).bufs|
    ensures done <==> forall i | 0 <= i < |buffers| :: old(buffers[i].closed)
    ensures done ==> m.freeBufs == old(m.freeBufs) + buffers && m.activeWorkers == old(m.activeWorkers) - 1
    ensures done ==> events == Total(old(m.sh), Ids(buffers)) && m.sh == Release(old(m.sh), Ids(buffers))
    ensures !done ==> unchanged(m)
  {
    for i := 0 to |buffers|
      invariant forall j | 0 <= j < i :: buffers[j].closed
      invariant unchanged(m)
    {
      if !buffers[i].closed { return false, 0; }
    }
    events := 0;
    for i := 0 to |buffers|
      invariant unchanged(m)
      invariant forall j | 0 <= j < |buffers| :: Ids(buffers)[j] < |m.sh.bufs|
      invariant events == Total(m.sh, Ids(buffers)[..i])
    {
      events := events + buffers[i].events;
      assert Ids(buffers)[..i + 1][..i] == Ids(buffers)[..i];
    }
    assert Ids(buffers)[..|buffers|] == Ids(buffers);
    m.Release(buffers);
    done := true;
  }
}
