/** The buffer manager as an object: its methods do what the monitor steps of the protocol
    say, on the lists, buffers and pointers of the running program. */
module Managers {
  import opened Protocol
  import opened EventBuffers

  /** What is local to an application thread: `__log_buffer` and its context. */
  class ThreadCell {
    const threadId: ThreadId
    var logPointer: EventBuffer?
    var logBuffer: EventBuffer?

    constructor (threadId: ThreadId)
      ensures this.threadId == threadId && logPointer == null && logBuffer == null
    {
      this.threadId := threadId;
      logPointer := null;
      logBuffer := null;
    }

    ghost function View(): Cell
      reads this
    {
      Cell(IdOf(logPointer), IdOf(logBuffer))
    }
  }

  ghost function IdOf(b: EventBuffer?): Option<BufId> {
    if b == null then None else Some(b.id)
  }

  ghost function Ids(bs: seq<EventBuffer>): (r: seq<BufId>) {
    seq(|bs|, i requires 0 <= i < |bs| => bs[i].id)
  }

  class BufferManager {
    const c: Config
    var activeWorkers: int
    var epoch: nat
    var allocatedBufs: seq<EventBuffer>
    var freeBufs: seq<EventBuffer>
    var tlsBufAddrs: set<ThreadCell>
    var threadCounter: nat                // Context::threadCounter
    ghost var created: seq<EventBuffer>   // every buffer, in the order of creation
    ghost var threads: seq<ThreadCell>    // every thread, in the order of creation
    ghost var Repr: set<object>           // the manager, its buffers, their storage, the threads
    ghost var owner: map<array<Word>, BufId>   // whose storage an array is
    ghost var sh: Shared                  // the state of the protocol that the objects stand for

    ghost predicate Known(b: EventBuffer)
      reads this
    {
      b.id < |created| && created[b.id] == b
    }

    ghost predicate KnownThread(x: ThreadCell)
      reads this
    {
      x.threadId < |threads| && threads[x.threadId] == x
    }

    ghost predicate BuffersMatch()
      reads this, created, set b | b in created :: b.buf
    {
      && |created| == |sh.bufs|
      && (forall i | 0 <= i < |created| ::
            && created[i].id == i && created[i].c == c && created[i].buf.Length == c.Capacity()
            && created[i].Assigned() && created[i].View() == sh.bufs[i]
            && created[i] in Repr && created[i].buf in Repr
            && created[i].buf in owner && owner[created[i].buf] == i)
    }

    ghost predicate ThreadsMatch()
      reads this, threads
    {
      && threadCounter == |threads| == |sh.cells|
      && forall t | 0 <= t < |threads| ::
           && threads[t].threadId == t && threads[t].View() == sh.cells[t] && threads[t] in Repr
           && (threads[t].logPointer != null ==> Known(threads[t].logPointer))
           && (threads[t].logBuffer != null ==> Known(threads[t].logBuffer))
    }

    ghost predicate ListsMatch()
      reads this
    {
      && sh.epoch == epoch && sh.activeWorkers == activeWorkers
      && sh.allocatedBufs == Ids(allocatedBufs) && sh.freeBufs == Ids(freeBufs)
      && (forall i | 0 <= i < |allocatedBufs| :: Known(allocatedBufs[i]))
      && (forall i | 0 <= i < |freeBufs| :: Known(freeBufs[i]))
      && (forall x | x in tlsBufAddrs :: KnownThread(x) && x.threadId in sh.tlsBufAddrs)
      && (forall t | t in sh.tlsBufAddrs :: t < |threads| && threads[t] in tlsBufAddrs)
    }

    ghost predicate Valid()
      reads this, created, threads, set b | b in created :: b.buf
    {
      this in Repr && SharedInRange(sh) && BuffersMatch() && ThreadsMatch() && ListsMatch()
    }

    constructor (c: Config)
      ensures Valid() && this.c == c && sh == INIT.sh && fresh(Repr)
    {
      this.c := c;
      activeWorkers, epoch := 0, 0;
      allocatedBufs, freeBufs, tlsBufAddrs := [], [], {};
      threadCounter, created, threads, sh, Repr, owner := 0, [], [], INIT.sh, {this}, map[];
    }

    /** The context of a new thread. */
    method NewThread() returns (me: ThreadCell)
      requires Valid()
      modifies this`threadCounter, this`threads, this`sh, this`Repr
      ensures Valid() && fresh(me) && KnownThread(me) && Repr == old(Repr) + {me}
      ensures me.threadId == old(threadCounter) && threadCounter == old(threadCounter) + 1
      ensures me.logPointer == null && me.logBuffer == null
      ensures sh == old(sh).(cells := old(sh).cells + [Cell(None, None)])
    {
      me := new ThreadCell(threadCounter);
      threadCounter := threadCounter + 1;
      threads := threads + [me];
      Repr := Repr + {me};
      sh := sh.(cells := sh.cells + [Cell(None, None)]);
    }

    ghost method Register(buf: EventBuffer)
      requires Valid() && buf.id == |created| && buf.c == c && buf.buf.Length == c.Capacity()
      requires buf.Assigned() && buf.threadId < |threads| && buf.buf !in owner
      modifies this`created, this`sh, this`Repr, this`owner
      ensures Valid() && Known(buf) && created == old(created) + [buf]
      ensures Repr == old(Repr) + {buf, buf.buf}
      ensures sh == old(sh).(bufs := old(sh).bufs + [buf.View()])
    {
      created := created + [buf];
      Repr, owner := Repr + {buf, buf.buf}, owner[buf.buf := buf.id];
      sh := sh.(bufs := sh.bufs + [buf.View()]);
    }

    method NewBuffer(threadId: ThreadId) returns (buf: EventBuffer)
      requires Valid() && threadId < |threads|
      modifies this`created, this`sh, this`Repr, this`owner
      ensures Valid() && fresh(Repr - old(Repr)) && Known(buf)
      ensures created == old(created) + [buf] && buf.id == |old(sh).bufs|
      ensures fresh(buf) && IsAssigned(buf, threadId)
      ensures sh == AddBuffer(c, old(sh), threadId, buf.buf[..])
    {
      buf := new EventBuffer(c, |created|);
      buf.threadId := threadId;
      buf.epoch := epoch;
      Register(buf);
    }

    method ReuseBuffer(threadId: ThreadId) returns (buf: EventBuffer)
      requires Valid() && threadId < |threads| && freeBufs != []
      modifies this`freeBufs, this`sh, freeBufs[|freeBufs| - 1]
      ensures Valid() && Known(buf) && IsAssigned(buf, threadId)
      ensures buf == old(freeBufs[|freeBufs| - 1]) && freeBufs == old(freeBufs[..|freeBufs| - 1])
      ensures sh == PopBuffer(c, old(sh), threadId)
    {
      buf := freeBufs[|freeBufs| - 1];
      freeBufs := freeBufs[..|freeBufs| - 1];
      buf.Reset();
      buf.threadId := threadId;
      buf.epoch := epoch;
      sh := PopBuffer(c, sh, threadId);
    }

    /** An empty buffer of the current epoch, for thread `t`. */
    ghost predicate IsAssigned(buf: EventBuffer, t: ThreadId)
      reads this, buf
    {
      && buf.events == 0 && buf.nextRdtscTime == c.batchSize && !buf.closed
      && buf.threadId == t && buf.epoch == epoch
    }

    method SetPointers(me: ThreadCell, buf: EventBuffer)
      requires Valid() && KnownThread(me) && Known(buf)
      modifies this`sh, me
      ensures Valid() && me.logPointer == buf && me.logBuffer == buf
      ensures sh == old(sh).(cells := old(sh).cells[me.threadId := Cell(Some(buf.id), Some(buf.id))])
    {
      me.logPointer := buf;
      me.logBuffer := buf;
      sh := sh.(cells := sh.cells[me.threadId := Cell(Some(buf.id), Some(buf.id))]);
    }

    method Assign(me: ThreadCell, buf: EventBuffer)
      requires Valid() && KnownThread(me) && Known(buf)
      modifies this`allocatedBufs, this`tlsBufAddrs, this`sh, me
      ensures Valid() && me.logPointer == buf && me.logBuffer == buf
      ensures allocatedBufs == old(allocatedBufs) + [buf] && tlsBufAddrs == old(tlsBufAddrs) + {me}
      ensures sh == Assigned(old(sh), me.threadId, buf.id)
    {
      SetPointers(me, buf);
      Record(me, buf);
    }

    method Record(me: ThreadCell, buf: EventBuffer)
      requires Valid() && KnownThread(me) && Known(buf)
      modifies this`allocatedBufs, this`tlsBufAddrs, this`sh
      ensures Valid()
      ensures allocatedBufs == old(allocatedBufs) + [buf] && tlsBufAddrs == old(tlsBufAddrs) + {me}
      ensures sh == old(sh).(allocatedBufs := old(sh).allocatedBufs + [buf.id],
                             tlsBufAddrs := old(sh).tlsBufAddrs + {me.threadId})
    {
      allocatedBufs := allocatedBufs + [buf];
      tlsBufAddrs := tlsBufAddrs + {me};
      sh := sh.(allocatedBufs := sh.allocatedBufs + [buf.id], tlsBufAddrs := sh.tlsBufAddrs + {me.threadId});
    }

    /** The result is null exactly if the assertion failed; nothing has changed then. */
    method AllocBuffer(me: ThreadCell) returns (buf: EventBuffer?)
      requires Valid() && KnownThread(me)
      modifies this, me, if freeBufs == [] then {} else {freeBufs[|freeBufs| - 1]}
      ensures Valid() && threads == old(threads)
      ensures buf == null <==> old(me.logPointer) != null
      ensures buf == null ==> sh == old(sh)
      ensures fresh(Repr - old(Repr))
      ensures created == old(created) || (buf != null && created == old(created) + [buf])
      ensures buf != null ==> Known(buf) && buf.id == NextBuffer(old(sh))
      ensures buf != null ==>
                && IsAssigned(buf, me.threadId) && me.logPointer == buf && me.logBuffer == buf
                && allocatedBufs == old(allocatedBufs) + [buf] && tlsBufAddrs == old(tlsBufAddrs) + {me}
                && epoch == old(epoch) && activeWorkers == old(activeWorkers)
                && (if old(freeBufs) == [] then fresh(buf) && freeBufs == []
                    else buf == old(freeBufs[|freeBufs| - 1]) && freeBufs == old(freeBufs[..|freeBufs| - 1]))
      ensures buf != null ==> sh == Protocol.AllocBuffer(c, old(sh), me.threadId, buf.buf[..])
    {
      if me.logPointer != null { return null; }
      if freeBufs == [] {
        buf := NewBuffer(me.threadId);
      } else {
        buf := ReuseBuffer(me.threadId);
      }
      Assign(me, buf);
    }

    /** Sets the pointers of all participating threads to NULL. */
    method Revoke()
      requires Valid()
      modifies this`tlsBufAddrs, this`sh, tlsBufAddrs
      ensures Valid() && sh == Revoked(old(sh))
      ensures tlsBufAddrs == {} && forall x | x in old(tlsBufAddrs) :: x.logPointer == null
    {
      ClearPointers(tlsBufAddrs);
      tlsBufAddrs := {};
      sh := Revoked(sh);
    }

    /** Ends the epoch: its buffers go to a new worker, or back to the pool. */
    method EndEpoch() returns (work: Option<seq<EventBuffer>>)
      requires Valid()
      modifies this`activeWorkers, this`freeBufs, this`allocatedBufs, this`epoch, this`sh
      ensures Valid() && sh == EpochEnded(c, old(sh))
      ensures work == if old(activeWorkers) < c.maxWorkers then Some(old(allocatedBufs)) else None
      ensures activeWorkers == old(activeWorkers) + if work.Some? then 1 else 0
      ensures freeBufs == if work.Some? then old(freeBufs) else old(freeBufs + allocatedBufs)
      ensures allocatedBufs == [] && epoch == old(epoch) + 1
    {
      if activeWorkers < c.maxWorkers {
        work := Some(allocatedBufs);
        activeWorkers := activeWorkers + 1;
      } else {
        work := None;
        assert Ids(freeBufs + allocatedBufs) == Ids(freeBufs) + Ids(allocatedBufs);
        freeBufs := freeBufs + allocatedBufs;
      }
      allocatedBufs := [];
      epoch := epoch + 1;
      sh := EpochEnded(c, sh);
    }

    /** Whether the caller became the coordinator, and the buffers given to a new worker,
        if one was started. */
    method TryIncEpoch(ref: BufferRef) returns (coordinator: bool, work: Option<seq<EventBuffer>>)
      requires Valid() && Known(ref.logBuf)
      modifies this, tlsBufAddrs
      ensures Valid() && created == old(created) && threads == old(threads) && Repr == old(Repr)
      ensures sh == Protocol.TryIncEpoch(c, old(sh), ref.logBuf.id)
      ensures coordinator <==> old(epoch) == ref.logBuf.epoch
      ensures !coordinator ==> unchanged(this) && unchanged(old(tlsBufAddrs)) && work == None
      ensures coordinator ==>
                && (forall x | x in old(tlsBufAddrs) :: x.logPointer == null)
                && tlsBufAddrs == {} && allocatedBufs == [] && epoch == old(epoch) + 1
                && work == (if old(activeWorkers) < c.maxWorkers then Some(old(allocatedBufs)) else None)
                && activeWorkers == old(activeWorkers) + (if work.Some? then 1 else 0)
                && freeBufs == if work.Some? then old(freeBufs) else old(freeBufs + allocatedBufs)
    {
      if epoch != ref.logBuf.epoch { return false, None; }
      Revoke();
      work := EndEpoch();
      coordinator := true;
    }

    method Release(bufsToRelease: seq<EventBuffer>)
      requires Valid() && forall i | 0 <= i < |bufsToRelease| :: Known(bufsToRelease[i])
      modifies this`activeWorkers, this`freeBufs, this`sh
      ensures Valid() && sh == Protocol.Release(old(sh), Ids(bufsToRelease))
      ensures freeBufs == old(freeBufs) + bufsToRelease && activeWorkers == old(activeWorkers) - 1
    {
      activeWorkers := activeWorkers - 1;
      for i := 0 to |bufsToRelease|
        invariant freeBufs == old(freeBufs) + bufsToRelease[..i]
        invariant activeWorkers == old(activeWorkers) - 1 && sh == old(sh)
      {
        freeBufs := freeBufs + [bufsToRelease[i]];
      }
      assert freeBufs == old(freeBufs) + bufsToRelease;
      assert Ids(freeBufs) == Ids(old(freeBufs)) + Ids(bufsToRelease);
      sh := Protocol.Release(sh, Ids(bufsToRelease));
    }

    method MarkClosed(buf: EventBuffer)
      requires Valid() && Known(buf)
      modifies this`sh, buf`closed
      ensures Valid() && buf.closed
      ensures sh == old(sh).(bufs := old(sh).bufs[buf.id := old(sh).bufs[buf.id].(closed := true)])
    {
      buf.closed := true;
      sh := sh.(bufs := sh.bufs[buf.id := sh.bufs[buf.id].(closed := true)]);
    }

    method ThreadExit(me: ThreadCell)
      requires Valid() && KnownThread(me)
      modifies this`tlsBufAddrs, this`sh, if me.logBuffer == null then {} else {me.logBuffer}
      ensures Valid() && sh == Protocol.ThreadExit(old(sh), me.threadId)
      ensures tlsBufAddrs == old(tlsBufAddrs) - {me} && (me.logBuffer != null ==> me.logBuffer.closed)
    {
      assert me.View() == sh.cells[me.threadId];
      if me.logBuffer != null {
        MarkClosed(me.logBuffer);
      }
      Unregister(me);
    }

    method Unregister(me: ThreadCell)
      requires Valid() && KnownThread(me)
      modifies this`tlsBufAddrs, this`sh
      ensures Valid() && tlsBufAddrs == old(tlsBufAddrs) - {me}
      ensures sh == old(sh).(tlsBufAddrs := old(sh).tlsBufAddrs - {me.threadId})
    {
      tlsBufAddrs := tlsBufAddrs - {me};
      sh := sh.(tlsBufAddrs := sh.tlsBufAddrs - {me.threadId});
    }
  }

  method ClearPointers(cells: set<ThreadCell>)
    modifies cells
    ensures forall x | x in cells :: x.logPointer == null && x.logBuffer == old(x.logBuffer)
  {
    var todo := cells;
    while todo != {}
      invariant todo <= cells
      invariant forall x | x in cells - todo :: x.logPointer == null
      invariant forall x | x in cells :: x.logBuffer == old(x.logBuffer)
    {
      var x :| x in todo;
      x.logPointer := null;
      todo := todo - {x};
    }
  }

  /** The two halves of `tryIncEpoch` past its test. */
  function Revoked(sh: Shared): Shared {
    sh.(cells := seq(|sh.cells|, i requires 0 <= i < |sh.cells| =>
                       if i in sh.tlsBufAddrs then sh.cells[i].(ptr := None) else sh.cells[i]),
        tlsBufAddrs := {})
  }

  function EpochEnded(c: Config, sh: Shared): Shared {
    var spawned := sh.activeWorkers < c.maxWorkers;
    sh.(activeWorkers := if spawned then sh.activeWorkers + 1 else sh.activeWorkers,
        freeBufs := if spawned then sh.freeBufs else sh.freeBufs + sh.allocatedBufs,
        allocatedBufs := [],
        epoch := sh.epoch + 1)
  }

  /** The two ways to obtain an empty buffer, for `allocBuffer`. */
  function AddBuffer(c: Config, sh: Shared, t: ThreadId, mem: seq<Word>): (r: Shared)
    requires SharedInRange(sh) && t < |sh.cells|
    ensures SharedInRange(r)
  {
    sh.(bufs := sh.bufs + [FreshBuffer(c, t, sh.epoch, mem)])
  }

  function PopBuffer(c: Config, sh: Shared, t: ThreadId): (r: Shared)
    requires SharedInRange(sh) && sh.freeBufs != [] && t < |sh.cells|
    ensures SharedInRange(r)
  {
    var n := |sh.freeBufs| - 1;
    var b := sh.freeBufs[n];
    sh.(bufs := sh.bufs[b := FreshBuffer(c, t, sh.epoch, sh.bufs[b].slots)], freeBufs := sh.freeBufs[..n])
  }

  /** The records of the assignment of buffer `b` to thread `t`. */
  function Assigned(sh: Shared, t: ThreadId, b: BufId): Shared
    requires t < |sh.cells|
  {
    sh.(cells := sh.cells[t := Cell(Some(b), Some(b))],
        allocatedBufs := sh.allocatedBufs + [b],
        tlsBufAddrs := sh.tlsBufAddrs + {t})
  }
}
