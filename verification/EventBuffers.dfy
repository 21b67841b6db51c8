/** Event buffers and the references threads log through, as the objects of EventBuffer.h. */
module EventBuffers {
  import opened Protocol

  class EventBuffer {
    const c: Config
    var events: nat
    var nextRdtscTime: nat
    const buf: array<Word>
    var threadId: int
    var epoch: int
    var closed: bool
    ghost const id: BufId   // its place in the order of creation

    /** The storage of a new buffer is not initialised. */
    constructor (c: Config, ghost id: BufId)
      ensures this.c == c && this.id == id && fresh(buf) && buf.Length == c.Capacity()
      ensures IsReset()
    {
      this.c := c;
      this.id := id;
      buf := new Word[c.Capacity()];
      new;
      Reset();
    }

    ghost predicate IsReset()
      reads this
    {
      events == 0 && nextRdtscTime == c.batchSize && threadId == -1 && epoch == -1 && !closed
    }

    method Reset()
      modifies this
      ensures IsReset()
    {
      events := 0;
      nextRdtscTime := c.batchSize;
      threadId := -1;
      epoch := -1;
      closed := false;
    }

    ghost predicate Assigned()
      reads this
    {
      threadId >= 0 && epoch >= 0
    }

    ghost function View(): Buffer
      reads this, buf
      requires Assigned()
    {
      Buffer(events, nextRdtscTime, buf[..], threadId, epoch, closed)
    }
  }

  /** EventBuffer::Ref: the cached fields of the buffer a thread logs into. */
  class BufferRef {
    var logBuf: EventBuffer
    var buf: array<Word>
    var events: nat
    var nextRdtscTime: nat

    constructor (logBuf: EventBuffer)
      ensures this.logBuf == logBuf && buf == logBuf.buf
      ensures events == logBuf.events && nextRdtscTime == logBuf.nextRdtscTime
    {
      this.logBuf := logBuf;
      buf := logBuf.buf;
      events := logBuf.events;
      nextRdtscTime := logBuf.nextRdtscTime;
    }

    ghost function View(): Ref
      reads this
    {
      Ref(logBuf.id, events, nextRdtscTime)
    }

    /** ~Ref */
    method Destroy()
      modifies logBuf
      ensures logBuf.events == events && logBuf.nextRdtscTime == nextRdtscTime
      ensures logBuf.threadId == old(logBuf.threadId) && logBuf.epoch == old(logBuf.epoch)
      ensures logBuf.closed == old(logBuf.closed)
    {
      logBuf.events := events;
      logBuf.nextRdtscTime := nextRdtscTime;
    }

    /** The result says whether the assertion held; if not, nothing changes. */
    method UpdateLogBuffer(curBuf: EventBuffer?) returns (ok: bool)
      requires curBuf != null ==> curBuf.c == logBuf.c
      modifies this, logBuf
      ensures ok == (curBuf != null && curBuf != old(logBuf))
      ensures !ok ==> unchanged(this) && unchanged(logBuf)
      ensures ok ==>
                && old(logBuf).events == old(events) && old(logBuf).closed
                && old(logBuf).nextRdtscTime == old(logBuf.nextRdtscTime)
                && old(logBuf).threadId == old(logBuf.threadId)
                && old(logBuf).epoch == old(logBuf.epoch)
                && logBuf == curBuf && buf == logBuf.buf && View() == Ref(logBuf.id, 0, logBuf.c.batchSize)
    {
      ok := curBuf != null && curBuf != logBuf;
      if ok {
        logBuf.events := events;
        logBuf.closed := true;
        logBuf := curBuf;
        buf := curBuf.buf;
        events := 0;
        nextRdtscTime := curBuf.c.batchSize;
      }
    }
  }
}
