/** The logging functions that work on one private buffer, and the loops that call them, as
    the code executes them.  Without the buffer manager the thread's pointer is never NULL.
    `size` is the number of events at which the function takes the buffer for full. */
module Loggers {
  import opened Protocol
  import opened Packing
  import opened Rings
  import opened EventBuffers

  ghost function BufferLog(b: EventBuffer): Log
    reads b, b.buf
  {
    Log(b.events, b.nextRdtscTime, b.buf[..])
  }

  ghost function RefLog(r: BufferRef): Log
    reads r, r.buf
  {
    Log(r.events, r.nextRdtscTime, r.buf[..])
  }

  /** The constants, with the size of the experiment. */
  function Sized(c: Config, size: nat): Config {
    c.(maxEvents := size)
  }

  // ---------------------------------------------------------------- one event

  method WriteLogAddr(logBuf: EventBuffer, size: nat, word: Word)
    requires logBuf.events < logBuf.buf.Length
    modifies logBuf`events, logBuf.buf
    ensures Some(BufferLog(logBuf)) == Step(Sized(logBuf.c, size), LogAddr, old(BufferLog(logBuf)), word)
  {
    logBuf.buf[logBuf.events] := word;
    var full := logBuf.events == size;
    logBuf.events := logBuf.events + 1;
    if full { logBuf.events := 0; }
  }

  method WriteLogSrcLoc(logBuf: EventBuffer, size: nat, word: Word)
    requires logBuf.events < logBuf.buf.Length
    modifies logBuf`events, logBuf.buf
    ensures Some(BufferLog(logBuf)) == Step(Sized(logBuf.c, size), LogSrcLoc, old(BufferLog(logBuf)), word)
  {
    logBuf.buf[logBuf.events] := word;
    logBuf.events := logBuf.events + 1;
    if logBuf.events >= size { logBuf.events := 0; }
  }

  method WritePrefetch(logBuf: EventBuffer, size: nat, word: Word)
    requires logBuf.events < logBuf.buf.Length
    modifies logBuf`events, logBuf`nextRdtscTime, logBuf.buf
    ensures Some(BufferLog(logBuf)) == Step(Sized(logBuf.c, size), Prefetch, old(BufferLog(logBuf)), word)
  {
    logBuf.buf[logBuf.events] := word;
    var hit := logBuf.events >= logBuf.nextRdtscTime;
    logBuf.events := logBuf.events + 1;
    if hit {
      if logBuf.events >= size {
        logBuf.events := 0;
        logBuf.nextRdtscTime := logBuf.c.batchSize;
      }
      logBuf.nextRdtscTime := logBuf.nextRdtscTime + logBuf.c.batchSize;
    }
  }

  /** The slow path of CACHED_BUF_PTR, LOG_FULL and LOG_FULL_128. */
  method SlowWrap(ref: BufferRef, size: nat)
    modifies ref`events, ref`nextRdtscTime
    ensures var c := ref.logBuf.c;
            if old(ref.events) >= size then ref.events == 0 && ref.nextRdtscTime == c.batchSize
            else ref.events == old(ref.events) && ref.nextRdtscTime == old(ref.nextRdtscTime) + c.batchSize
  {
    ref.nextRdtscTime := ref.nextRdtscTime + ref.logBuf.c.batchSize;
    if ref.events >= size {
      ref.events := 0;
      ref.nextRdtscTime := ref.logBuf.c.batchSize;
    }
  }

  method WriteCachedBufPtr(ref: BufferRef, size: nat, word: Word)
    requires ref.events < ref.buf.Length
    modifies ref`events, ref`nextRdtscTime, ref.buf
    ensures Some(RefLog(ref)) == Step(Sized(ref.logBuf.c, size), CachedBufPtr, old(RefLog(ref)), word)
  {
    ref.buf[ref.events] := word;
    var hit := ref.events >= ref.nextRdtscTime;
    ref.events := ref.events + 1;
    if hit { SlowWrap(ref, size); }
  }

  method WriteLogFull(ref: BufferRef, size: nat, word: Word)
    requires ref.events < ref.buf.Length
    modifies ref`events, ref`nextRdtscTime, ref.buf
    ensures Some(RefLog(ref)) == Step(Sized(ref.logBuf.c, size), LogFull, old(RefLog(ref)), word)
  {
    ref.buf[ref.events] := word;
    ref.events := ref.events + 1;
    if ref.events >= ref.nextRdtscTime { SlowWrap(ref, size); }
  }

  method WriteLogFull128(ref: BufferRef, size: nat, word0: Word, word1: Word)
    requires ref.events + 1 < ref.buf.Length
    modifies ref`events, ref`nextRdtscTime, ref.buf
    ensures Some(RefLog(ref)) == StepWide(Sized(ref.logBuf.c, size), old(RefLog(ref)), word0, word1)
  {
    ref.buf[ref.events] := word0;
    ref.events := ref.events + 1;
    ref.buf[ref.events] := word1;
    ref.events := ref.events + 1;
    if ref.events >= ref.nextRdtscTime { SlowWrap(ref, size); }
  }

  // ---------------------------------------------------------------- the loops

  /** The words a loop logs. */
  function WordsOf(v: Variant, accesses: seq<Access>): seq<Word> {
    seq(|accesses|, i requires 0 <= i < |accesses| =>
      if v.LogSrcLoc? || v.LogFull? then EncodeFull(accesses[i]) else accesses[i].addr)
  }

  /** A log on which the function keeps its period. */
  ghost predicate Runs(c: Config, size: nat, v: Variant, s: Log) {
    && Positive(Sized(c, size)) && Regular(Sized(c, size), v)
    && |s.slots| >= Sized(c, size).Capacity() && InStep(Sized(c, size), v, s)
  }

  /** One more word keeps the period and extends the run. */
  lemma OneMore(c: Config, size: nat, v: Variant, s0: Log, words: seq<Word>, i: nat, s: Log)
    requires i < |words| && Runs(c, size, v, s) && Some(s) == Run(Sized(c, size), v, s0, words[..i])
    ensures var r := Step(Sized(c, size), v, s, words[i]);
            && s.events < |s.slots| && r.Some? && Runs(c, size, v, r.value)
            && r == Run(Sized(c, size), v, s0, words[..i + 1])
  {
    StepIsRingStep(Sized(c, size), v, s, words[i]);
    assert words[..i + 1][..i] == words[..i];
  }

  /** run_log_addr, run_log_src_loc and run_prefetch_log_entries. */
  method RunDirect(v: Variant, logBuf: EventBuffer, size: nat, accesses: seq<Access>)
    requires v.LogAddr? || v.LogSrcLoc? || v.Prefetch?
    requires Runs(logBuf.c, size, v, BufferLog(logBuf))
    modifies logBuf`events, logBuf`nextRdtscTime, logBuf.buf
    ensures Runs(logBuf.c, size, v, BufferLog(logBuf))
    ensures Some(BufferLog(logBuf)) ==
            Run(Sized(logBuf.c, size), v, old(BufferLog(logBuf)), WordsOf(v, accesses))
  {
    ghost var c, words := Sized(logBuf.c, size), WordsOf(v, accesses);
    for i := 0 to |accesses|
      invariant Runs(logBuf.c, size, v, BufferLog(logBuf))
      invariant Some(BufferLog(logBuf)) == Run(c, v, old(BufferLog(logBuf)), words[..i])
    {
      OneMore(logBuf.c, size, v, old(BufferLog(logBuf)), words, i, BufferLog(logBuf));
      match v
      case LogAddr => WriteLogAddr(logBuf, size, accesses[i].addr);
      case LogSrcLoc => WriteLogSrcLoc(logBuf, size, EncodeFull(accesses[i]));
      case Prefetch => WritePrefetch(logBuf, size, accesses[i].addr);
    }
    assert words[..|accesses|] == words;
  }

  /** run_cached_buffer_ptr and run_log_full: a Ref, the loop, and the write-back, after
      which the buffer is as if the function had worked on it directly. */
  method RunCached(v: Variant, logBuf: EventBuffer, size: nat, accesses: seq<Access>)
    requires v.CachedBufPtr? || v.LogFull?
    requires Runs(logBuf.c, size, v, BufferLog(logBuf))
    modifies logBuf, logBuf.buf
    ensures Runs(logBuf.c, size, v, BufferLog(logBuf))
    ensures Some(BufferLog(logBuf)) ==
            Run(Sized(logBuf.c, size), v, old(BufferLog(logBuf)), WordsOf(v, accesses))
  {
    ghost var c, words := Sized(logBuf.c, size), WordsOf(v, accesses);
    var ref := new BufferRef(logBuf);
    for i := 0 to |accesses|
      invariant ref.logBuf == logBuf && ref.buf == logBuf.buf
      invariant Runs(logBuf.c, size, v, RefLog(ref))
      invariant Some(RefLog(ref)) == Run(c, v, old(BufferLog(logBuf)), words[..i])
    {
      OneMore(logBuf.c, size, v, old(BufferLog(logBuf)), words, i, RefLog(ref));
      match v
      case CachedBufPtr => WriteCachedBufPtr(ref, size, accesses[i].addr);
      case LogFull => WriteLogFull(ref, size, EncodeFull(accesses[i]));
    }
    assert words[..|accesses|] == words;
    ref.Destroy();
  }

  function WidePairs(accesses: seq<Access>): seq<(Word, Word)> {
    seq(|accesses|, i requires 0 <= i < |accesses| => EncodeWide(accesses[i]))
  }

  /** run_log_full_128, for an even batch and a buffer whose next event has an even slot. */
  method RunCached128(logBuf: EventBuffer, size: nat, accesses: seq<Access>)
    requires Runs(logBuf.c, size, LogFull, BufferLog(logBuf))
    requires logBuf.c.batchSize % 2 == 0 && logBuf.events % 2 == 0
    modifies logBuf, logBuf.buf
    ensures Runs(logBuf.c, size, LogFull, BufferLog(logBuf)) && logBuf.events % 2 == 0
    ensures Some(BufferLog(logBuf)) ==
            RunWide(Sized(logBuf.c, size), old(BufferLog(logBuf)), WidePairs(accesses))
  {
    ghost var c, pairs := Sized(logBuf.c, size), WidePairs(accesses);
    var ref := new BufferRef(logBuf);
    for i := 0 to |accesses|
      invariant ref.logBuf == logBuf && ref.buf == logBuf.buf && ref.events % 2 == 0
      invariant Runs(logBuf.c, size, LogFull, RefLog(ref))
      invariant Some(RefLog(ref)) == RunWide(c, old(BufferLog(logBuf)), pairs[..i])
    {
      WideStep(c, RefLog(ref), pairs[i].0, pairs[i].1);
      assert pairs[..i + 1][..i] == pairs[..i];
      var words := EncodeWide(accesses[i]);
      WriteLogFull128(ref, size, words.0, words.1);
    }
    assert pairs[..|accesses|] == pairs;
    ref.Destroy();
  }

  // ---------------------------------------------------------------- repeated runs

  function Repeated<T>(words: seq<T>, k: nat): seq<T> {
    if k == 0 then [] else Repeated(words, k - 1) + words
  }

  /** The iterations of a driver thread, for one-word events: each makes a new Ref if the function needs one, and
      together they log as one run of all the words. */
  method RunIterations(v: Variant, logBuf: EventBuffer, size: nat, accesses: seq<Access>, iterations: nat)
    requires Runs(logBuf.c, size, v, BufferLog(logBuf))
    modifies logBuf, logBuf.buf
    ensures Runs(logBuf.c, size, v, BufferLog(logBuf))
    ensures Some(BufferLog(logBuf)) ==
            Run(Sized(logBuf.c, size), v, old(BufferLog(logBuf)), Repeated(WordsOf(v, accesses), iterations))
  {
    ghost var c, words := Sized(logBuf.c, size), WordsOf(v, accesses);
    for i := 0 to iterations
      invariant Runs(logBuf.c, size, v, BufferLog(logBuf))
      invariant Some(BufferLog(logBuf)) == Run(c, v, old(BufferLog(logBuf)), Repeated(words, i))
    {
      RunAppend(c, v, old(BufferLog(logBuf)), Repeated(words, i), words);
      if v.CachedBufPtr? || v.LogFull? {
        RunCached(v, logBuf, size, accesses);
      } else {
        RunDirect(v, logBuf, size, accesses);
      }
    }
  }

  /** The same for run_log_full_128. */
  method RunIterations128(logBuf: EventBuffer, size: nat, accesses: seq<Access>, iterations: nat)
    requires Runs(logBuf.c, size, LogFull, BufferLog(logBuf))
    requires logBuf.c.batchSize % 2 == 0 && logBuf.events % 2 == 0
    modifies logBuf, logBuf.buf
    ensures Runs(logBuf.c, size, LogFull, BufferLog(logBuf)) && logBuf.events % 2 == 0
    ensures Some(BufferLog(logBuf)) ==
            RunWide(Sized(logBuf.c, size), old(BufferLog(logBuf)), Repeated(WidePairs(accesses), iterations))
  {
    ghost var c, pairs := Sized(logBuf.c, size), WidePairs(accesses);
    for i := 0 to iterations
      invariant Runs(logBuf.c, size, LogFull, BufferLog(logBuf)) && logBuf.events % 2 == 0
      invariant Some(BufferLog(logBuf)) == RunWide(c, old(BufferLog(logBuf)), Repeated(pairs, i))
    {
      RunWideAppend(c, old(BufferLog(logBuf)), Repeated(pairs, i), pairs);
      RunCached128(logBuf, size, accesses);
    }
  }
}
