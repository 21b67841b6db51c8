/** A driver thread of the benchmarks, from its new buffer to what the buffer holds in the
    end, said of the accesses that were logged. */
module Drivers {
  import opened Multiples
  import opened Protocol
  import opened Packing
  import opened Rings
  import opened EventBuffers
  import opened Loggers

  // ---------------------------------------------------------------- one-word events

  /** The slot of event number `j` shows access `a`: its address, or all fields of it that
      the full layout keeps. */
  ghost predicate Shows(v: Variant, p: nat, slots: seq<Word>, j: nat, a: Access)
    requires p > 0
  {
    && j % p < |slots|
    && match v
       case LogAddr => slots[j % p] == a.addr
       case Prefetch => slots[j % p] == a.addr
       case CachedBufPtr => slots[j % p] == a.addr
       case LogSrcLoc => DecodeFull(slots[j % p]) == Visible(a)
       case LogFull => DecodeFull(slots[j % p]) == Visible(a)
  }

  /** The period of each function: the multiple of the batch at or past the size, or one
      more than the first deadline from which the size is reached, or the size itself. */
  ghost predicate IsPeriod(v: Variant, size: nat, batch: nat, p: nat)
    requires batch > 0
  {
    match v
    case LogAddr => p == size + 1
    case LogSrcLoc => p == size
    case LogFull => p % batch == 0 && size <= p < size + batch
    case CachedBufPtr => p > batch && (p - 1) % batch == 0 && size <= p < size + batch + (if size == 1 then 1 else 0)
    case Prefetch => p > batch && (p - 1) % batch == 0 && size <= p < size + batch + (if size == 1 then 1 else 0)
  }

  lemma PeriodIs(c: Config, v: Variant)
    requires Positive(c)
    ensures Period(c, v) > 0 && IsPeriod(v, c.maxEvents, c.batchSize, Period(c, v))
  {
    RoundUpBounds(c.maxEvents, c.batchSize);
    RoundUpBounds(FullFrom(c), c.batchSize);
  }

  lemma {:induction false} RepeatedAt<T>(xs: seq<T>, k: nat, j: nat)
    ensures |Repeated(xs, k)| == |xs| * k
    ensures j < |xs| * k ==> |xs| > 0 && j % |xs| < |xs| && Repeated(xs, k)[j] == xs[j % |xs|]
  {
    if k > 0 {
      var n := |xs| * (k - 1);
      assert |xs| * k == n + |xs|;
      RepeatedAt(xs, k - 1, j);
      if n <= j < n + |xs| { DivModUnique(j, |xs|, k - 1, j - n); }
    }
  }

  lemma WordShows(v: Variant, p: nat, slots: seq<Word>, j: nat, a: Access)
    requires p > 0 && InSlot(p, slots, j, WordsOf(v, [a])[0])
    ensures Shows(v, p, slots, j, a)
  {
    FullDecodes(a);
  }

  lemma SlotShows(v: Variant, p: nat, events: nat, slots: seq<Word>, accesses: seq<Access>, k: nat, j: nat)
    requires p > 0 && HoldsLast(p, events, slots, Repeated(WordsOf(v, accesses), k))
    requires j < |accesses| * k <= j + p
    ensures |accesses| > 0 && j % |accesses| < |accesses| && Shows(v, p, slots, j, accesses[j % |accesses|])
  {
    var words := Repeated(WordsOf(v, accesses), k);
    RepeatedAt(WordsOf(v, accesses), k, j);
    assert InSlot(p, slots, j, words[j]);
    var a := accesses[j % |accesses|];
    assert WordsOf(v, [a])[0] == WordsOf(v, accesses)[j % |accesses|];
    WordShows(v, p, slots, j, a);
  }

  /** What a log shows after some iterations over `accesses`. */
  ghost predicate ShowsAll(v: Variant, p: nat, s: Log, accesses: seq<Access>, k: nat)
    requires p > 0
  {
    && s.events == |accesses| * k % p
    && forall j: nat | j < |accesses| * k <= j + p && j % |accesses| < |accesses| ::
         Shows(v, p, s.slots, j, accesses[j % |accesses|])
  }

  /** Where the deadline is: the first multiple of the batch past the count, or at it for a
      post-incremented count, but not before the first one; the prefetching function starts
      again at the second. */
  ghost predicate OnTime(v: Variant, batch: nat, events: nat, next: nat)
    requires batch > 0
  {
    match v
    case LogFull => next % batch == 0 && events < next <= events + batch
    case CachedBufPtr => next % batch == 0 && events <= next && (next == batch || next < events + batch)
    case Prefetch =>
      next % batch == 0 && events <= next && (next == batch || next == 2 * batch || next < events + batch)
    case _ => true
  }

  lemma InStepOnTime(c: Config, v: Variant, s: Log)
    requires Positive(c) && InStep(c, v, s)
    ensures OnTime(v, c.batchSize, s.events, s.nextRdtscTime)
  {
    var n, b := s.nextRdtscTime, c.batchSize;
    if v.Prefetch? && n < 2 * b { DivModUnique(n, b, 1, n - b); }
  }

  /** From a fresh buffer, for all five functions: the number of events mod the period is the
      place of the next one, and the last accesses of a period are in their slots. */
  lemma LoggedAccesses(c: Config, v: Variant, mem: seq<Word>, accesses: seq<Access>, k: nat)
    requires Positive(c) && Regular(c, v) && |mem| >= c.Capacity()
    ensures var p, r := Period(c, v), Run(c, v, FreshLog(c, mem), Repeated(WordsOf(v, accesses), k));
            && p > 0 && IsPeriod(v, c.maxEvents, c.batchSize, p)
            && r.Some? && ShowsAll(v, p, r.value, accesses, k)
            && OnTime(v, c.batchSize, r.value.events, r.value.nextRdtscTime)
  {
    var p, words := Period(c, v), Repeated(WordsOf(v, accesses), k);
    PeriodIs(c, v);
    VariantPeriod(c, v, mem, words);
    RunIsRing(c, v, mem, words);
    RepeatedAt(WordsOf(v, accesses), k, 0);
    InStepOnTime(c, v, Run(c, v, FreshLog(c, mem), words).value);
    var r := Run(c, v, FreshLog(c, mem), words).value;
    forall j: nat | j < |accesses| * k <= j + p && j % |accesses| < |accesses|
      ensures Shows(v, p, r.slots, j, accesses[j % |accesses|])
    {
      SlotShows(v, p, r.events, r.slots, accesses, k, j);
    }
  }

  lemma FreshRuns(c: Config, size: nat, v: Variant, mem: seq<Word>)
    requires Positive(Sized(c, size)) && Regular(Sized(c, size), v) && |mem| >= Sized(c, size).Capacity()
    ensures Runs(c, size, v, FreshLog(Sized(c, size), mem))
  {
    RunIsRing(Sized(c, size), v, mem, []);
  }

  /** A driver thread: its buffer is new, and it makes the same accesses several times. */
  method DriverThread(v: Variant, c: Config, size: nat, accesses: seq<Access>, iterations: nat)
    returns (logBuf: EventBuffer, ghost p: nat)
    requires 0 < size <= c.maxEvents && c.batchSize > 0 && (v.Prefetch? ==> size > c.batchSize + 1)
    ensures fresh(logBuf) && p > 0 && IsPeriod(v, size, c.batchSize, p)
    ensures logBuf.events == |accesses| * iterations % p
    ensures OnTime(v, c.batchSize, logBuf.events, logBuf.nextRdtscTime)
    ensures forall j: nat | j < |accesses| * iterations <= j + p && j % |accesses| < |accesses| ::
              Shows(v, p, logBuf.buf[..], j, accesses[j % |accesses|])
  {
    logBuf := new EventBuffer(c, 0);
    ghost var mem := logBuf.buf[..];
    FreshRuns(c, size, v, mem);
    RunIterations(v, logBuf, size, accesses, iterations);
    LoggedAccesses(Sized(c, size), v, mem, accesses, iterations);
    p := Period(Sized(c, size), v);
  }

  // ---------------------------------------------------------------- two-word events

  /** The two slots of event number `j`, the first one even: header, location and value, then
      the address. */
  ghost predicate ShowsWide(p: nat, slots: seq<Word>, j: nat, a: Access)
    requires p > 0
  {
    var i := 2 * j % p;
    && i + 1 < |slots| && i % 2 == 0
    && DecodeWide(slots[i], slots[i + 1]) == WideFields(a) && slots[i + 1] == a.addr
  }

  lemma PairShows(p: nat, slots: seq<Word>, j: nat, a: Access)
    requires p > 0 && PairAt(p, slots, j, WidePairs([a])[0])
    ensures ShowsWide(p, slots, j, a)
  {
    WideExact(a);
  }

  ghost predicate ShowsAllWide(p: nat, s: Log, accesses: seq<Access>, k: nat)
    requires p > 0
  {
    && s.events == 2 * (|accesses| * k) % p
    && forall j: nat | j < |accesses| * k && 2 * (|accesses| * k) <= 2 * j + p && j % |accesses| < |accesses| ::
         ShowsWide(p, s.slots, j, accesses[j % |accesses|])
  }

  lemma LoggedWide(c: Config, mem: seq<Word>, accesses: seq<Access>, k: nat)
    requires Positive(c) && c.batchSize % 2 == 0 && |mem| >= c.Capacity()
    ensures var p, r := Period(c, LogFull), RunWide(c, FreshLog(c, mem), Repeated(WidePairs(accesses), k));
            && p > 0 && IsPeriod(LogFull, c.maxEvents, c.batchSize, p)
            && r.Some? && ShowsAllWide(p, r.value, accesses, k)
  {
    var p, pairs := Period(c, LogFull), Repeated(WidePairs(accesses), k);
    PeriodIs(c, LogFull);
    WidePeriod(c, mem, pairs);
    RepeatedAt(WidePairs(accesses), k, 0);
    var r := RunWide(c, FreshLog(c, mem), pairs).value;
    forall j: nat | j < |accesses| * k && 2 * (|accesses| * k) <= 2 * j + p && j % |accesses| < |accesses|
      ensures ShowsWide(p, r.slots, j, accesses[j % |accesses|])
    {
      RepeatedAt(WidePairs(accesses), k, j);
      assert PairAt(p, r.slots, j, pairs[j]);
      var a := accesses[j % |accesses|];
      assert WidePairs([a])[0] == WidePairs(accesses)[j % |accesses|];
      PairShows(p, r.slots, j, a);
    }
  }

  /** A driver thread of log_full_128. */
  method DriverThread128(c: Config, size: nat, accesses: seq<Access>, iterations: nat)
    returns (logBuf: EventBuffer, ghost p: nat)
    requires 0 < size <= c.maxEvents && c.batchSize > 0 && c.batchSize % 2 == 0
    ensures fresh(logBuf) && p > 0 && p % c.batchSize == 0 && size <= p < size + c.batchSize
    ensures logBuf.events == 2 * (|accesses| * iterations) % p
    ensures forall j: nat | j < |accesses| * iterations && 2 * (|accesses| * iterations) <= 2 * j + p
                            && j % |accesses| < |accesses| ::
              ShowsWide(p, logBuf.buf[..], j, accesses[j % |accesses|])
  {
    logBuf := new EventBuffer(c, 0);
    ghost var mem := logBuf.buf[..];
    FreshRuns(c, size, LogFull, mem);
    RunIterations128(logBuf, size, accesses, iterations);
    LoggedWide(Sized(c, size), mem, accesses, iterations);
    p := Period(Sized(c, size), LogFull);
  }
}
