/** The single-threaded logging loops: checking for a full buffer only when a moving
    deadline is hit, against a plain ring that checks on every event. */
module Rings {
  import opened Multiples
  import opened Protocol

  // ---------------------------------------------------------------- the plain ring

  datatype Ring = Ring(events: nat, slots: seq<Word>)

  /** Store, advance, wrap at `p`. */
  function RingStep(p: nat, r: Ring, w: Word): Ring
    requires r.events < |r.slots|
  {
    Ring(if r.events + 1 == p then 0 else r.events + 1, r.slots[r.events := w])
  }

  function RingRun(p: nat, mem: seq<Word>, ws: seq<Word>): (r: Ring)
    requires 0 < p <= |mem|
    ensures r.events < p && |r.slots| == |mem|
  {
    if ws == [] then Ring(0, mem) else RingStep(p, RingRun(p, mem, ws[..|ws| - 1]), ws[|ws| - 1])
  }

  lemma RingAppend(p: nat, mem: seq<Word>, ws: seq<Word>, w: Word)
    requires 0 < p <= |mem|
    ensures RingRun(p, mem, ws + [w]) == RingStep(p, RingRun(p, mem, ws), w)
  {
    assert (ws + [w])[..|ws|] == ws;
  }

  lemma ModStep(n: nat, p: nat)
    requires p > 0
    ensures (n + 1) % p == if n % p + 1 == p then 0 else n % p + 1
  {
    var q, r := n / p, n % p;
    assert n == q * p + r;
    if r + 1 == p {
      assert n + 1 == (q + 1) * p + 0;
      DivModUnique(n + 1, p, q + 1, 0);
    } else {
      DivModUnique(n + 1, p, q, r + 1);
    }
  }

  lemma ModApart(j: nat, n: nat, p: nat)
    requires p > 0 && j < n < j + p
    ensures j % p != n % p
  {
    if j % p == n % p {
      var a, b := j / p, n / p;
      assert j == a * p + j % p && n == b * p + n % p;
      assert n - j == (b - a) * p;
      MulMonotone(b - a, 0, p);
      MulMonotone(1, b - a, p);
      assert false;
    }
  }

  /** A log of period p after the events `ws`: it is at |ws| mod p, and each of the last p
      events is in the slot of its number mod p. */
  ghost predicate HoldsLast(p: nat, events: nat, slots: seq<Word>, ws: seq<Word>)
    requires p > 0
  {
    && events == |ws| % p
    && forall j | 0 <= j < |ws| && |ws| <= j + p :: InSlot(p, slots, j, ws[j])
  }

  /** Word number `j` is in the slot of its number. */
  ghost predicate InSlot(p: nat, slots: seq<Word>, j: nat, w: Word)
    requires p > 0
  {
    j % p < |slots| && slots[j % p] == w
  }

  /** A plain ring does; slots past p, or not reached yet, are untouched. */
  lemma {:induction false} RingContents(p: nat, mem: seq<Word>, ws: seq<Word>)
    requires 0 < p <= |mem|
    ensures var r := RingRun(p, mem, ws);
            && HoldsLast(p, r.events, r.slots, ws)
            && (forall i | 0 <= i < |mem| && (i >= p || i >= |ws|) :: r.slots[i] == mem[i])
  {
    if ws != [] {
      var n := |ws| - 1;
      var before := RingRun(p, mem, ws[..n]);
      RingContents(p, mem, ws[..n]);
      ModStep(n, p);
      forall j | 0 <= j < |ws| && |ws| <= j + p
        ensures InSlot(p, RingRun(p, mem, ws).slots, j, ws[j])
      {
        if j < n {
          ModApart(j, n, p);
          assert InSlot(p, before.slots, j, ws[..n][j]);
        }
      }
      ModAtMost(n, p);
    }
  }

  lemma ModAtMost(n: nat, p: nat)
    requires p > 0
    ensures n % p <= n
  {
    assert n == n / p * p + n % p;
    MulMonotone(0, n / p, p);
  }

  // ---------------------------------------------------------------- the loops of the code

  /** The counters and the storage that a logging function works on. */
  datatype Log = Log(events: nat, nextRdtscTime: nat, slots: seq<Word>)

  datatype Variant =
    | LogAddr        // post-increment, compared for equality with the size
    | LogSrcLoc      // pre-increment, compared with the size
    | LogFull        // pre-increment against the deadline, size checked when it is hit
    | CachedBufPtr   // post-increment against the deadline
    | Prefetch       // as before, but the deadline restarts one batch late

  /** One call on a pointer that is not NULL; None if it would store past the storage. */
  function Step(c: Config, v: Variant, s: Log, w: Word): Option<Log> {
    if s.events >= |s.slots| then None
    else
      var e, slots, b := s.events, s.slots[s.events := w], c.batchSize;
      match v
      case LogAddr =>
        Some(Log(if e == c.maxEvents then 0 else e + 1, s.nextRdtscTime, slots))
      case LogSrcLoc =>
        Some(Log(if e + 1 >= c.maxEvents then 0 else e + 1, s.nextRdtscTime, slots))
      case LogFull =>
        if e + 1 >= s.nextRdtscTime then
          if e + 1 >= c.maxEvents then Some(Log(0, b, slots)) else Some(Log(e + 1, s.nextRdtscTime + b, slots))
        else Some(Log(e + 1, s.nextRdtscTime, slots))
      case CachedBufPtr =>
        if e >= s.nextRdtscTime then
          if e + 1 >= c.maxEvents then Some(Log(0, b, slots)) else Some(Log(e + 1, s.nextRdtscTime + b, slots))
        else Some(Log(e + 1, s.nextRdtscTime, slots))
      case Prefetch =>
        if e >= s.nextRdtscTime then
          if e + 1 >= c.maxEvents then Some(Log(0, b + b, slots)) else Some(Log(e + 1, s.nextRdtscTime + b, slots))
        else Some(Log(e + 1, s.nextRdtscTime, slots))
  }

  function Run(c: Config, v: Variant, s: Log, ws: seq<Word>): Option<Log> {
    if ws == [] then Some(s)
    else
      var before := Run(c, v, s, ws[..|ws| - 1]);
      if before.None? then None else Step(c, v, before.value, ws[|ws| - 1])
  }

  /** Runs one after the other, as with a new Ref on the same buffer, are one run. */
  lemma {:induction false} RunAppend(c: Config, v: Variant, s: Log, ws: seq<Word>, more: seq<Word>)
    ensures var before := Run(c, v, s, ws);
            Run(c, v, s, ws + more) == if before.None? then None else Run(c, v, before.value, more)
  {
    if more == [] {
      assert ws + more == ws;
    } else {
      var n := |more| - 1;
      assert (ws + more)[..|ws| + n] == ws + more[..n];
      RunAppend(c, v, s, ws, more[..n]);
    }
  }

  function FreshLog(c: Config, mem: seq<Word>): Log {
    Log(0, c.batchSize, mem)
  }

  // ---------------------------------------------------------------- the periods

  predicate Positive(c: Config) {
    c.maxEvents >= 1 && c.batchSize >= 1
  }

  /** The first deadline at which a post-incremented count makes the buffer full, before it
      is rounded up to a deadline. */
  function FullFrom(c: Config): nat {
    if c.maxEvents > 1 then c.maxEvents - 1 else 1
  }

  function Period(c: Config, v: Variant): nat
    requires Positive(c)
  {
    match v
    case LogAddr => c.maxEvents + 1
    case LogSrcLoc => c.maxEvents
    case LogFull => RoundUp(c.maxEvents, c.batchSize)
    case CachedBufPtr => RoundUp(FullFrom(c), c.batchSize) + 1
    case Prefetch => RoundUp(FullFrom(c), c.batchSize) + 1
  }

  lemma PeriodFits(c: Config, v: Variant)
    requires Positive(c)
    ensures 0 < Period(c, v) <= c.Capacity()
  {
    RoundUpBounds(c.maxEvents, c.batchSize);
    RoundUpBounds(FullFrom(c), c.batchSize);
  }

  /** Where the deadline is, at every call of a run that keeps the period. */
  ghost predicate InStep(c: Config, v: Variant, s: Log)
    requires Positive(c)
  {
    var b := c.batchSize;
    && s.events < Period(c, v)
    && (v.LogFull? || v.CachedBufPtr? || v.Prefetch? ==> s.nextRdtscTime % b == 0 && b <= s.nextRdtscTime)
    && (v.LogFull? ==> s.events < s.nextRdtscTime <= Period(c, v) && s.nextRdtscTime - b <= s.events)
    && (v.CachedBufPtr? || v.Prefetch? ==> s.events <= s.nextRdtscTime < Period(c, v))
    && (v.CachedBufPtr? ==> s.nextRdtscTime == b || s.nextRdtscTime - b < s.events)
    && (v.Prefetch? ==> s.nextRdtscTime <= 2 * b || s.nextRdtscTime - b < s.events)
  }

  /** The prefetch variant restarts its deadline at two batches, so it keeps the period
      only if a buffer cannot be full at the first. */
  predicate Regular(c: Config, v: Variant) {
    v.Prefetch? ==> c.maxEvents > c.batchSize + 1
  }

  lemma DeadlineHit(m: nat, next: nat, b: nat)
    requires b > 0 && next % b == 0 && b <= next && next <= RoundUp(m, b)
    ensures if next >= m then next == RoundUp(m, b) else next + b <= RoundUp(m, b)
    ensures (next + b) % b == 0
  {
    RoundUpBounds(m, b);
    ModAdd(next, b);
    if next < RoundUp(m, b) { StepToMultiple(next, RoundUp(m, b), b); }
  }

  ghost predicate IsStep(c: Config, v: Variant, s: Log, w: Word)
    requires Positive(c)
  {
    var r := Step(c, v, s, w);
    && 0 < Period(c, v) && s.events < |s.slots| && r.Some? && InStep(c, v, r.value)
    && Ring(r.value.events, r.value.slots) == RingStep(Period(c, v), Ring(s.events, s.slots), w)
  }

  lemma LogFullStep(c: Config, s: Log, w: Word)
    requires Positive(c) && InStep(c, LogFull, s) && |s.slots| >= c.Capacity()
    ensures IsStep(c, LogFull, s, w)
  {
    PeriodFits(c, LogFull);
    RoundUpBounds(c.maxEvents, c.batchSize);
    ModAdd(0, c.batchSize);
    DeadlineHit(c.maxEvents, s.nextRdtscTime, c.batchSize);
  }

  lemma CachedStep(c: Config, s: Log, w: Word)
    requires Positive(c) && InStep(c, CachedBufPtr, s) && |s.slots| >= c.Capacity()
    ensures IsStep(c, CachedBufPtr, s, w)
  {
    PeriodFits(c, CachedBufPtr);
    RoundUpBounds(FullFrom(c), c.batchSize);
    ModAdd(0, c.batchSize);
    DeadlineHit(FullFrom(c), s.nextRdtscTime, c.batchSize);
  }

  lemma PrefetchStep(c: Config, s: Log, w: Word)
    requires Positive(c) && Regular(c, Prefetch) && InStep(c, Prefetch, s) && |s.slots| >= c.Capacity()
    ensures IsStep(c, Prefetch, s, w)
  {
    var b := c.batchSize;
    PeriodFits(c, Prefetch);
    RoundUpBounds(FullFrom(c), b);
    ModAdd(0, b);
    ModAdd(b, b);
    DeadlineHit(FullFrom(c), s.nextRdtscTime, b);
    DeadlineHit(FullFrom(c), b, b);
  }

  lemma StepIsRingStep(c: Config, v: Variant, s: Log, w: Word)
    requires Positive(c) && Regular(c, v) && InStep(c, v, s) && |s.slots| >= c.Capacity()
    ensures var r := Step(c, v, s, w);
            && r.Some? && InStep(c, v, r.value)
            && s.events < |s.slots|
            && Ring(r.value.events, r.value.slots) == RingStep(Period(c, v), Ring(s.events, s.slots), w)
  {
    match v
    case LogFull => LogFullStep(c, s, w);
    case CachedBufPtr => CachedStep(c, s, w);
    case Prefetch => PrefetchStep(c, s, w);
    case _ => PeriodFits(c, v);
  }

  /** Every variant, on a pointer that is never taken away, is a plain ring of its period:
      the deadline saves the check on all other events and changes nothing else. */
  lemma {:induction false} RunIsRing(c: Config, v: Variant, mem: seq<Word>, ws: seq<Word>)
    requires Positive(c) && Regular(c, v) && |mem| >= c.Capacity()
    ensures 0 < Period(c, v) <= |mem|
    ensures var r := Run(c, v, FreshLog(c, mem), ws);
            && r.Some? && InStep(c, v, r.value)
            && Ring(r.value.events, r.value.slots) == RingRun(Period(c, v), mem, ws)
  {
    var b := c.batchSize;
    PeriodFits(c, v);
    if ws == [] {
      RoundUpBounds(c.maxEvents, b);
      RoundUpBounds(FullFrom(c), b);
      ModAdd(0, b);
    } else {
      var n := |ws| - 1;
      RunIsRing(c, v, mem, ws[..n]);
      StepIsRingStep(c, v, Run(c, v, FreshLog(c, mem), ws[..n]).value, ws[n]);
    }
  }

  /** What that means for the buffer, for all five variants. */
  lemma VariantPeriod(c: Config, v: Variant, mem: seq<Word>, ws: seq<Word>)
    requires Positive(c) && Regular(c, v) && |mem| >= c.Capacity()
    ensures var p, r := Period(c, v), Run(c, v, FreshLog(c, mem), ws);
            && 0 < p <= c.Capacity() && r.Some? && HoldsLast(p, r.value.events, r.value.slots, ws)
  {
    PeriodFits(c, v);
    RunIsRing(c, v, mem, ws);
    RingContents(Period(c, v), mem, ws);
  }

  // ---------------------------------------------------------------- when the prefetch variant is irregular

  /** With M <= B + 1 the first lap of the prefetch variant has B + 1 events, and then the
      deadline is one batch late. */
  lemma {:induction false} FirstLap(c: Config, mem: seq<Word>, ws: seq<Word>)
    requires Positive(c) && c.maxEvents <= c.batchSize + 1 && |mem| >= c.Capacity() && |ws| <= c.batchSize + 1
    ensures var r, n := Run(c, Prefetch, FreshLog(c, mem), ws), |ws|;
            && r.Some? && |r.value.slots| == |mem|
            && (if n <= c.batchSize then r.value.events == n && r.value.nextRdtscTime == c.batchSize
                else r.value.events == 0 && r.value.nextRdtscTime == 2 * c.batchSize)
  {
    if ws != [] { FirstLap(c, mem, ws[..|ws| - 1]); }
  }

  lemma {:induction false} SecondLap(c: Config, mem: seq<Word>, ws: seq<Word>, n: nat)
    requires Positive(c) && c.maxEvents <= c.batchSize + 1 && |mem| >= c.Capacity()
    requires |ws| == c.batchSize + 1 + n && n <= 2 * c.batchSize
    ensures var r := Run(c, Prefetch, FreshLog(c, mem), ws);
            r.Some? ==> r.value.events == n && r.value.nextRdtscTime == 2 * c.batchSize && |r.value.slots| == |mem|
  {
    if n == 0 { FirstLap(c, mem, ws); } else { SecondLap(c, mem, ws[..|ws| - 1], n - 1); }
  }

  /** The prefetch variant keeps its period on every run exactly if M > B + 1. */
  lemma PrefetchRegularIff(c: Config)
    requires Positive(c)
    ensures Regular(c, Prefetch) <==> KeepsPeriod(c, Prefetch)
  {
    if Regular(c, Prefetch) {
      forall mem: seq<Word>, ws: seq<Word> | |mem| >= c.Capacity()
        ensures AtPeriod(c, Prefetch, mem, ws)
      {
        VariantPeriod(c, Prefetch, mem, ws);
      }
    } else {
      var b := c.batchSize;
      var mem: seq<Word> := seq(c.Capacity(), i => 0);
      var ws: seq<Word> := seq(2 * (b + 1), i => 0);
      SecondLap(c, mem, ws, b + 1);
      OneBatch(FullFrom(c), b);
      assert |ws| == 2 * Period(c, Prefetch) + 0;
      DivModUnique(|ws|, Period(c, Prefetch), 2, 0);
      assert !AtPeriod(c, Prefetch, mem, ws);
    }
  }

  lemma OneBatch(n: nat, b: nat)
    requires 0 < n <= b
    ensures RoundUp(n, b) == b
  {
    DivModUnique(n + b - 1, b, 1, n - 1);
  }

  ghost predicate AtPeriod(c: Config, v: Variant, mem: seq<Word>, ws: seq<Word>)
    requires Positive(c)
  {
    var r := Run(c, v, FreshLog(c, mem), ws);
    Period(c, v) > 0 && r.Some? && r.value.events == |ws| % Period(c, v)
  }

  ghost predicate KeepsPeriod(c: Config, v: Variant)
    requires Positive(c)
  {
    forall mem: seq<Word>, ws: seq<Word> | |mem| >= c.Capacity() :: AtPeriod(c, v, mem, ws)
  }

  // ---------------------------------------------------------------- two-word events

  /** One call of log_full_128: both words, then the test of log_full. */
  function StepWide(c: Config, s: Log, w0: Word, w1: Word): Option<Log> {
    if s.events + 1 >= |s.slots| then None
    else
      var e, slots := s.events + 2, s.slots[s.events := w0][s.events + 1 := w1];
      if e >= s.nextRdtscTime then
        if e >= c.maxEvents then Some(Log(0, c.batchSize, slots)) else Some(Log(e, s.nextRdtscTime + c.batchSize, slots))
      else Some(Log(e, s.nextRdtscTime, slots))
  }

  function RunWide(c: Config, s: Log, es: seq<(Word, Word)>): Option<Log> {
    if es == [] then Some(s)
    else
      var before := RunWide(c, s, es[..|es| - 1]);
      if before.None? then None else StepWide(c, before.value, es[|es| - 1].0, es[|es| - 1].1)
  }

  lemma {:induction false} RunWideAppend(c: Config, s: Log, es: seq<(Word, Word)>, more: seq<(Word, Word)>)
    ensures var before := RunWide(c, s, es);
            RunWide(c, s, es + more) == if before.None? then None else RunWide(c, before.value, more)
  {
    if more == [] {
      assert es + more == es;
    } else {
      var n := |more| - 1;
      assert (es + more)[..|es| + n] == es + more[..n];
      RunWideAppend(c, s, es, more[..n]);
    }
  }

  function Flatten(es: seq<(Word, Word)>): (ws: seq<Word>)
    ensures |ws| == 2 * |es|
  {
    if es == [] then []
    else Flatten(es[..|es| - 1]) + [es[|es| - 1].0, es[|es| - 1].1]
  }

  /** With an even batch the deadline is never hit between the two words of an event. */
  lemma EvenDeadline(c: Config, s: Log)
    requires Positive(c) && c.batchSize % 2 == 0 && InStep(c, LogFull, s) && s.events % 2 == 0
    ensures s.events + 1 < s.nextRdtscTime && s.events + 2 <= Period(c, LogFull) <= c.Capacity()
  {
    PeriodFits(c, LogFull);
    EvenMultiple(s.nextRdtscTime, c.batchSize);
    assert (s.events + 1) % 2 == 1;
  }

  lemma WideIsTwoSteps(c: Config, s: Log, w0: Word, w1: Word)
    requires s.events + 1 < s.nextRdtscTime && s.events + 1 < |s.slots| && s.events % 2 == 0
    ensures Step(c, LogFull, s, w0).Some?
    ensures StepWide(c, s, w0, w1) == Step(c, LogFull, Step(c, LogFull, s, w0).value, w1)
    ensures StepWide(c, s, w0, w1).Some? && StepWide(c, s, w0, w1).value.events % 2 == 0
  {
  }

  /** One event keeps the log in step, and the next event on an even slot. */
  lemma WideStep(c: Config, s: Log, w0: Word, w1: Word)
    requires Positive(c) && c.batchSize % 2 == 0 && InStep(c, LogFull, s) && s.events % 2 == 0
    requires |s.slots| >= c.Capacity()
    ensures var r := StepWide(c, s, w0, w1);
            && s.events + 1 < |s.slots| && r.Some? && InStep(c, LogFull, r.value)
            && r.value.events % 2 == 0 && |r.value.slots| == |s.slots|
  {
    EvenDeadline(c, s);
    WideIsTwoSteps(c, s, w0, w1);
    StepIsRingStep(c, LogFull, s, w0);
    StepIsRingStep(c, LogFull, Step(c, LogFull, s, w0).value, w1);
  }

  lemma EvenMultiple(n: nat, b: nat)
    requires b > 0 && b % 2 == 0 && n % b == 0
    ensures n % 2 == 0
  {
    var h := b / 2;
    assert n == n / b * b && b == 2 * h;
    assert n == 2 * (n / b * h);
  }

  /** log_full_128 with an even batch logs the words of its events as log_full would; it
      always starts an event on an even slot. */
  lemma {:induction false} WideIsFull(c: Config, mem: seq<Word>, es: seq<(Word, Word)>)
    requires Positive(c) && c.batchSize % 2 == 0 && |mem| >= c.Capacity()
    ensures RunWide(c, FreshLog(c, mem), es) == Run(c, LogFull, FreshLog(c, mem), Flatten(es))
    ensures RunWide(c, FreshLog(c, mem), es).Some? && RunWide(c, FreshLog(c, mem), es).value.events % 2 == 0
  {
    if es != [] {
      var n := |es| - 1;
      var s := FreshLog(c, mem);
      var ws, w0, w1 := Flatten(es[..n]), es[n].0, es[n].1;
      WideIsFull(c, mem, es[..n]);
      RunIsRing(c, LogFull, mem, ws);
      EvenDeadline(c, Run(c, LogFull, s, ws).value);
      WideIsTwoSteps(c, Run(c, LogFull, s, ws).value, w0, w1);
      assert Flatten(es)[..2 * n + 1] == ws + [w0] && (ws + [w0])[..2 * n] == ws;
    }
  }

  /** Period and contents of log_full_128: an event is never split by the wrap. */
  lemma WidePeriod(c: Config, mem: seq<Word>, es: seq<(Word, Word)>)
    requires Positive(c) && c.batchSize % 2 == 0 && |mem| >= c.Capacity()
    ensures var p, r := Period(c, LogFull), RunWide(c, FreshLog(c, mem), es);
            && p > 0 && p % 2 == 0 && r.Some? && r.value.events == 2 * |es| % p
            && forall j | 0 <= j < |es| && 2 * |es| <= 2 * j + p :: PairAt(p, r.value.slots, j, es[j])
  {
    var p, r, ws := Period(c, LogFull), RunWide(c, FreshLog(c, mem), es), Flatten(es);
    PeriodFits(c, LogFull);
    RoundUpBounds(c.maxEvents, c.batchSize);
    EvenMultiple(p, c.batchSize);
    WideIsFull(c, mem, es);
    VariantPeriod(c, LogFull, mem, ws);
    RunIsRing(c, LogFull, mem, ws);
    forall j | 0 <= j < |es| && 2 * |es| <= 2 * j + p ensures PairAt(p, r.value.slots, j, es[j]) {
      FlattenAt(es, j);
      assert InSlot(p, r.value.slots, 2 * j, ws[2 * j]) && InSlot(p, r.value.slots, 2 * j + 1, ws[2 * j + 1]);
      PairInRing(p, r.value.slots, j, es[j]);
    }
  }

  /** Event `j` of two words is in two neighbouring slots below the period. */
  ghost predicate PairAt(p: nat, slots: seq<Word>, j: nat, e: (Word, Word))
    requires p > 0
  {
    var i := 2 * j % p;
    i + 1 < p <= |slots| && i % 2 == 0 && slots[i] == e.0 && slots[i + 1] == e.1
  }

  lemma PairInRing(p: nat, slots: seq<Word>, j: nat, e: (Word, Word))
    requires 0 < p <= |slots| && p % 2 == 0
    requires InSlot(p, slots, 2 * j, e.0) && InSlot(p, slots, 2 * j + 1, e.1)
    ensures PairAt(p, slots, j, e)
  {
    EvenSlot(j, p);
  }

  lemma EvenSlot(j: nat, p: nat)
    requires p > 0 && p % 2 == 0
    ensures 2 * j % p % 2 == 0 && 2 * j % p + 1 < p && (2 * j + 1) % p == 2 * j % p + 1
  {
    var h := p / 2;
    assert 2 * j == 2 * j / p * p + 2 * j % p && p == 2 * h;
    assert 2 * j % p == 2 * (j - 2 * j / p * h);
    ModStep(2 * j, p);
  }

  lemma {:induction false} FlattenAt(es: seq<(Word, Word)>, j: nat)
    requires j < |es|
    ensures Flatten(es)[2 * j] == es[j].0 && Flatten(es)[2 * j + 1] == es[j].1
  {
    if j < |es| - 1 { FlattenAt(es[..|es| - 1], j); }
  }
}
