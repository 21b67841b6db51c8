/** A run that fails: one thread that fills buffers while no worker gets to run.  With
    the source's constants it takes 33 full buffers; nothing but the too-many-workers
    branch is needed to make the assertion of updateLogBuffer fail. */
module SkipWitness {
  import opened Protocol
  import opened Ownership

  lemma Extend(c: Config, ls: seq<Label>, l: Label)
    requires Legal(c, ls) && Enabled(c, After(c, ls), l)
    ensures Legal(c, ls + [l]) && After(c, ls + [l]) == Next(c, After(c, ls), l)
  {
    assert (ls + [l])[..|ls|] == ls;
  }

  /** Thread 0 alone; it has the only buffer of the epoch, nothing is free and `k`
      batches wait for a worker. */
  ghost predicate Alone(c: Config, s: State, b: BufId, k: nat) {
    && InRange(s) && s.fault.None? && !s.orphaned && |s.threads| == 1
    && b < |s.sh.bufs| && s.sh.bufs[b].epoch == s.sh.epoch && |s.sh.bufs[b].slots| == c.Capacity()
    && s.sh.allocatedBufs == [b] && s.sh.freeBufs == [] && s.sh.tlsBufAddrs == {0}
    && s.sh.cells[0] == Cell(Some(b), Some(b)) && s.sh.activeWorkers == k
  }

  /** ... and is filling its buffer. */
  ghost predicate Filling(c: Config, s: State, b: BufId, k: nat)
    requires c.Valid()
  {
    && Alone(c, s, b, k) && !s.dropped
    && var th := s.threads[0];
       && th.ref.logBuf == b && Deadline(c, th.ref.events, th.ref.nextRdtscTime)
       && (th.pc == Ready || th.pc == Loaded(0, Some(b)) || th.pc == Stored(0, Some(b)))
  }

  ghost predicate IsFull(c: Config, s: State, b: BufId, k: nat) {
    Alone(c, s, b, k) && !s.dropped && s.threads[0].ref.logBuf == b && s.threads[0].pc == Full
  }

  /** The statement a filling thread is at. */
  function Statement(pc: Pc): Label {
    match pc
    case Loaded(_, _) => Store(0)
    case Stored(_, _) => Count(0)
    case _ => LoadPtr(0, 0)
  }

  /** What is left until the buffer is full. */
  ghost function StepsLeft(c: Config, th: Thread): nat
    requires c.Valid() && th.ref.events <= LastIndex(c)
  {
    3 * (LastIndex(c) - th.ref.events) + (match th.pc case Ready => 3 case Loaded(_, _) => 2 case _ => 1)
  }

  lemma FillStep(c: Config, s: State, b: BufId, k: nat)
    requires c.Valid() && Filling(c, s, b, k)
    ensures Enabled(c, s, Statement(s.threads[0].pc))
    ensures var s' := Next(c, s, Statement(s.threads[0].pc));
            || IsFull(c, s', b, k)
            || (Filling(c, s', b, k) && StepsLeft(c, s'.threads[0]) < StepsLeft(c, s.threads[0]))
  {
    var r := s.threads[0].ref;
    LastIndexInside(c);
    if r.events >= r.nextRdtscTime { DeadlineMoves(c, r.nextRdtscTime); }
  }

  lemma FillUp(c: Config, ls: seq<Label>, b: BufId, k: nat) returns (ls': seq<Label>)
    requires c.Valid() && Legal(c, ls) && Filling(c, After(c, ls), b, k)
    ensures Legal(c, ls') && IsFull(c, After(c, ls'), b, k)
    decreases StepsLeft(c, After(c, ls).threads[0])
  {
    var s := After(c, ls);
    FillStep(c, s, b, k);
    Extend(c, ls, Statement(s.threads[0].pc));
    ls' := ls + [Statement(s.threads[0].pc)];
    if !IsFull(c, After(c, ls'), b, k) { ls' := FillUp(c, ls', b, k); }
  }

  /** Thread 0 is in the slow path, with `f` the free buffers. */
  ghost predicate Between(c: Config, s: State, b: BufId, k: nat, f: seq<BufId>) {
    && InRange(s) && s.fault.None? && !s.orphaned && |s.threads| == 1 && b < |s.sh.bufs| && |s.sh.bufs[b].slots| == c.Capacity()
    && s.sh.allocatedBufs == [] && s.sh.freeBufs == f && s.sh.tlsBufAddrs == {}
    && s.sh.cells[0] == Cell(None, Some(b)) && s.sh.activeWorkers == k
    && s.threads[0].ref.logBuf == b && s.threads[0].pc == Allocating
    && (f == [] ==> !s.dropped)
  }

  lemma IncAlone(c: Config, s: State, b: BufId, k: nat)
    requires IsFull(c, s, b, k) && k <= c.maxWorkers
    ensures Enabled(c, s, TryInc(0))
    ensures if k < c.maxWorkers then Between(c, Next(c, s, TryInc(0)), b, k + 1, [])
            else Between(c, Next(c, s, TryInc(0)), b, k, [b])
  {
  }

  ghost predicate Moving(c: Config, s: State, b: BufId, was: BufId, k: nat) {
    && Alone(c, s, b, k) && (was != b ==> !s.dropped)
    && match s.threads[0].pc
       case Switching(x) => x == b && s.threads[0].ref.logBuf == was && was < |s.sh.bufs|
       case WroteBack(x) => x == b && s.threads[0].ref.logBuf == was && was < |s.sh.bufs| && was != b
       case Detached(x) => x == b && was != b
       case _ => false
  }

  function Zeros(n: nat): (zs: seq<Word>)
    ensures |zs| == n
  {
    seq(n, i => 0)
  }

  lemma AllocAlone(c: Config, s: State, b: BufId, k: nat, f: seq<BufId>)
    requires Between(c, s, b, k, f) && (f == [] || f == [b])
    ensures var l := Alloc(0, Zeros(c.Capacity()));
            Enabled(c, s, l) && Moving(c, Next(c, s, l), NextBuffer(s.sh), b, k)
            && Next(c, s, l).threads[0].pc == Switching(NextBuffer(s.sh))
  {
  }

  lemma MoveStep(c: Config, s: State, b: BufId, was: BufId, k: nat)
    requires c.Valid() && Moving(c, s, b, was, k)
    ensures match s.threads[0].pc
            case Switching(_) =>
              && Enabled(c, s, WriteBack(0))
              && (if b == was then Next(c, s, WriteBack(0)).fault == Some(UpdateAssertion)
                  else Moving(c, Next(c, s, WriteBack(0)), b, was, k) && Next(c, s, WriteBack(0)).threads[0].pc == WroteBack(b))
            case WroteBack(_) =>
              && Enabled(c, s, Close(0))
              && Moving(c, Next(c, s, Close(0)), b, was, k) && Next(c, s, Close(0)).threads[0].pc == Detached(b)
            case Detached(_) => Enabled(c, s, Adopt(0)) && Filling(c, Next(c, s, Adopt(0)), b, k)
  {
    LastIndexInside(c);
    assert 0 % c.batchSize == 0 && c.batchSize % c.batchSize == 0;
  }

  /** The slow path of a full buffer: a new buffer while there are fewer than
      MAX_WORKERS batches waiting, the failing assertion after that. */
  lemma NextBatch(c: Config, ls: seq<Label>, b: BufId, k: nat) returns (ls': seq<Label>, b': BufId)
    requires c.Valid() && Legal(c, ls) && IsFull(c, After(c, ls), b, k) && k <= c.maxWorkers
    ensures Legal(c, ls')
    ensures if k < c.maxWorkers then Filling(c, After(c, ls'), b', k + 1)
            else After(c, ls').fault == Some(UpdateAssertion)
  {
    IncAlone(c, After(c, ls), b, k);
    Extend(c, ls, TryInc(0));
    ls' := ls + [TryInc(0)];
    var s1 := After(c, ls');
    b' := NextBuffer(s1.sh);
    AllocAlone(c, s1, b, s1.sh.activeWorkers, s1.sh.freeBufs);
    Extend(c, ls', Alloc(0, Zeros(c.Capacity())));
    ls' := ls' + [Alloc(0, Zeros(c.Capacity()))];
    ls' := Move(c, ls', b', b, s1.sh.activeWorkers);
  }

  lemma Move(c: Config, ls: seq<Label>, b: BufId, was: BufId, k: nat) returns (ls': seq<Label>)
    requires c.Valid() && Legal(c, ls) && Moving(c, After(c, ls), b, was, k)
    requires After(c, ls).threads[0].pc == Switching(b)
    ensures Legal(c, ls')
    ensures if b == was then After(c, ls').fault == Some(UpdateAssertion) else Filling(c, After(c, ls'), b, k)
  {
    MoveStep(c, After(c, ls), b, was, k);
    Extend(c, ls, WriteBack(0));
    ls' := ls + [WriteBack(0)];
    if b != was {
      MoveStep(c, After(c, ls'), b, was, k);
      Extend(c, ls', Close(0));
      ls' := ls' + [Close(0)];
      MoveStep(c, After(c, ls'), b, was, k);
      Extend(c, ls', Adopt(0));
      ls' := ls' + [Adopt(0)];
    }
  }

  /** Batches pile up until there is room for no other worker; none is dropped so far. */
  lemma ToLimit(c: Config, ls: seq<Label>, b: BufId, k: nat) returns (ls': seq<Label>, b': BufId)
    requires c.Valid() && Legal(c, ls) && Filling(c, After(c, ls), b, k) && k <= c.maxWorkers
    ensures Legal(c, ls') && Filling(c, After(c, ls'), b', c.maxWorkers)
    decreases c.maxWorkers - k
  {
    ls', b' := ls, b;
    if k < c.maxWorkers {
      ls' := FillUp(c, ls, b, k);
      ls', b' := NextBatch(c, ls', b, k);
      ls', b' := ToLimit(c, ls', b', k + 1);
    }
  }

  ghost predicate Fresh(s: State) {
    && InRange(s) && s.fault.None? && !s.dropped && !s.orphaned
    && s.sh == INIT.sh.(cells := [Cell(None, None)]) && |s.threads| == 1
    && s.threads[0].pc == Acquired(None)
  }

  lemma Arrive(c: Config) returns (ls: seq<Label>)
    ensures Legal(c, ls) && Fresh(After(c, ls))
  {
    Extend(c, [], Spawn);
    Extend(c, [Spawn], LoadForRef(0));
    ls := [Spawn] + [LoadForRef(0)];
  }

  lemma FirstRef(c: Config, s: State)
    requires c.Valid() && Fresh(s)
    ensures var l := AllocForRef(0, Zeros(c.Capacity()));
            && Enabled(c, s, l) && Enabled(c, Next(c, s, l), MakeRef(0))
            && Filling(c, Next(c, Next(c, s, l), MakeRef(0)), 0, 0)
  {
    LastIndexInside(c);
    assert 0 % c.batchSize == 0 && c.batchSize % c.batchSize == 0;
  }

  lemma Start(c: Config) returns (ls: seq<Label>)
    requires c.Valid()
    ensures Legal(c, ls) && Filling(c, After(c, ls), 0, 0)
  {
    ls := Arrive(c);
    var l := AllocForRef(0, Zeros(c.Capacity()));
    FirstRef(c, After(c, ls));
    Extend(c, ls, l);
    Extend(c, ls + [l], MakeRef(0));
    ls := ls + [l] + [MakeRef(0)];
  }

  /** For every choice of the constants, the source's own included, there is a run of a
      single thread on which the assertion of updateLogBuffer fails. */
  lemma AssertionCanFail(c: Config) returns (ls: seq<Label>)
    requires c.Valid()
    ensures Legal(c, ls) && After(c, ls).fault == Some(UpdateAssertion)
  {
    ls := Start(c);
    var b;
    ls, b := ToLimit(c, ls, 0, 0);
    ls := FillUp(c, ls, b, c.maxWorkers);
    ls, b := NextBatch(c, ls, b, c.maxWorkers);
  }
}
