/** The countdown timestamps of local_writes_benchmarks.cc: a timestamp after every R
    memory events, and the buffer wraps only after a timestamp. */
module Timestamps {
  import opened Multiples
  import opened Protocol
  import opened Packing
  import opened Rings

  /** The counters and the storage of that file's event buffer. */
  datatype Countdown = Countdown(events: nat, eventsToRdtsc: int, slots: seq<Word>)

  /** One logged write: the word of the access, and of the timestamp if one is due. */
  datatype Entry = Entry(event: Word, timestamp: Word)

  function FreshCountdown(rate: nat, mem: seq<Word>): Countdown {
    Countdown(0, rate, mem)
  }

  /** __tsan_rdtsc: the timestamp word, a new countdown, and the test for a full buffer. */
  function Rdtsc(size: nat, rate: nat, s: Countdown, ts: Word): Option<Countdown> {
    if s.events >= |s.slots| then None
    else
      Some(Countdown(if s.events + 1 >= size then 0 else s.events + 1, rate, s.slots[s.events := ts]))
  }

  /** __tsan_write8: the event's word, and a timestamp when the countdown is over. */
  function Write8(size: nat, rate: nat, s: Countdown, w: Word, ts: Word): Option<Countdown> {
    if s.events >= |s.slots| then None
    else
      var s1 := Countdown(s.events + 1, s.eventsToRdtsc - 1, s.slots[s.events := w]);
      if s1.eventsToRdtsc == 0 then Rdtsc(size, rate, s1, ts) else Some(s1)
  }

  function RunCalls(size: nat, rate: nat, s: Countdown, calls: seq<Entry>): Option<Countdown> {
    if calls == [] then Some(s)
    else
      var before := RunCalls(size, rate, s, calls[..|calls| - 1]);
      var call := calls[|calls| - 1];
      if before.None? then None
      else Write8(size, rate, before.value, call.event, call.timestamp)
  }

  /** The stream the calls are meant to leave: every call's event, and a timestamp after
      every `rate`-th. */
  function Stream(rate: nat, calls: seq<Entry>): seq<Word>
    requires rate > 0
  {
    if calls == [] then []
    else
      var call := calls[|calls| - 1];
      Stream(rate, calls[..|calls| - 1]) + [call.event] +
      if |calls| % rate == 0 then [call.timestamp] else []
  }

  lemma {:induction false} StreamLength(rate: nat, calls: seq<Entry>)
    requires rate > 0
    ensures |Stream(rate, calls)| == |calls| + |calls| / rate
  {
    if calls != [] {
      var n := |calls| - 1;
      StreamLength(rate, calls[..n]);
      ModStep(n, rate);
      DivStep(n, rate);
    }
  }

  lemma DivStep(n: nat, b: nat)
    requires b > 0
    ensures (n + 1) / b == n / b + if (n + 1) % b == 0 then 1 else 0
  {
    var q, r := n / b, n % b;
    assert n == q * b + r;
    if r + 1 == b {
      assert n + 1 == (q + 1) * b + 0;
      DivModUnique(n + 1, b, q + 1, 0);
    } else {
      DivModUnique(n + 1, b, q, r + 1);
    }
  }

  /** Which call word `j` of the stream comes from: rate calls a group. */
  function CallOf(rate: nat, j: nat): nat
    requires rate > 0
  {
    j / (rate + 1) * rate + if j % (rate + 1) == rate then j % (rate + 1) - 1 else j % (rate + 1)
  }

  /** The stream: every (R+1)-th word is the timestamp of the call before
      it, every other word is the event of its call. */
  lemma {:induction false} StreamAt(rate: nat, calls: seq<Entry>, j: nat)
    requires rate > 0 && j < |Stream(rate, calls)|
    ensures CallOf(rate, j) < |calls|
    ensures Stream(rate, calls)[j] ==
            if j % (rate + 1) == rate then calls[CallOf(rate, j)].timestamp
            else calls[CallOf(rate, j)].event
  {
    var n := |calls| - 1;
    var before := Stream(rate, calls[..n]);
    if j < |before| {
      StreamAt(rate, calls[..n], j);
    } else {
      StreamLength(rate, calls[..n]);
      Position(n, rate);
    }
  }

  /** The place in its group of the word of call `n`, and of the timestamp after it. */
  lemma Position(n: nat, rate: nat)
    requires rate > 0
    ensures (n + n / rate) % (rate + 1) == n % rate && CallOf(rate, n + n / rate) == n
    ensures (n + 1) % rate == 0 ==>
              (n + n / rate + 1) % (rate + 1) == rate && CallOf(rate, n + n / rate + 1) == n
  {
    var q, r := n / rate, n % rate;
    Place(q, r, rate, n + q);
    ModStep(n, rate);
    if r + 1 == rate { Place(q, rate, rate, n + q + 1); }
  }

  lemma Place(q: nat, r: nat, rate: nat, j: nat)
    requires rate > 0 && r <= rate && j == q * rate + q + r
    ensures j % (rate + 1) == r
    ensures CallOf(rate, j) == q * rate + if r == rate then r - 1 else r
  {
    assert j == q * (rate + 1) + r;
    DivModUnique(j, rate + 1, q, r);
  }

  /** The period: full groups of rate + 1 words until the size is reached. */
  function Lap(size: nat, rate: nat): nat {
    RoundUp(size, rate + 1)
  }

  /** The highest index ever used is size + rate - 1, and it is used exactly when the
      size is 1 mod rate + 1: then the storage has no slack. */
  lemma LapFits(size: nat, rate: nat)
    requires size > 0
    ensures size <= Lap(size, rate) <= size + rate
    ensures Lap(size, rate) == size + rate <==> size % (rate + 1) == 1 % (rate + 1)
  {
    var g, p := rate + 1, Lap(size, rate);
    LapBounds(size, rate);
    MultipleMod((size + g - 1) / g, g);
    SameResidue(size, p + 1, g);
    ModOne(p, g);
  }

  /** One more than a multiple. */
  lemma ModOne(p: nat, g: nat)
    requires g > 0 && p % g == 0
    ensures (p + 1) % g == 1 % g
  {
    ModStep(p, g);
    ModStep(0, g);
  }

  /** Two numbers at most a group apart are equal mod g only if they are equal, or a whole
      group apart. */
  lemma SameResidue(a: nat, b: nat, g: nat)
    requires g > 0 && a < b <= a + g
    ensures a % g == b % g <==> b == a + g
  {
    ModAdd(a, g);
    if b < a + g { ModApart(a, b, g); }
  }

  // ---------------------------------------------------------------- the object

  /** The event buffer of that file, as far as the countdown uses it. */
  class CountdownBuffer {
    const size: nat
    const rate: nat
    var events: nat
    var eventsToRdtsc: int
    const buf: array<Word>

    constructor (size: nat, rate: nat)
      ensures this.size == size && this.rate == rate && fresh(buf) && buf.Length == size + rate
      ensures View() == FreshCountdown(rate, buf[..])
    {
      this.size, this.rate := size, rate;
      events, eventsToRdtsc := 0, rate;
      buf := new Word[size + rate];
    }

    ghost function View(): Countdown
      reads this, buf
    {
      Countdown(events, eventsToRdtsc, buf[..])
    }

    method RdtscEvent(ts: Word)
      requires events < buf.Length
      modifies this, buf
      ensures Some(View()) == Rdtsc(size, rate, old(View()), ts)
    {
      buf[events] := ts;
      events := events + 1;
      eventsToRdtsc := rate;
      if events >= size { events := 0; }
    }

    /** One write, at a place that leaves room for a timestamp after it. */
    method Write(access: Access, tsc: bv64)
      requires events + 1 < buf.Length
      modifies this, buf
      ensures Some(View()) == Write8(size, rate, old(View()), EncodeLocId(access), EncodeTimestamp(tsc))
    {
      buf[events] := EncodeLocId(access);
      events := events + 1;
      eventsToRdtsc := eventsToRdtsc - 1;
      if eventsToRdtsc == 0 { RdtscEvent(EncodeTimestamp(tsc)); }
    }
  }

  // ---------------------------------------------------------------- the refinement

  lemma ModOfMod(x: nat, p: nat, g: nat)
    requires g > 0 && p > 0 && p % g == 0
    ensures x % p % g == x % g
  {
    var k, q, r := p / g, x / p, x % p;
    assert p == k * g && x == q * p + r;
    assert q * p == q * k * g;
    MulMonotone(0, q, k);
    ModAddMany(r, q * k, g);
  }

  lemma ModAddMany(r: nat, k: nat, g: nat)
    requires g > 0
    ensures (k * g + r) % g == r % g
  {
    assert r == r / g * g + r % g;
    assert k * g + r == (k + r / g) * g + r % g;
    DivModUnique(k * g + r, g, k + r / g, r % g);
  }

  /** At a call boundary after n calls: the place in the group of R + 1, and the test for
      a full buffer, which is made only on a timestamp. */
  lemma Boundary(size: nat, rate: nat, n: nat, e: nat)
    requires size > 0 && rate > 0 && e == (n + n / rate) % Lap(size, rate)
    ensures 0 < Lap(size, rate) <= size + rate
    ensures e % (rate + 1) == n % rate && e + 1 < Lap(size, rate)
    ensures (n + 1) % rate == 0 ==> (e + 2 >= size <==> e + 2 == Lap(size, rate))
  {
    var g, p := rate + 1, Lap(size, rate);
    RoundUpBounds(size, g);
    ModOfMod(n + n / rate, p, g);
    Position(n, rate);
    ModStep(e, g);
    ModStep(n, rate);
    if e + 1 == p { assert false; }
    if (n + 1) % rate == 0 {
      ModStep(e + 1, g);
      assert (e + 2) % g == 0;
      if e + 2 != p { StepToMultiple(e + 2, p, g); }
    }
  }

  /** The state of the code after some calls: a plain ring over the stream, and a
      countdown that says how many calls are left in the group. */
  ghost predicate Refined(p: nat, size: nat, rate: nat, mem: seq<Word>, calls: seq<Entry>)
    requires rate > 0 && 0 < p <= |mem|
  {
    var s := RunCalls(size, rate, FreshCountdown(rate, mem), calls);
    && s.Some?
    && Ring(s.value.events, s.value.slots) == RingRun(p, mem, Stream(rate, calls))
    && s.value.eventsToRdtsc == rate - |calls| % rate
  }

  /** The words of a call, put into a ring; the timestamp only if it is due. */
  function RingEntry(p: nat, r: Ring, entry: Entry, due: bool): Ring
    requires r.events + 1 < p <= |r.slots|
  {
    var r1 := RingStep(p, r, entry.event);
    if due then RingStep(p, r1, entry.timestamp) else r1
  }

  /** The ring takes the words of one more call. */
  lemma StreamStep(p: nat, rate: nat, mem: seq<Word>, calls: seq<Entry>)
    requires rate > 0 && 0 < p <= |mem| && calls != []
    requires RingRun(p, mem, Stream(rate, calls[..|calls| - 1])).events + 1 < p
    ensures RingRun(p, mem, Stream(rate, calls)) ==
            RingEntry(p, RingRun(p, mem, Stream(rate, calls[..|calls| - 1])), calls[|calls| - 1], |calls| % rate == 0)
  {
    var n := |calls| - 1;
    var ws := Stream(rate, calls[..n]);
    var w, ts := calls[n].event, calls[n].timestamp;
    RingAppend(p, mem, ws, w);
    RingAppend(p, mem, ws + [w], ts);
    assert Stream(rate, calls) == if |calls| % rate == 0 then ws + [w] + [ts] else ws + [w];
  }

  /** What call n does between two boundaries. */
  ghost predicate CallGoes(p: nat, size: nat, rate: nat, n: nat, s: Countdown, entry: Entry)
    requires rate > 0 && s.events + 1 < p <= |s.slots|
  {
    var r := Write8(size, rate, s, entry.event, entry.timestamp);
    && r.Some?
    && r.value.eventsToRdtsc == rate - (n + 1) % rate
    && Ring(r.value.events, r.value.slots) == RingEntry(p, Ring(s.events, s.slots), entry, (n + 1) % rate == 0)
  }

  lemma CallStep(p: nat, size: nat, rate: nat, n: nat, s: Countdown, entry: Entry)
    requires size > 0 && rate > 0 && |s.slots| == size + rate && p == Lap(size, rate)
    requires s.events == (n + n / rate) % p && s.eventsToRdtsc == rate - n % rate
    ensures s.events + 1 < p <= |s.slots| && CallGoes(p, size, rate, n, s, entry)
  {
    Boundary(size, rate, n, s.events);
    ModStep(n, rate);
  }

  /** Where the ring is after some calls. */
  lemma PlaceAfter(p: nat, size: nat, rate: nat, mem: seq<Word>, calls: seq<Entry>)
    requires rate > 0 && 0 < p <= |mem|
    requires Refined(p, size, rate, mem, calls)
    ensures RunCalls(size, rate, FreshCountdown(rate, mem), calls).value.events == (|calls| + |calls| / rate) % p
  {
    StreamLength(rate, calls);
    RingContents(p, mem, Stream(rate, calls));
  }

  lemma LapBounds(size: nat, rate: nat)
    requires size > 0
    ensures size <= Lap(size, rate) <= size + rate
  {
    RoundUpBounds(size, rate + 1);
  }

  lemma CallRefines(p: nat, size: nat, rate: nat, mem: seq<Word>, calls: seq<Entry>)
    requires size > 0 && rate > 0 && |mem| == size + rate && p == Lap(size, rate) && 0 < p <= |mem|
    requires calls != [] && Refined(p, size, rate, mem, calls[..|calls| - 1])
    ensures Refined(p, size, rate, mem, calls)
  {
    var n := |calls| - 1;
    var s := RunCalls(size, rate, FreshCountdown(rate, mem), calls[..n]).value;
    assert s.events + 1 < p && CallGoes(p, size, rate, n, s, calls[n]) by {
      PlaceAfter(p, size, rate, mem, calls[..n]);
      CallStep(p, size, rate, n, s, calls[n]);
    }
    StreamStep(p, rate, mem, calls);
  }

  /** The code is a ring of whole groups that logs the stream. */
  lemma {:induction false} CallsAreRing(p: nat, size: nat, rate: nat, mem: seq<Word>, calls: seq<Entry>)
    requires size > 0 && rate > 0 && |mem| == size + rate && p == Lap(size, rate)
    ensures 0 < p <= |mem| && Refined(p, size, rate, mem, calls)
  {
    LapBounds(size, rate);
    if calls != [] {
      CallsAreRing(p, size, rate, mem, calls[..|calls| - 1]);
      CallRefines(p, size, rate, mem, calls);
    }
  }

  /** At every call boundary the place in the group and the countdown add up to R; no
      index past size + R - 1 is ever used. */
  lemma CountdownInvariant(size: nat, rate: nat, mem: seq<Word>, calls: seq<Entry>)
    requires size > 0 && rate > 0 && |mem| == size + rate
    ensures var s := RunCalls(size, rate, FreshCountdown(rate, mem), calls);
            && s.Some?
            && 1 <= s.value.eventsToRdtsc <= rate
            && s.value.events % (rate + 1) + s.value.eventsToRdtsc == rate
            && s.value.events + 1 < Lap(size, rate) <= size + rate
  {
    var p := Lap(size, rate);
    CallsAreRing(p, size, rate, mem, calls);
    PlaceAfter(p, size, rate, mem, calls);
    Boundary(size, rate, |calls|, (|calls| + |calls| / rate) % p);
  }

  /** The number of the last word that went to slot `i` of a ring of period `p`. */
  function LastAt(n: nat, p: nat, i: nat): nat
    requires i < p && i < n
  {
    i + (n - 1 - i) / p * p
  }

  lemma LastAtIs(n: nat, p: nat, i: nat)
    requires i < p && i < n
    ensures var j := LastAt(n, p, i); j < n <= j + p && j % p == i
  {
    FloorMultiple(n - 1 - i, p);
    ModAddMany(i, (n - 1 - i) / p, p);
    DivModUnique(i, p, 0, i);
  }

  /** One instrumented write, and what the counter reads if a timestamp is due. */
  datatype Write = Write(access: Access, tsc: bv64)

  function Entries(writes: seq<Write>): seq<Entry> {
    seq(|writes|, i requires 0 <= i < |writes| =>
      Entry(EncodeLocId(writes[i].access), EncodeTimestamp(writes[i].tsc)))
  }

  /** What the word of slot `i` is: a timestamp exactly if i mod (R + 1) = R, else the
      event of a write, decodable; the header tells which. */
  ghost predicate Tells(rate: nat, writes: seq<Write>, i: nat, w: Word) {
    if i % (rate + 1) == rate then
      Header(w) == 1 && exists k | 0 <= k < |writes| :: w == EncodeTimestamp(writes[k].tsc)
    else
      Header(w) == 0xF && exists k | 0 <= k < |writes| :: DecodeLocId(w) == Fields(writes[k].access)
  }

  lemma StreamTells(rate: nat, writes: seq<Write>, j: nat)
    requires rate > 0 && j < |Stream(rate, Entries(writes))|
    ensures Tells(rate, writes, j, Stream(rate, Entries(writes))[j])
  {
    StreamAt(rate, Entries(writes), j);
    var write := writes[CallOf(rate, j)];
    if j % (rate + 1) == rate {
      TimestampTold(write.tsc);
    } else {
      LocIdExact(write.access);
      LocIdHeader(write.access);
    }
  }

  /** The grammar of the buffer, at every call boundary, for every slot written so far. */
  lemma SlotGrammar(size: nat, rate: nat, mem: seq<Word>, writes: seq<Write>, i: nat)
    requires size > 0 && rate > 0 && |mem| == size + rate
    requires i < |Stream(rate, Entries(writes))| && i < Lap(size, rate)
    ensures var s := RunCalls(size, rate, FreshCountdown(rate, mem), Entries(writes));
            && s.Some? && i < |s.value.slots|
            && Tells(rate, writes, i, s.value.slots[i])
  {
    var p, calls := Lap(size, rate), Entries(writes);
    var ws := Stream(rate, calls);
    RoundUpBounds(size, rate + 1);
    CallsAreRing(p, size, rate, mem, calls);
    RingContents(p, mem, ws);
    var j := LastAt(|ws|, p, i);
    LastAtIs(|ws|, p, i);
    assert InSlot(p, RingRun(p, mem, ws).slots, j, ws[j]);
    StreamTells(rate, writes, j);
    ModOfMod(j, p, rate + 1);
  }

  // ---------------------------------------------------------------- where each write is

  /** The words of write number `k` in a buffer of period `p`: its event after the k events
      and k / R timestamps before it, and a timestamp right after it if it is an R-th one.
      Either may have been overwritten a period later. */
  ghost predicate WriteAt(p: nat, rate: nat, slots: seq<Word>, n: nat, k: nat, write: Write)
    requires p > 0 && rate > 0
  {
    WriteIn(p, slots, k + k / rate, n + n / rate, (k + 1) % rate == 0, write)
  }

  ghost predicate WriteIn(p: nat, slots: seq<Word>, j: nat, total: nat, stamped: bool, write: Write)
    requires p > 0
  {
    && (total <= j + p ==> EventAt(p, slots, j, write.access))
    && (stamped && total <= j + 1 + p ==> StampAt(p, slots, j + 1, write.tsc))
  }

  /** The slot of word number `j` shows an access, or a counter's low 60 bits. */
  ghost predicate EventAt(p: nat, slots: seq<Word>, j: nat, access: Access)
    requires p > 0
  {
    j % p < |slots| && Header(slots[j % p]) == 0xF && DecodeLocId(slots[j % p]) == Fields(access)
  }

  ghost predicate StampAt(p: nat, slots: seq<Word>, j: nat, tsc: bv64)
    requires p > 0
  {
    && j % p < |slots| && Header(slots[j % p]) == 1
    && slots[j % p] & 0x0FFF_FFFF_FFFF_FFFF == tsc & 0x0FFF_FFFF_FFFF_FFFF
  }

  lemma EventIn(w: Word, access: Access)
    requires w == EncodeLocId(access)
    ensures Header(w) == 0xF && DecodeLocId(w) == Fields(access)
  {
    LocIdExact(access);
    LocIdHeader(access);
  }

  lemma StampIn(w: Word, tsc: bv64)
    requires w == EncodeTimestamp(tsc)
    ensures Header(w) == 1 && w & 0x0FFF_FFFF_FFFF_FFFF == tsc & 0x0FFF_FFFF_FFFF_FFFF
  {
    TimestampTold(tsc);
  }

  lemma WordNumber(rate: nat, n: nat, k: nat)
    requires rate > 0 && k < n
    ensures k + k / rate < n + n / rate
    ensures (k + 1) % rate == 0 ==> k + k / rate + 1 < n + n / rate
  {
    DivStep(k, rate);
    DivMonotone(k + 1, n, rate);
  }

  lemma DivMonotone(a: nat, b: nat, d: nat)
    requires d > 0 && a <= b
    ensures a / d <= b / d
  {
    if a / d > b / d {
      assert a == a / d * d + a % d && b == b / d * d + b % d;
      MulMonotone(b / d + 1, a / d, d);
      assert false;
    }
  }

  lemma EventSlotAt(p: nat, slots: seq<Word>, j: nat, w: Word, access: Access)
    requires p > 0 && InSlot(p, slots, j, w) && w == EncodeLocId(access)
    ensures EventAt(p, slots, j, access)
  {
    EventIn(w, access);
  }

  lemma EventWord(rate: nat, writes: seq<Write>, k: nat)
    requires rate > 0 && k < |writes| && k + k / rate < |Stream(rate, Entries(writes))|
    ensures Stream(rate, Entries(writes))[k + k / rate] == EncodeLocId(writes[k].access)
  {
    WordAt(rate, writes, k, k + k / rate);
  }

  lemma EventNumber(rate: nat, k: nat)
    requires rate > 0
    ensures (k + k / rate) % (rate + 1) != rate && CallOf(rate, k + k / rate) == k
  {
    Position(k, rate);
  }

  lemma WordAt(rate: nat, writes: seq<Write>, k: nat, j: nat)
    requires rate > 0 && k < |writes| && j == k + k / rate && j < |Stream(rate, Entries(writes))|
    ensures Stream(rate, Entries(writes))[j] == EncodeLocId(writes[k].access)
  {
    assert j % (rate + 1) != rate && CallOf(rate, j) == k by { EventNumber(rate, k); }
    StreamAt(rate, Entries(writes), j);
  }

  lemma StampWord(rate: nat, writes: seq<Write>, k: nat)
    requires rate > 0 && k < |writes| && (k + 1) % rate == 0 && k + k / rate + 1 < |Stream(rate, Entries(writes))|
    ensures Stream(rate, Entries(writes))[k + k / rate + 1] == EncodeTimestamp(writes[k].tsc)
  {
    Position(k, rate);
    StreamAt(rate, Entries(writes), k + k / rate + 1);
  }

  lemma InStream(rate: nat, writes: seq<Write>, k: nat)
    requires rate > 0 && k < |writes|
    ensures |Stream(rate, Entries(writes))| == |writes| + |writes| / rate
    ensures k + k / rate < |Stream(rate, Entries(writes))|
    ensures (k + 1) % rate == 0 ==> k + k / rate + 1 < |Stream(rate, Entries(writes))|
  {
    StreamLength(rate, Entries(writes));
    WordNumber(rate, |writes|, k);
  }

  lemma StampSlotAt(p: nat, slots: seq<Word>, j: nat, w: Word, tsc: bv64)
    requires p > 0 && InSlot(p, slots, j, w) && w == EncodeTimestamp(tsc)
    ensures StampAt(p, slots, j, tsc)
  {
    StampIn(w, tsc);
  }

  lemma WriteSlots(p: nat, events: nat, slots: seq<Word>, ws: seq<Word>, j: nat, stamped: bool, write: Write)
    requires p > 0 && HoldsLast(p, events, slots, ws) && j < |ws| && ws[j] == EncodeLocId(write.access)
    requires stamped ==> j + 1 < |ws| && ws[j + 1] == EncodeTimestamp(write.tsc)
    ensures WriteIn(p, slots, j, |ws|, stamped, write)
  {
    if |ws| <= j + p { LastSlot(p, events, slots, ws, j); EventSlotAt(p, slots, j, ws[j], write.access); }
    if stamped && |ws| <= j + 1 + p {
      LastSlot(p, events, slots, ws, j + 1);
      StampSlotAt(p, slots, j + 1, ws[j + 1], write.tsc);
    }
  }

  lemma LastSlot(p: nat, events: nat, slots: seq<Word>, ws: seq<Word>, j: nat)
    requires p > 0 && HoldsLast(p, events, slots, ws) && j < |ws| <= j + p
    ensures InSlot(p, slots, j, ws[j])
  {
  }

  /** The words of write `k` in the stream. */
  lemma StreamHas(rate: nat, writes: seq<Write>, k: nat, j: nat, total: nat, stamped: bool)
    requires rate > 0 && k < |writes| && j == k + k / rate && total == |writes| + |writes| / rate
    requires stamped == ((k + 1) % rate == 0)
    ensures var ws := Stream(rate, Entries(writes));
            && |ws| == total && j < |ws| && ws[j] == EncodeLocId(writes[k].access)
            && (stamped ==> j + 1 < |ws| && ws[j + 1] == EncodeTimestamp(writes[k].tsc))
  {
    InStream(rate, writes, k);
    EventWord(rate, writes, k);
    if stamped { StampWord(rate, writes, k); }
  }

  lemma HoldsStream(p: nat, size: nat, rate: nat, mem: seq<Word>, calls: seq<Entry>)
    requires size > 0 && rate > 0 && |mem| == size + rate && p == Lap(size, rate)
    ensures var r := RunCalls(size, rate, FreshCountdown(rate, mem), calls);
            p > 0 && r.Some? && HoldsLast(p, r.value.events, r.value.slots, Stream(rate, calls))
  {
    CallsAreRing(p, size, rate, mem, calls);
    RingContents(p, mem, Stream(rate, calls));
  }

  lemma WriteInStream(p: nat, rate: nat, events: nat, slots: seq<Word>, writes: seq<Write>, k: nat,
                      j: nat, total: nat, stamped: bool)
    requires p > 0 && rate > 0 && k < |writes| && HoldsLast(p, events, slots, Stream(rate, Entries(writes)))
    requires j == k + k / rate && total == |writes| + |writes| / rate && stamped == ((k + 1) % rate == 0)
    ensures WriteIn(p, slots, j, total, stamped, writes[k])
  {
    StreamHas(rate, writes, k, j, total, stamped);
    WriteSlots(p, events, slots, Stream(rate, Entries(writes)), j, stamped, writes[k]);
  }

  lemma WritesAt(p: nat, rate: nat, slots: seq<Word>, writes: seq<Write>, k: nat)
    requires p > 0 && rate > 0 && k < |writes|
    requires WriteIn(p, slots, k + k / rate, |writes| + |writes| / rate, (k + 1) % rate == 0, writes[k])
    ensures WriteAt(p, rate, slots, |writes|, k, writes[k])
  {
  }

  /** The calls of a thread, one after the other, on a new buffer. */
  method LogWrites(b: CountdownBuffer, writes: seq<Write>)
    requires b.size > 0 && b.rate > 0 && b.buf.Length == b.size + b.rate && b.View() == FreshCountdown(b.rate, b.buf[..])
    modifies b, b.buf
    ensures Some(b.View()) == RunCalls(b.size, b.rate, FreshCountdown(b.rate, old(b.buf[..])), Entries(writes))
  {
    ghost var mem, calls := b.buf[..], Entries(writes);
    for i := 0 to |writes|
      invariant Some(b.View()) == RunCalls(b.size, b.rate, FreshCountdown(b.rate, mem), calls[..i])
    {
      RoomForBoth(b.size, b.rate, mem, calls[..i]);
      b.Write(writes[i].access, writes[i].tsc);
      assert calls[..i + 1][..i] == calls[..i];
    }
    assert calls[..|writes|] == calls;
  }

  /** A thread that logs `writes`, one after the other, into a new buffer. */
  method CountdownThread(size: nat, rate: nat, writes: seq<Write>) returns (b: CountdownBuffer, ghost p: nat)
    requires size > 0 && rate > 0
    ensures fresh(b) && p > 0 && p % (rate + 1) == 0 && size <= p <= size + rate == b.buf.Length
    ensures b.events == (|writes| + |writes| / rate) % p && b.eventsToRdtsc == rate - |writes| % rate
    ensures forall k: nat | k < |writes| :: WriteAt(p, rate, b.buf[..], |writes|, k, writes[k])
  {
    b := new CountdownBuffer(size, rate);
    ghost var mem := b.buf[..];
    LogWrites(b, writes);
    p := Lap(size, rate);
    AllWritesAt(size, rate, mem, writes);
  }

  lemma WriteHolds(p: nat, rate: nat, events: nat, slots: seq<Word>, writes: seq<Write>, k: nat)
    requires p > 0 && rate > 0 && k < |writes| && HoldsLast(p, events, slots, Stream(rate, Entries(writes)))
    ensures WriteAt(p, rate, slots, |writes|, k, writes[k])
  {
    WriteInStream(p, rate, events, slots, writes, k, k + k / rate, |writes| + |writes| / rate, (k + 1) % rate == 0);
    WritesAt(p, rate, slots, writes, k);
  }

  lemma AllWritesAt(size: nat, rate: nat, mem: seq<Word>, writes: seq<Write>)
    requires size > 0 && rate > 0 && |mem| == size + rate
    ensures var p, r := Lap(size, rate), RunCalls(size, rate, FreshCountdown(rate, mem), Entries(writes));
            && p > 0 && p % (rate + 1) == 0 && size <= p <= size + rate && r.Some?
            && r.value.events == (|writes| + |writes| / rate) % p
            && r.value.eventsToRdtsc == rate - |writes| % rate
            && forall k: nat | k < |writes| :: WriteAt(p, rate, r.value.slots, |writes|, k, writes[k])
  {
    var p, calls := Lap(size, rate), Entries(writes);
    RoundUpBounds(size, rate + 1);
    CallsAreRing(p, size, rate, mem, calls);
    PlaceAfter(p, size, rate, mem, calls);
    HoldsStream(p, size, rate, mem, calls);
    var r := RunCalls(size, rate, FreshCountdown(rate, mem), calls).value;
    forall k: nat | k < |writes|
      ensures WriteAt(p, rate, r.slots, |writes|, k, writes[k])
    {
      WriteHolds(p, rate, r.events, r.slots, writes, k);
    }
  }

  lemma RoomForBoth(size: nat, rate: nat, mem: seq<Word>, calls: seq<Entry>)
    requires size > 0 && rate > 0 && |mem| == size + rate
    ensures var s := RunCalls(size, rate, FreshCountdown(rate, mem), calls);
            s.Some? && s.value.events + 1 < |s.value.slots|
  {
    CountdownInvariant(size, rate, mem, calls);
    CallsAreRing(Lap(size, rate), size, rate, mem, calls);
    LapBounds(size, rate);
  }
}
