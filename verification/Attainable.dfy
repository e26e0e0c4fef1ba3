/**
 Success is possible: whatever has happened before, an honest controller can go on so that a write or read of 1 to 65535
 bytes comes out Ok, on either transport, within the least budget, for every FIFO depth and all contents.
 */
module Attainable {
  import opened Common
  import opened Words
  import opened BscRegisters
  import opened Transfers
  import opened IrqTransfers
  import opened IrqStarts
  import opened IrqLaws
  import opened IrqRuns
  import opened BscDevice
  import opened FreshStart
  import opened Delivery

  // ----- A helpful controller

  /** What it does before the `k`-th look at S: it shifts out the byte just written, or fetches the next one; and it
      finishes before the last look. */
  function Helps(reading: bool, data: seq<u8>, k: nat): seq<DevEvent> {
    if k >= |data| then (if reading then [Finish] else [Shift, Finish])
    else if reading then [Fetch(data[k])]
    else if k == 0 then [] else [Shift]
  }

  /** A plan: what a controller has done before its `from`-th access, the number of the first look at S, the bytes, and
      how far the status words and the FIFO have been read by then. */
  datatype Plan = Plan(h: Honest, from: nat, first: nat, reading: bool, data: seq<u8>, polls: nat, pops: nat)

  function HelpsAt(p: Plan, j: nat): seq<DevEvent> {
    if j < p.from then p.h.before(j)
    else if j < p.first || (j - p.first) % 2 == 1 then []
    else Helps(p.reading, p.data, (j - p.first) / 2)
  }

  function Helper(p: Plan): Honest {
    p.h.(before := (j: nat) => HelpsAt(p, j))
  }

  /** What it shows. */
  function StatusAt(p: Plan, j: nat): Word {
    var k := j - p.polls;
    seq(32, i => (i == 1 && k == |p.data|) || (i == 5 && p.reading && k < |p.data|)
                 || (i == 4 && (!p.reading || k == |p.data| || p.h.depth > 1)))
  }

  function ByteAt(p: Plan, j: nat): nat {
    if p.pops <= j < p.pops + |p.data| then p.data[j - p.pops] else 0
  }

  function HelpfulWorld(p: Plan): World {
    World((j: nat) => StatusAt(p, j), (j: nat) => ByteAt(p, j))
  }

  lemma {:induction false} SeenSame(h: Honest, h': Honest, log: seq<Op>)
    requires h'.depth == h.depth && h'.d0 == h.d0 && forall k | 0 <= k < |log| :: h'.before(k) == h.before(k)
    ensures Seen(h', log) == Seen(h, log)
    decreases |log|
  {
    if log != [] { SeenSame(h, h', log[..|log| - 1]); }
  }

  /** How the `k`-th look finds the controller. */
  predicate Poised(d: Dev, reading: bool, data: seq<u8>, k: nat)
    requires k <= |data|
  {
    && d.wire != [] && Last(d).reading == reading
    && var fifo: seq<u8> := if reading && k < |data| then [data[k]] else [];
    var rem := if k == |data| then 0 else if reading then |data| - k - 1 else |data| - k;
    d == d.(err := false, clkt := false, ta := k < |data|, done := k == |data|, fifo := fifo, rem := rem)
  }

  lemma ShiftOne(depth: nat, d: Dev)
    requires d.ta && d.wire != [] && !Last(d).reading && d.rem > 0 && |d.fifo| == 1
    ensures var d' := Events(depth, d, [Shift]);
            && d'.wire != [] && !Last(d').reading && d'.fifo == [] && d'.rem == d.rem - 1 && d'.ta
            && d'.done == d.done && d'.err == d.err && d'.clkt == d.clkt
  {
    assert [Shift][..0] == [];
    assert Events(depth, d, []) == d;
  }

  lemma FetchOne(depth: nat, d: Dev, x: u8)
    requires d.ta && d.wire != [] && Last(d).reading && d.rem > 0 && d.fifo == [] && depth > 0
    ensures var d' := Events(depth, d, [Fetch(x)]);
            && d'.wire != [] && Last(d').reading && d'.fifo == [x] && d'.rem == d.rem - 1 && d'.ta
            && d'.done == d.done && d'.err == d.err && d'.clkt == d.clkt
  {
    assert [Fetch(x)][..0] == [];
    assert Events(depth, d, []) == d;
  }

  lemma ThenFinish(depth: nat, d: Dev, evs: seq<DevEvent>, d1: Dev)
    requires d1 == Events(depth, d, evs) && d1.ta && d1.wire != [] && d1.rem == 0
    ensures Events(depth, d, evs + [Finish]) == d1.(ta := false, done := true)
  {
    assert (evs + [Finish])[..|evs|] == evs;
  }

  /** From one look to the next, `d` being the controller just after the byte was moved. */
  lemma HelpsOn(depth: nat, d: Dev, reading: bool, data: seq<u8>, k: nat, x: u8)
    requires depth > 0 && k < |data| && Poised(d, reading, data, k)
    ensures var d' := d.(fifo := if reading then [] else [x]);
            Poised(Events(depth, d', Helps(reading, data, k + 1)), reading, data, k + 1)
  {
    var d' := d.(fifo := if reading then [] else [x]);
    if reading && k + 1 < |data| {
      FetchOne(depth, d', data[k + 1]);
    } else if reading {
      assert Events(depth, d', []) == d';
      ThenFinish(depth, d', [], d');
      assert [] + [Finish] == [Finish];
    } else {
      ShiftOne(depth, d');
      if k + 1 == |data| {
        ThenFinish(depth, d', [Shift], Events(depth, d', [Shift]));
        assert [Shift] + [Finish] == [Shift, Finish];
      }
    }
  }

  /** A fresh transfer is found ready for the first look. */
  lemma HelpsFirst(depth: nat, d: Dev, wire: seq<Txn>, addr: nat, job: Job, data: seq<u8>)
    requires depth > 0 && Fresh(d, wire, addr, job) && 0 < job.n == |data| <= 0xFFFF
    ensures Poised(Events(depth, d, Helps(job.reading, data, 0)), job.reading, data, 0)
  {
    if job.reading {
      FetchOne(depth, d, data[0]);
    } else {
      assert Events(depth, d, []) == d;
    }
  }

  // ----- The pump against it

  /** The pump is about to take its `k`-th look. */
  ghost predicate Met(p: Plan, b: Bus, k: nat, d: Dev)
    requires k <= |p.data|
  {
    && p.h.depth > 0 && p.from <= p.first && |b.regs.log| == p.first + 2 * k
    && b.regs.polls == p.polls + k && (p.reading ==> b.regs.pops == p.pops + k)
    && Finds(Helper(p), b.regs.log, d) && Poised(d, p.reading, p.data, k)
  }

  lemma HelpShows(p: Plan, d: Dev, k: nat, s: Word)
    requires k <= |p.data| && Poised(d, p.reading, p.data, k) && p.h.depth > 0 && s == StatusAt(p, p.polls + k)
    ensures Shows(p.h.depth, d, s)
    ensures Decide(s, p.reading, k, |p.data|) == if k < |p.data| then Move else Stop(Ok)
  {
  }

  /** A look, and a byte moved. */
  lemma TwoAccesses(h: Honest, log: seq<Op>, d: Dev, s: Word, op: Op, d': Dev)
    requires Finds(h, log, d) && Shows(h.depth, d, s) && h.before(|log| + 1) == [] && Access(h.depth, d, op) == Some(d')
    ensures Finds(h, log + [ReadS(s)] + [op], Events(h.depth, d', h.before(|log| + 2)))
  {
    var log1 := log + [ReadS(s)];
    assert Finds(h, log1, d) by { FindsNextIdle(h, log, d, ReadS(s), d); }
    assert |log1| + 1 == |log| + 2;
    FindsNext(h, log1, d, op, d');
  }

  lemma MoveAccess(depth: nat, d: Dev, reading: bool, data: seq<u8>, k: nat, x: u8)
    requires depth > 0 && k < |data| && Poised(d, reading, data, k) && (reading ==> x == data[k])
    ensures Access(depth, d, if reading then Pop(x) else Push(x)) == Some(d.(fifo := if reading then [] else [x]))
  {
    if reading {
      assert [x][1..] == [];
    } else {
      assert [] + [x] == [x];
    }
  }

  lemma PlanHelps(p: Plan, k: nat)
    requires p.from <= p.first
    ensures Helper(p).before(p.first + 2 * k) == Helps(p.reading, p.data, k)
    ensures Helper(p).before(p.first + 2 * k + 1) == []
  {
    assert (2 * k) / 2 == k && (2 * k + 1) % 2 == 1;
  }

  /** What is moved at the `k`-th look. */
  function ByteMoved(p: Plan, b: Bus, job: Job, k: nat): u8
    requires Fits(job, b.ram) && k < job.n == |p.data|
  {
    if p.reading then p.data[k] else b.ram[job.at + k]
  }

  /** The controller after the byte of the `k`-th look was moved. */
  function Emptied(d: Dev, p: Plan, x: u8): Dev {
    d.(fifo := if p.reading then [] else [x])
  }

  lemma MoveFinds(h: Honest, p: Plan, log: seq<Op>, k: nat, d: Dev, x: u8, s: Word)
    requires h.depth == p.h.depth > 0 && k < |p.data| && Finds(h, log, d) && Poised(d, p.reading, p.data, k)
    requires h.before(|log| + 1) == [] && h.before(|log| + 2) == Helps(p.reading, p.data, k + 1)
    requires Shows(h.depth, d, s) && (p.reading ==> x == p.data[k])
    ensures Finds(h, log + [ReadS(s)] + [if p.reading then Pop(x) else Push(x)],
                  Events(h.depth, Emptied(d, p, x), Helps(p.reading, p.data, k + 1)))
  {
    MoveAccess(h.depth, d, p.reading, p.data, k, x);
    TwoAccesses(h, log, d, s, if p.reading then Pop(x) else Push(x), Emptied(d, p, x));
  }

  lemma StepMoves(p: Plan, b: Bus, job: Job, k: nat, s: Word, x: u8)
    requires Fits(job, b.ram) && k < job.n == |p.data| && job.reading == p.reading && x == ByteMoved(p, b, job, k)
    requires b.regs.polls == p.polls + k && (p.reading ==> b.regs.pops == p.pops + k)
    requires s == StatusAt(p, p.polls + k) && Decide(s, p.reading, k, |p.data|) == Move
    ensures Looking(HelpfulWorld(p), b, job, k) == Move
    ensures var b' := Step(HelpfulWorld(p), b, job, k);
            && b'.regs.log == b.regs.log + [ReadS(s)] + [if p.reading then Pop(x) else Push(x)]
            && b'.regs.polls == b.regs.polls + 1 && (p.reading ==> b'.regs.pops == b.regs.pops + 1)
            && b'.ram == if p.reading then b.ram[job.at + k := x] else b.ram
  {
  }

  lemma LookMoves(p: Plan, b: Bus, job: Job, k: nat, d: Dev) returns (d': Dev)
    requires Fits(job, b.ram) && k < job.n == |p.data| && job.reading == p.reading && Met(p, b, k, d)
    ensures Looking(HelpfulWorld(p), b, job, k) == Move
    ensures var b' := Step(HelpfulWorld(p), b, job, k);
            && Met(p, b', k + 1, d')
            && b'.ram == if p.reading then b.ram[job.at + k := p.data[k]] else b.ram
  {
    var s, x := StatusAt(p, p.polls + k), ByteMoved(p, b, job, k);
    HelpShows(p, d, k, s);
    StepMoves(p, b, job, k, s, x);
    PlanHelps(p, k);
    PlanHelps(p, k + 1);
    MoveFinds(Helper(p), p, b.regs.log, k, d, x, s);
    HelpsOn(p.h.depth, d, p.reading, p.data, k, x);
    d' := Events(p.h.depth, Emptied(d, p, x), Helps(p.reading, p.data, k + 1));
  }

  lemma LookStops(p: Plan, b: Bus, job: Job, d: Dev)
    requires Fits(job, b.ram) && job.n == |p.data| && job.reading == p.reading && Met(p, b, job.n, d)
    ensures Looking(HelpfulWorld(p), b, job, job.n) == Stop(Ok)
    ensures var b' := Step(HelpfulWorld(p), b, job, job.n);
            Seen(Helper(p), b'.regs.log).Some? && b'.ram == b.ram
  {
    var s := StatusAt(p, p.polls + job.n);
    HelpShows(p, d, job.n, s);
    FindsNext(Helper(p), b.regs.log, d, ReadS(s), d);
  }

  /** What is in memory when `k` bytes have been moved. */
  predicate Held(p: Plan, job: Job, size: nat, ram: seq<u8>, k: nat) {
    && 0 < job.n == |p.data| && k <= job.n && job.at + job.n <= |ram| == size
    && (if p.reading then ram[job.at..job.at + k] == p.data[..k] else ram[job.at..job.at + job.n] == p.data)
  }

  lemma HeldMore(p: Plan, job: Job, size: nat, ram: seq<u8>, ram': seq<u8>, k: nat)
    requires Held(p, job, size, ram, k) && k < job.n
    requires ram' == if p.reading then ram[job.at + k := p.data[k]] else ram
    ensures Held(p, job, size, ram', k + 1)
  {
    if p.reading {
      assert ram'[job.at..job.at + (k + 1)] == ram'[job.at..job.at + k] + [p.data[k]];
      assert ram'[job.at..job.at + k] == ram[job.at..job.at + k];
    }
  }

  /** The pump is about to take its `k`-th look for this job, and has stored what it has read so far. */
  ghost predicate Ready(p: Plan, job: Job, size: nat, b: Bus, k: nat) {
    job.reading == p.reading && Held(p, job, size, b.ram, k) && exists d :: Met(p, b, k, d)
  }

  lemma ReadyMoves(p: Plan, job: Job, size: nat, b: Bus, k: nat)
    requires Ready(p, job, size, b, k) && k < job.n
    ensures Fits(job, b.ram) && Looking(HelpfulWorld(p), b, job, k) == Move
    ensures Ready(p, job, size, Step(HelpfulWorld(p), b, job, k), k + 1)
  {
    var d :| Met(p, b, k, d);
    var d' := LookMoves(p, b, job, k, d);
    HeldMore(p, job, size, b.ram, Step(HelpfulWorld(p), b, job, k).ram, k);
  }

  lemma ReadyEnds(p: Plan, job: Job, size: nat, b: Bus)
    requires Ready(p, job, size, b, job.n) && 0 < job.n
    ensures Fits(job, b.ram) && Looking(HelpfulWorld(p), b, job, job.n) == Stop(Ok)
    ensures var b' := Step(HelpfulWorld(p), b, job, job.n);
            && Seen(Helper(p), b'.regs.log).Some? && |b'.ram| == size
            && job.at + job.n <= size && b'.ram[job.at..job.at + job.n] == p.data
  {
    var d :| Met(p, b, job.n, d);
    LookStops(p, b, job, d);
  }

  /** A pump that is kept ready by each look, and stopped by the one after the last byte, is stopped there with Ok. */
  lemma {:induction false} PumpRule(world: World, job: Job, ready: (Bus, nat) -> bool, b: Bus, k: nat, m: nat)
    returns (last: Bus)
    requires forall b': Bus, i: nat | ready(b', i) && i < job.n ::
               Fits(job, b'.ram) && Looking(world, b', job, i) == Move && ready(Step(world, b', job, i), i + 1)
    requires forall b': Bus | ready(b', job.n) :: Fits(job, b'.ram) && Looking(world, b', job, job.n) == Stop(Ok)
    requires ready(b, k) && k + m == job.n && Fits(job, b.ram)
    ensures ready(last, job.n) && Fits(job, last.ram)
    ensures PolledLoop(world, b, job, k, m + 1) == Outcome(Step(world, last, job, job.n), job.n, Ok, false)
    ensures IsrLoop(world, b, job, k) == IsrOutcome(Step(world, last, job, job.n), job.n, Some(Ok))
    decreases m
  {
    if m == 0 {
      last := b;
    } else {
      last := PumpRule(world, job, ready, Step(world, b, job, k), k + 1, m - 1);
    }
  }

  lemma PlanSucceeds(p: Plan, b: Bus, job: Job) returns (o: Bus)
    requires Ready(p, job, |b.ram|, b, 0) && Fits(job, b.ram) && 0 < job.n
    ensures PolledLoop(HelpfulWorld(p), b, job, 0, job.n + 1) == Outcome(o, job.n, Ok, false)
    ensures IsrLoop(HelpfulWorld(p), b, job, 0) == IsrOutcome(o, job.n, Some(Ok))
    ensures Seen(Helper(p), o.regs.log).Some? && |o.ram| == |b.ram| && o.ram[job.at..job.at + job.n] == p.data
  {
    var ready := (b': Bus, i: nat) => Ready(p, job, |b.ram|, b', i);
    forall b': Bus, i: nat | ready(b', i) && i < job.n
      ensures Fits(job, b'.ram) && Looking(HelpfulWorld(p), b', job, i) == Move
      ensures ready(Step(HelpfulWorld(p), b', job, i), i + 1)
    {
      ReadyMoves(p, job, |b.ram|, b', i);
    }
    forall b': Bus | ready(b', job.n)
      ensures Fits(job, b'.ram) && Looking(HelpfulWorld(p), b', job, job.n) == Stop(Ok)
    {
      ReadyEnds(p, job, |b.ram|, b');
    }
    var last := PumpRule(HelpfulWorld(p), job, ready, b, 0, job.n);
    ReadyEnds(p, job, |b.ram|, last);
    o := Step(HelpfulWorld(p), last, job, job.n);
  }

  // ----- Both transports

  /** Started on such a controller, the pump is about to take its first look. */
  lemma PlanMeets(p: Plan, b: Bus, wire: seq<Txn>, addr: nat, job: Job) returns (d: Dev)
    requires p.h.depth > 0 && p.from <= p.first == |b.regs.log| && b.regs.polls == p.polls && b.regs.pops == p.pops
    requires 0 < job.n == |p.data| <= 0xFFFF && job.reading == p.reading
    requires Seen(Helper(p), b.regs.log).Some? && Fresh(Seen(Helper(p), b.regs.log).value, wire, addr, job)
    ensures Met(p, b, 0, d)
  {
    var d0 := Seen(Helper(p), b.regs.log).value;
    PlanHelps(p, 0);
    HelpsFirst(p.h.depth, d0, wire, addr, job, p.data);
    d := Events(p.h.depth, d0, Helps(p.reading, p.data, 0));
  }

  /** The same controller up to the first `n` accesses. */
  ghost predicate GoesOn(h: Honest, h': Honest, n: nat) {
    h'.depth == h.depth && h'.d0 == h.d0 && forall k | 0 <= k < n :: h'.before(k) == h.before(k)
  }

  /** What went over the wire, and what is in the buffer. */
  predicate Exchanged(d: Dev, ram: seq<u8>, at: nat, len: nat, data: seq<u8>) {
    at + len <= |ram| && d.wire != [] && Last(d).bytes == data && ram[at..at + len] == data
  }

  lemma PolledExchanged(h: Honest, world: World, b: Bus, spins: nat, reading: bool, addr: u8, buf: Ptr, len: nat,
                        data: seq<u8>, o: Outcome)
    requires Synced(h, b.regs) && BufferOk(buf, len, |b.ram|) && !Rejected(addr, buf, len) && len <= 0xFFFF
    requires o == PolledTransfer(world, b, spins, reading, addr, buf, len) && o.result == Ok
    requires Seen(h, o.bus.regs.log).Some? && |o.bus.ram| == |b.ram|
    requires o.bus.ram[buf.addr..buf.addr + len] == data && (!reading ==> b.ram[buf.addr..buf.addr + len] == data)
    ensures Exchanged(Seen(h, o.bus.regs.log).value, o.bus.ram, buf.addr, len, data)
  {
    if reading {
      PolledReadDelivers(h, world, b, spins, addr, buf, len);
    } else {
      PolledWriteDelivers(h, world, b, spins, addr, buf, len);
    }
  }

  /** A transfer just started, `first` accesses after `b`, on a controller that goes on helpfully. */
  lemma StartedReady(p: Plan, b: Bus, started: Bus, wire: seq<Txn>, addr: nat, job: Job)
    requires p == Plan(p.h, |b.regs.log|, |started.regs.log|, job.reading, p.data, b.regs.polls, b.regs.pops)
    requires p.h.depth > 0 && p.from <= p.first && started.ram == b.ram && Fits(job, b.ram)
    requires started.regs.polls == b.regs.polls && started.regs.pops == b.regs.pops
    requires 0 < job.n == |p.data| <= 0xFFFF && (!job.reading ==> p.data == b.ram[job.at..job.at + job.n])
    requires StartsFresh(Helper(p), started.regs, wire, addr, job) && Seen(Helper(p), started.regs.log).Some?
    ensures Ready(p, job, |b.ram|, started, 0)
  {
    var d := PlanMeets(p, started, wire, addr, job);
    assert Met(p, started, 0, d);
  }

  lemma PolledPlan(h: Honest, b: Bus, addr: nat, job: Job, data: seq<u8>) returns (h': Honest, world: World, o: Outcome)
    requires Synced(h, b.regs) && Seen(h, b.regs.log).Some? && h.depth > 0 && Fits(job, b.ram)
    requires 0 < job.n == |data| <= 0xFFFF && (!job.reading ==> data == b.ram[job.at..job.at + job.n])
    ensures Synced(h', b.regs) && GoesOn(h, h', |b.regs.log|)
    ensures o == PolledLoop(world, b.(regs := Primed(b.regs, addr, job)), job, 0, job.n + 1)
    ensures o.result == Ok && Seen(h', o.bus.regs.log).Some?
    ensures |o.bus.ram| == |b.ram| && o.bus.ram[job.at..job.at + job.n] == data
  {
    var n := |b.regs.log|;
    var p := Plan(h, n, n + 13, job.reading, data, b.regs.polls, b.regs.pops);
    h', world := Helper(p), HelpfulWorld(p);
    SeenSame(h, h', b.regs.log);
    var primed := b.(regs := Primed(b.regs, addr, job));
    var wire := PrimedIsFresh(h', b.regs, addr, job);
    PrimedAnswered(h', b.regs, addr, job);
    StartedReady(p, b, primed, wire, addr, job);
    var last := PlanSucceeds(p, primed, job);
    o := Outcome(last, job.n, Ok, false);
  }

  /** A polled transfer of 1 to 65535 bytes can come out Ok with one spin more than bytes, whatever the controller was
      doing before. */
  lemma PolledCanSucceed(h: Honest, b: Bus, reading: bool, addr: u8, buf: Ptr, len: nat, data: seq<u8>,
                         spins: nat)
    returns (h': Honest, world: World, o: Outcome)
    requires Synced(h, b.regs) && Seen(h, b.regs.log).Some? && h.depth > 0
    requires spins == len + 1 && BufferOk(buf, len, |b.ram|) && buf.At? && 0 < len && addr < 0x80
    requires len == |data| <= 0xFFFF
    requires !reading ==> data == b.ram[buf.addr..buf.addr + len]
    ensures GoesOn(h, h', |b.regs.log|)
    ensures o == PolledTransfer(world, b, spins, reading, addr, buf, len)
    ensures o.result == Ok && Seen(h', o.bus.regs.log).Some?
    ensures Exchanged(Seen(h', o.bus.regs.log).value, o.bus.ram, buf.addr, len, data)
  {
    h', world, o := PolledPlanned(h, b, reading, addr, buf, len, data, spins);
    PolledExchanged(h', world, b, spins, reading, addr, buf, len, data, o);
  }

  lemma PolledPlanned(h: Honest, b: Bus, reading: bool, addr: u8, buf: Ptr, len: nat, data: seq<u8>, spins: nat)
    returns (h': Honest, world: World, o: Outcome)
    requires Synced(h, b.regs) && Seen(h, b.regs.log).Some? && h.depth > 0
    requires spins == len + 1 && BufferOk(buf, len, |b.ram|) && !Rejected(addr, buf, len) && len == |data| <= 0xFFFF
    requires !reading ==> data == b.ram[buf.addr..buf.addr + len]
    ensures GoesOn(h, h', |b.regs.log|) && Synced(h', b.regs)
    ensures o == PolledTransfer(world, b, spins, reading, addr, buf, len)
    ensures o.result == Ok && Seen(h', o.bus.regs.log).Some?
    ensures |o.bus.ram| == |b.ram| && o.bus.ram[buf.addr..buf.addr + len] == data
  {
    h', world, o := PolledPlan(h, b, addr, Job(reading, buf.addr, len), data);
    PolledIs(world, b, spins, reading, addr, buf, len);
  }

  lemma PolledIs(world: World, b: Bus, spins: nat, reading: bool, addr: u8, buf: Ptr, len: nat)
    requires BufferOk(buf, len, |b.ram|) && !Rejected(addr, buf, len)
    ensures var job := Job(reading, buf.addr, len);
            PolledTransfer(world, b, spins, reading, addr, buf, len)
            == PolledLoop(world, b.(regs := Primed(b.regs, addr, job)), job, 0, spins)
  {
  }

  // ----- Interrupt-driven

  function Once(k: nat): nat {
    1
  }

  function Undivided(id: nat, k: nat): nat {
    0
  }

  /** No callbacks, one interrupt at each moment of waiting, none inside a `start`, and one look at `done`. */
  function Prompt(world: World, ramSize: nat): Env {
    Env(world, NoRequests, Once, Undivided, 1, ramSize)
  }

  lemma IrqPlan(h: Honest, t: Tr, q: Request, job: Job, data: seq<u8>) returns (h': Honest, world: World, o: Bus)
    requires Synced(h, t.bus.regs) && Seen(h, t.bus.regs.log).Some? && h.depth > 0 && Fits(job, t.bus.ram)
    requires 0 < job.n == |data| <= 0xFFFF && (!job.reading ==> data == t.bus.ram[job.at..job.at + job.n])
    requires q.reading == job.reading && q.len == job.n
    ensures Synced(h', t.bus.regs) && GoesOn(h, h', |t.bus.regs.log|)
    ensures IsrLoop(world, StartTransfer(t, q).bus, job, 0) == IsrOutcome(o, job.n, Some(Ok))
    ensures Seen(h', o.regs.log).Some? && |o.ram| == |t.bus.ram| && o.ram[job.at..job.at + job.n] == data
  {
    var n, started := |t.bus.regs.log|, StartTransfer(t, q).bus;
    var p := Plan(h, n, n + 17, job.reading, data, t.bus.regs.polls, t.bus.regs.pops);
    h', world := Helper(p), HelpfulWorld(p);
    SeenSame(h, h', t.bus.regs.log);
    var wire := ArmedIsFresh(h', t.bus.regs, q.addr, Job(q.reading, 0, q.len));
    ArmedAnswered(h', t.bus.regs, q.addr, Job(q.reading, 0, q.len));
    StartedReady(p, t.bus, started, wire, q.addr, job);
    o := PlanSucceeds(p, started, job);
  }

  /** One interrupt that ends the transfer with Ok. */
  lemma OnePromptIrq(e: Env, t: Tr, o: Bus)
    requires Sound(e, t) && IntsOn(t.bus.regs.c) && t.x.cb.None? && e.arrivals(t.slot) == 1 && e.maxWaits == 1
    requires IsrLoop(e.world, t.bus, JobOf(t.x), IndexOf(t.x)) == IsrOutcome(o, JobOf(t.x).n, Some(Ok))
    ensures var Returned(t', r) := WaitLoop(e, NextSlot(e, t), e.maxWaits);
            r == Ok && t'.bus == Bus(Silenced(o.regs), o.ram)
  {
    var t1 := t.(slot := t.slot + 1);
    OneInterrupt(e, t1);
    FinalizeIs(e, Pumped(e, t1), Ok);
  }

  lemma PromptSync(e: Env, t: Tr, q: Request, o: Bus) returns (t': Tr)
    requires e == Prompt(e.world, |t.bus.ram|) && Sound(e, t) && q.cb.None?
    requires BufferOk(q.buf, q.len, e.ramSize) && !Rejected(q.addr, q.buf, q.len)
    requires IsrLoop(e.world, StartTransfer(t, q).bus, Job(q.reading, q.buf.addr, q.len), 0)
          == IsrOutcome(o, q.len, Some(Ok))
    ensures SyncTransfer(e, t, q.reading, q.addr, q.buf, q.len) == Returned(t', Ok)
    ensures t'.bus == Bus(Silenced(o.regs), o.ram) && Undisturbed(e, t)
  {
    SyncIsWait(e, t, q.reading, q.addr, q.buf, q.len);
    OnePromptIrq(e, StartTransfer(t, q), o);
    t' := SyncTransfer(e, t, q.reading, q.addr, q.buf, q.len).t;
  }

  lemma IrqExchanged(h: Honest, e: Env, t: Tr, reading: bool, addr: u8, buf: Ptr, len: nat, data: seq<u8>, t': Tr)
    requires Synced(h, t.bus.regs) && Sound(e, t) && Undisturbed(e, t) && len <= 0xFFFF
    requires BufferOk(buf, len, e.ramSize) && !Rejected(addr, buf, len)
    requires SyncTransfer(e, t, reading, addr, buf, len) == Returned(t', Ok) && Seen(h, t'.bus.regs.log).Some?
    requires |t'.bus.ram| == e.ramSize && t'.bus.ram[buf.addr..buf.addr + len] == data
    ensures Exchanged(Seen(h, t'.bus.regs.log).value, t'.bus.ram, buf.addr, len, data)
  {
    var i := IrqDelivers(h, e, t, reading, addr, buf, len, t', Ok);
    OkExchanged(h, t'.bus, reading, addr, buf.addr, len, i, data);
  }

  lemma OkExchanged(h: Honest, b: Bus, reading: bool, addr: nat, at: nat, len: nat, i: nat, data: seq<u8>)
    requires Arrived(h, b, reading, addr, at, len, i, Ok) && Seen(h, b.regs.log).Some? && len <= 0xFFFF
    requires at + len <= |b.ram| && b.ram[at..at + len] == data
    ensures Exchanged(Seen(h, b.regs.log).value, b.ram, at, len, data)
  {
    assert data[..len % 0x1_0000] == data;
  }

  lemma IrqPlanned(h: Honest, t: Tr, q: Request, data: seq<u8>) returns (h': Honest, e: Env, t': Tr)
    requires Synced(h, t.bus.regs) && Seen(h, t.bus.regs.log).Some? && h.depth > 0 && XferOk(t.x, |t.bus.ram|)
    requires BufferOk(q.buf, q.len, |t.bus.ram|) && !Rejected(q.addr, q.buf, q.len) && q.cb.None?
    requires q.len == |data| <= 0xFFFF && (!q.reading ==> data == t.bus.ram[q.buf.addr..q.buf.addr + q.len])
    ensures GoesOn(h, h', |t.bus.regs.log|) && Synced(h', t.bus.regs)
    ensures Sound(e, t) && e.ramSize == |t.bus.ram| && Undisturbed(e, t)
    ensures SyncTransfer(e, t, q.reading, q.addr, q.buf, q.len) == Returned(t', Ok)
    ensures Seen(h', t'.bus.regs.log).Some?
    ensures |t'.bus.ram| == e.ramSize && t'.bus.ram[q.buf.addr..q.buf.addr + q.len] == data
  {
    var world: World, o: Bus;
    h', world, o := IrqPlan(h, t, q, Job(q.reading, q.buf.addr, q.len), data);
    e := Prompt(world, |t.bus.ram|);
    t' := PromptSync(e, t, q, o);
    SilencedAnswered(h', o.regs);
  }

  /** An interrupt-driven transfer of 1 to 65535 bytes can come out Ok with a single interrupt and a single look,
      whatever the controller was doing before. */
  lemma IrqCanSucceed(h: Honest, t: Tr, reading: bool, addr: u8, buf: Ptr, len: nat, data: seq<u8>)
    returns (h': Honest, e: Env, t': Tr)
    requires Synced(h, t.bus.regs) && Seen(h, t.bus.regs.log).Some? && h.depth > 0 && XferOk(t.x, |t.bus.ram|)
    requires BufferOk(buf, len, |t.bus.ram|) && buf.At? && 0 < len && addr < 0x80 && len == |data| <= 0xFFFF
    requires !reading ==> data == t.bus.ram[buf.addr..buf.addr + len]
    ensures GoesOn(h, h', |t.bus.regs.log|) && Sound(e, t)
    ensures SyncTransfer(e, t, reading, addr, buf, len) == Returned(t', Ok)
    ensures Seen(h', t'.bus.regs.log).Some?
    ensures Exchanged(Seen(h', t'.bus.regs.log).value, t'.bus.ram, buf.addr, len, data)
  {
    h', e, t' := IrqPlanned(h, t, Request(reading, addr, buf, len, None), data);
    IrqExchanged(h', e, t, reading, addr, buf, len, data, t');
  }
}
