/** The two transports agree on every stream of status words and FIFO bytes, and exactly when each times out. */
module Agreement {
  import opened Common
  import opened Words
  import opened BscRegisters
  import opened Transfers
  import opened PolledLaws
  import opened IrqTransfers
  import opened IrqStarts
  import opened IrqLaws

  /** The bytes pushed into the FIFO over a transcript. */
  function Pushed(log: seq<Op>): seq<u8> {
    if log == [] then []
    else
      var rest, last := Pushed(log[..|log| - 1]), log[|log| - 1];
      if last.Push? then rest + [last.byte] else rest
  }

  lemma PushedAppend(log: seq<Op>, op: Op)
    ensures Pushed(log + [op]) == if op.Push? then Pushed(log) + [op.byte] else Pushed(log)
  {
    assert (log + [op])[..|log|] == log;
  }

  /** Register writes that read no status, move no byte. */
  predicate Quiet(r: Regs, r': Regs) {
    r'.polls == r.polls && r'.pops == r.pops && Pushed(r'.log) == Pushed(r.log)
  }

  lemma StoreIsQuiet(r: Regs, v: Ctl)
    ensures Quiet(r, StoreC(r, v))
  {
    PushedAppend(r.log, WriteC(v));
  }

  lemma ClrIsQuiet(r: Regs, f: Control)
    ensures Quiet(r, ClrControl(r, f))
  {
    StoreIsQuiet(r, Dropped(r.c, f));
  }

  lemma SetIsQuiet(r: Regs, f: Control, value: Word)
    ensures Quiet(r, SetControl(r, f, value))
  {
    ClrIsQuiet(r, f);
    StoreIsQuiet(ClrControl(r, f), Raised(ClrControl(r, f).c, f, value));
  }

  lemma FlagsAreQuiet(r: Regs)
    ensures Quiet(r, ClearFlags(r))
  {
    PushedAppend(r.log, WriteS(Bit(1)));
    PushedAppend(r.log + [WriteS(Bit(1))], WriteS(Bit(8)));
    PushedAppend(r.log + [WriteS(Bit(1))] + [WriteS(Bit(8))], WriteS(Bit(9)));
  }

  lemma SetupIsQuiet(r: Regs, addr: nat, len: nat)
    ensures Quiet(r, SetLength(SetAddress(ClearFlags(ClearFifo(r)), addr), len))
  {
    SetIsQuiet(r, CLEAR, One());
    FlagsAreQuiet(ClearFifo(r));
    var r' := ClearFlags(ClearFifo(r));
    PushedAppend(r'.log, WriteA(addr % 0x80));
    PushedAppend(SetAddress(r', addr).log, WriteDlen(len % 0x1_0000));
  }

  lemma StartIsQuiet(r: Regs, reading: bool)
    ensures Quiet(r, Start(r, reading))
  {
    StartIs(r, reading);
    var r1 := SetControl(r, I2CEN, One());
    var r2 := SetControl(r1, READ, if reading then One() else Zero());
    SetIsQuiet(r, I2CEN, One());
    SetIsQuiet(r1, READ, if reading then One() else Zero());
    SetIsQuiet(r2, ST, One());
  }

  lemma PrimedIsQuiet(r: Regs, addr: nat, job: Job)
    ensures Quiet(r, Primed(r, addr, job))
  {
    SetupIsQuiet(r, addr, job.n);
    StartIsQuiet(SetLength(SetAddress(ClearFlags(ClearFifo(r)), addr), job.n), job.reading);
  }

  lemma ArmedIsQuiet(r: Regs, addr: nat, job: Job)
    ensures Quiet(r, Armed(r, addr, job))
  {
    var r0 := SetLength(SetAddress(ClearFlags(ClearFifo(r)), addr), job.n);
    var r1 := SetControl(r0, if job.reading then INTR else INTT, One());
    ArmedIs(r, addr, job);
    SetupIsQuiet(r, addr, job.n);
    SetIsQuiet(r0, if job.reading then INTR else INTT, One());
    SetIsQuiet(r1, INTD, One());
    StartIsQuiet(SetControl(r1, INTD, One()), job.reading);
  }

  lemma IntsOffIsQuiet(r: Regs)
    ensures Quiet(r, IntsOff(r))
  {
    IntsOffIs(r);
    ClrIsQuiet(r, INTD);
    ClrIsQuiet(ClrControl(r, INTD), INTT);
    ClrIsQuiet(ClrControl(ClrControl(r, INTD), INTT), INTR);
  }

  /** Two buses at the same point of the same streams, with the same memory and the same bytes pushed. */
  predicate SameData(b: Bus, b': Bus) {
    Quiet(b.regs, b'.regs) && b.ram == b'.ram
  }

  lemma StepSame(world: World, b: Bus, b': Bus, job: Job, i: nat)
    requires Fits(job, b.ram) && SameData(b, b')
    ensures Looking(world, b, job, i) == Looking(world, b', job, i)
    ensures SameData(Step(world, b, job, i), Step(world, b', job, i))
  {
    var s := ReadS(world.status(b.regs.polls));
    PushedAppend(b.regs.log, s);
    PushedAppend(b'.regs.log, s);
    if Looking(world, b, job, i) == Move {
      var op := if job.reading then Pop(NextByte(world, b.regs)) else Push(b.ram[job.at + i]);
      PushedAppend(b.regs.log + [s], op);
      PushedAppend(b'.regs.log + [s], op);
    }
  }

  /** The pump depends on nothing else. */
  lemma {:induction false} AdvanceSame(world: World, b: Bus, b': Bus, job: Job, i: nat, m: nat)
    requires Fits(job, b.ram) && i <= job.n && SameData(b, b')
    ensures SameData(Advance(world, b, job, i, m).bus, Advance(world, b', job, i, m).bus)
    ensures Advance(world, b, job, i, m).i == Advance(world, b', job, i, m).i
    decreases m
  {
    if m > 0 {
      StepSame(world, b, b', job, i);
      var a, a', j := Step(world, b, job, i), Step(world, b', job, i), StepIndex(world, b, job, i);
      assert StepIndex(world, b', job, i) == j;
      AdvanceSame(world, a, a', job, j, m - 1);
    }
  }

  lemma {:induction false} VerdictSame(world: World, b: Bus, b': Bus, job: Job, i: nat, m: nat)
    requires Fits(job, b.ram) && i <= job.n && SameData(b, b') && DecidesAt(world, b, job, i, m)
    ensures DecidesAt(world, b', job, i, m) && VerdictAt(world, b, job, i, m) == VerdictAt(world, b', job, i, m)
    decreases m
  {
    StepSame(world, b, b', job, i);
    if m > 0 {
      VerdictSame(world, Step(world, b, job, i), Step(world, b', job, i), job, StepIndex(world, b, job, i), m - 1);
    }
  }

  /** A finalized transfer leaves the data where its deciding word left it. */
  lemma SettleIsQuiet(t: Tr, r: I2cResult)
    ensures SameData(t.bus, Settle(t, r).bus)
  {
    SilencedIs(t.bus.regs);
    FlagsAreQuiet(t.bus.regs);
    IntsOffIsQuiet(ClearFlags(t.bus.regs));
  }

  /** Exact budget law of the interrupt-driven transport. With I idle words before the deciding one, the verdict is
      returned iff at least I + 1 interrupts arrive before the watchdog's last look; otherwise Timeout. */
  lemma IrqBudget(e: Env, t: Tr, reading: bool, addr: u8, buf: Ptr, len: nat, m: nat)
    requires Sound(e, t) && BufferOk(buf, len, e.ramSize) && !Rejected(addr, buf, len) && Undisturbed(e, t)
    requires DecidesAt(e.world, StartTransfer(t, Request(reading, addr, buf, len, None)).bus,
                       Job(reading, buf.addr, len), 0, m)
    ensures var started := StartTransfer(t, Request(reading, addr, buf, len, None));
            var job := Job(reading, buf.addr, len);
            var enough := IdleWords(e.world, started.bus, job, 0, m) + 1 <= Sum(e.arrivals, t.slot, e.maxWaits);
            var Returned(t', r) := SyncTransfer(e, t, reading, addr, buf, len);
            && (InTime(e, t, reading, addr, buf, len) <==> enough)
            && r == (if enough then VerdictAt(e.world, started.bus, job, 0, m) else Timeout)
            && (enough ==> SameData(Advance(e.world, started.bus, job, 0, m + 1).bus, t'.bus))
  {
    var started := StartTransfer(t, Request(reading, addr, buf, len, None));
    var total := Sum(e.arrivals, t.slot, e.maxWaits);
    var end, n := SyncLaw(e, t, reading, addr, buf, len, total);
    InterruptsLaw(e.world, started.bus, Job(reading, buf.addr, len), 0, total, m);
    var o := Taken(e, started, total);
    if o.verdict.Some? {
      SettleIsQuiet(started.(bus := o.bus, x := WithIndex(started.x, o.i)), o.verdict.value);
    }
  }

  /** One interrupt to a wait, and none before the first look: of `waits` looks all but the first see one more. */
  lemma {:induction false} SumOfOnes(arrivals: nat -> nat, from: nat, count: nat)
    requires forall j | from <= j < from + count :: arrivals(j) == 1
    ensures Sum(arrivals, from, count) == count
    decreases count
  {
    if count > 0 { SumOfOnes(arrivals, from + 1, count - 1); }
  }

  lemma OneEach(arrivals: nat -> nat, from: nat, waits: nat)
    requires arrivals(from) == 0
    requires forall j | from < j < from + waits :: arrivals(j) == 1
    ensures Sum(arrivals, from, waits) == if waits == 0 then 0 else waits - 1
  {
    if waits > 0 { SumOfOnes(arrivals, from + 1, waits - 1); }
  }

  /** With exactly one interrupt to a wait, the verdict is returned iff I + 2 <= maxWaits. */
  lemma IrqBudgetOneEach(e: Env, t: Tr, reading: bool, addr: u8, buf: Ptr, len: nat, m: nat)
    requires Sound(e, t) && BufferOk(buf, len, e.ramSize) && !Rejected(addr, buf, len) && Undisturbed(e, t)
    requires DecidesAt(e.world, StartTransfer(t, Request(reading, addr, buf, len, None)).bus,
                       Job(reading, buf.addr, len), 0, m)
    requires e.arrivals(t.slot) == 0
    requires forall j | t.slot < j < t.slot + e.maxWaits :: e.arrivals(j) == 1
    ensures var started := StartTransfer(t, Request(reading, addr, buf, len, None));
            var job := Job(reading, buf.addr, len);
            SyncTransfer(e, t, reading, addr, buf, len).r ==
            if IdleWords(e.world, started.bus, job, 0, m) + 2 <= e.maxWaits
            then VerdictAt(e.world, started.bus, job, 0, m)
            else Timeout
  {
    IrqBudget(e, t, reading, addr, buf, len, m);
    OneEach(e.arrivals, t.slot, e.maxWaits);
  }

  /** Both transports start a transfer with the same data. */
  lemma StartsAgree(t: Tr, b: Bus, reading: bool, addr: u8, buf: Ptr, len: nat)
    requires SameData(t.bus, b)
    ensures SameData(b.(regs := Primed(b.regs, addr, Job(reading, if buf.At? then buf.addr else 0, len))),
                     StartTransfer(t, Request(reading, addr, buf, len, None)).bus)
  {
    PrimedIsQuiet(b.regs, addr, Job(reading, if buf.At? then buf.addr else 0, len));
    ArmedIsQuiet(t.bus.regs, addr, Job(reading, 0, len));
  }

  /** The polled outcome, seen from any bus with the same data. */
  lemma PolledSame(world: World, b: Bus, b': Bus, job: Job, spins: nat) returns (m: nat)
    requires Fits(job, b.ram) && SameData(b, b') && !PolledLoop(world, b, job, 0, spins).expired
    ensures DecidesAt(world, b', job, 0, m)
    ensures var p := PolledLoop(world, b, job, 0, spins);
            p.result == VerdictAt(world, b', job, 0, m) && SameData(p.bus, Advance(world, b', job, 0, m + 1).bus)
  {
    m := PolledDecides(world, b, job, 0, spins);
    PolledBudget(world, b, job, 0, spins, m);
    VerdictSame(world, b, b', job, 0, m);
    AdvanceSame(world, b, b', job, 0, m + 1);
  }

  /** For every stream of status words and FIFO bytes, every memory, every pattern of interrupts and every pair of
      budgets that do not expire: the same verdict, the same memory, the same bytes pushed, and the streams read
      equally far. */
  lemma TransportsAgree(e: Env, t: Tr, b: Bus, spins: nat, reading: bool, addr: u8, buf: Ptr, len: nat)
    requires Sound(e, t) && SameData(t.bus, b) && BufferOk(buf, len, e.ramSize) && Undisturbed(e, t)
    requires !PolledTransfer(e.world, b, spins, reading, addr, buf, len).expired
    requires InTime(e, t, reading, addr, buf, len)
    ensures var p := PolledTransfer(e.world, b, spins, reading, addr, buf, len);
            var Returned(t', r) := SyncTransfer(e, t, reading, addr, buf, len);
            r == p.result && SameData(t'.bus, p.bus)
  {
    if !Rejected(addr, buf, len) {
      var job := Job(reading, buf.addr, len);
      StartsAgree(t, b, reading, addr, buf, len);
      var m := PolledSame(e.world, b.(regs := Primed(b.regs, addr, job)),
                          StartTransfer(t, Request(reading, addr, buf, len, None)).bus, job, spins);
      IrqBudget(e, t, reading, addr, buf, len, m);
    }
  }

  /** On a stream that never decides the transfer both transports give up, whatever their budgets. */
  lemma NeverDecided(e: Env, t: Tr, b: Bus, spins: nat, reading: bool, addr: u8, buf: Ptr, len: nat)
    requires Sound(e, t) && SameData(t.bus, b) && BufferOk(buf, len, e.ramSize) && !Rejected(addr, buf, len)
    requires Undisturbed(e, t)
    requires var started := StartTransfer(t, Request(reading, addr, buf, len, None));
             forall m: nat :: !DecidesAt(e.world, started.bus, Job(reading, buf.addr, len), 0, m)
    ensures PolledTransfer(e.world, b, spins, reading, addr, buf, len).result == Timeout
    ensures SyncTransfer(e, t, reading, addr, buf, len).r == Timeout
  {
    var job := Job(reading, buf.addr, len);
    var started := StartTransfer(t, Request(reading, addr, buf, len, None));
    var primed := b.(regs := Primed(b.regs, addr, job));
    StartsAgree(t, b, reading, addr, buf, len);
    if !PolledLoop(e.world, primed, job, 0, spins).expired {
      var m := PolledSame(e.world, primed, started.bus, job, spins);
    } else {
      ExpiredIsTimeout(e.world, primed, job, 0, spins);
    }
    var total := Sum(e.arrivals, t.slot, e.maxWaits);
    var end, n := SyncLaw(e, t, reading, addr, buf, len, total);
    if Taken(e, started, total).verdict.Some? {
      var m := InterruptsDecide(e.world, started.bus, job, 0, total);
    }
  }

  lemma {:induction false} ExpiredIsTimeout(world: World, b: Bus, job: Job, i: nat, spins: nat)
    requires Fits(job, b.ram) && i <= job.n && PolledLoop(world, b, job, i, spins).expired
    ensures PolledLoop(world, b, job, i, spins).result == Timeout
    decreases spins
  {
    if spins > 0 {
      ExpiredIsTimeout(world, Step(world, b, job, i), job, StepIndex(world, b, job, i), spins - 1);
    }
  }
}
