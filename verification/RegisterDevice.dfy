/**
 A slave that keeps a file of 256 registers behind an auto-incrementing pointer, as every sensor on the bus does: the
 first byte of a write sets the pointer, further bytes are stored, a read returns the registers from the pointer on.
 */
module RegisterDevice {
  import opened Common
  import opened BscRegisters
  import opened Transfers
  import opened PolledTransport
  import opened IrqTransfers
  import opened IrqStarts
  import opened IrqLaws
  import opened BscDevice
  import opened FreshStart
  import opened EndToEnd
  import opened Delivery

  datatype Slave = Slave(file: seq<u8>, ptr: nat)

  predicate SlaveOk(s: Slave) {
    |s.file| == 256 && s.ptr < 256
  }

  function Stored(file: seq<u8>, at: nat, values: seq<u8>): (r: seq<u8>)
    requires |file| == 256 && at < 256
    ensures |r| == 256
    decreases |values|
  {
    if values == [] then file else Stored(file[at := values[0]], (at + 1) % 256, values[1..])
  }

  /** The slave with address `me` after one transaction. */
  function AfterTxn(me: nat, s: Slave, x: Txn): (s': Slave)
    requires SlaveOk(s)
    ensures SlaveOk(s')
  {
    if x.addr != me then s
    else if x.reading then s.(ptr := (s.ptr + |x.bytes|) % 256)
    else if x.bytes == [] then s
    else Slave(Stored(s.file, x.bytes[0], x.bytes[1..]), (x.bytes[0] + |x.bytes| - 1) % 256)
  }

  function AfterWire(me: nat, s: Slave, wire: seq<Txn>): (s': Slave)
    requires SlaveOk(s)
    ensures SlaveOk(s')
  {
    if wire == [] then s else AfterTxn(me, AfterWire(me, s, wire[..|wire| - 1]), wire[|wire| - 1])
  }

  /** The `j`-th byte a read would return. */
  function Shown(s: Slave, j: nat): u8
    requires SlaveOk(s)
  {
    s.file[(s.ptr + j) % 256]
  }

  ghost predicate Answers(me: nat, s: Slave, x: Txn)
    requires SlaveOk(s)
  {
    x.reading && x.addr == me ==> forall j | 0 <= j < |x.bytes| :: x.bytes[j] == Shown(s, j)
  }

  /** Every byte read from the slave is the register it should be. */
  ghost predicate HonestSlave(me: nat, s: Slave, wire: seq<Txn>)
    requires SlaveOk(s)
  {
    wire != [] ==>
      && HonestSlave(me, s, wire[..|wire| - 1])
      && Answers(me, AfterWire(me, s, wire[..|wire| - 1]), wire[|wire| - 1])
  }

  lemma WireAppend(me: nat, s: Slave, wire: seq<Txn>, x: Txn)
    requires SlaveOk(s)
    ensures AfterWire(me, s, wire + [x]) == AfterTxn(me, AfterWire(me, s, wire), x)
  {
    assert (wire + [x])[..|wire|] == wire;
  }

  lemma WriteTwo(me: nat, s: Slave, reg: u8, value: u8)
    requires SlaveOk(s)
    ensures AfterTxn(me, s, Txn(false, me, [reg, value])).file == s.file[reg := value]
  {
    assert [reg, value][1..] == [value];
    assert Stored(s.file, reg, [value]) == Stored(s.file[reg := value], (reg + 1) % 256, [value][1..]);
  }

  lemma SetPointer(me: nat, s: Slave, reg: u8)
    requires SlaveOk(s)
    ensures AfterTxn(me, s, Txn(false, me, [reg])) == Slave(s.file, reg)
  {
    assert [reg][1..] == [];
  }

  /** Writing register `reg` and reading from `reg` on yields the value written, then the following registers. */
  lemma WireRoundTrip(me: nat, s: Slave, w: seq<Txn>, reg: u8, value: u8, bytes: seq<u8>)
    requires SlaveOk(s)
    requires HonestSlave(me, s, w + [Txn(false, me, [reg, value])] + [Txn(false, me, [reg])] + [Txn(true, me, bytes)])
    ensures forall j | 0 <= j < |bytes| :: bytes[j] == Shown(Slave(AfterWire(me, s, w).file[reg := value], reg), j)
    ensures bytes != [] ==> bytes[0] == value
  {
    var w1 := w + [Txn(false, me, [reg, value])];
    var w2 := w1 + [Txn(false, me, [reg])];
    WireAppend(me, s, w, Txn(false, me, [reg, value]));
    WriteTwo(me, AfterWire(me, s, w), reg, value);
    WireAppend(me, s, w1, Txn(false, me, [reg]));
    SetPointer(me, AfterWire(me, s, w1), reg);
    var wire := w2 + [Txn(true, me, bytes)];
    assert wire[..|wire| - 1] == w2;
    assert Answers(me, AfterWire(me, s, w2), Txn(true, me, bytes));
  }

  // ----- One transfer that says Ok

  /** Between two points of the transcript exactly this transaction took place, and the controller has come to rest. */
  ghost predicate Phase(h: Honest, log: seq<Op>, log': seq<Op>, x: Txn) {
    Seen(h, log').Some? ==>
      && Seen(h, log).Some?
      && var d, d' := Seen(h, log).value, Seen(h, log').value;
      && !d'.ta && d'.wire != [] && Last(d') == x
      && (!d.ta ==> d'.wire == d.wire + [x])
  }

  /** Three transfers that say Ok, the first of them from any state: a register round trip. */
  lemma PhasesRoundTrip(h: Honest, s: Slave, l0: seq<Op>, l1: seq<Op>, l2: seq<Op>, l3: seq<Op>,
                        me: nat, reg: u8, value: u8, bytes: seq<u8>)
    requires Phase(h, l0, l1, Txn(false, me, [reg, value]))
    requires Phase(h, l1, l2, Txn(false, me, [reg]))
    requires Phase(h, l2, l3, Txn(true, me, bytes))
    requires Seen(h, l3).Some? && SlaveOk(s) && HonestSlave(me, s, Seen(h, l3).value.wire)
    requires 0 < |bytes|
    ensures bytes[0] == value
  {
    var d1, d2, d3 := Seen(h, l1).value, Seen(h, l2).value, Seen(h, l3).value;
    var w := d1.wire[..|d1.wire| - 1];
    assert d1.wire == w + [Last(d1)];
    WireRoundTrip(me, s, w, reg, value, bytes);
  }

  lemma StepSeen(h: Honest, world: World, b: Bus, job: Job, i: nat)
    requires Fits(job, b.ram)
    ensures Seen(h, Step(world, b, job, i).regs.log).Some? ==> Seen(h, b.regs.log).Some?
  {
    var s := ReadS(world.status(b.regs.polls));
    SeenAppend(h, b.regs.log, s);
    if Looking(world, b, job, i) == Move {
      SeenAppend(h, b.regs.log + [s], if job.reading then Pop(NextByte(world, b.regs)) else Push(b.ram[job.at + i]));
    }
  }

  lemma {:induction false} LoopSeen(h: Honest, world: World, b: Bus, job: Job, i: nat, spins: nat)
    requires Fits(job, b.ram) && i <= job.n
    ensures Seen(h, PolledLoop(world, b, job, i, spins).bus.regs.log).Some? ==> Seen(h, b.regs.log).Some?
    decreases spins
  {
    if spins > 0 {
      StepSeen(h, world, b, job, i);
      if !Looking(world, b, job, i).Stop? {
        LoopSeen(h, world, Step(world, b, job, i), job, StepIndex(world, b, job, i), spins - 1);
      }
    }
  }

  lemma {:induction false} IsrSeen(h: Honest, world: World, b: Bus, job: Job, i: nat)
    requires Fits(job, b.ram) && i <= job.n
    ensures Seen(h, IsrLoop(world, b, job, i).bus.regs.log).Some? ==> Seen(h, b.regs.log).Some?
    decreases job.n - i
  {
    StepSeen(h, world, b, job, i);
    if Looking(world, b, job, i) == Move { IsrSeen(h, world, Step(world, b, job, i), job, i + 1); }
  }

  lemma {:induction false} InterruptsSeen(h: Honest, world: World, b: Bus, job: Job, i: nat, n: nat)
    requires Fits(job, b.ram) && i <= job.n
    ensures Seen(h, Interrupts(world, b, job, i, n).bus.regs.log).Some? ==> Seen(h, b.regs.log).Some?
    decreases n
  {
    if n > 0 {
      IsrSeen(h, world, b, job, i);
      var o := IsrLoop(world, b, job, i);
      if o.verdict.None? { InterruptsSeen(h, world, o.bus, job, o.i, n - 1); }
    }
  }

  /** A transfer that met its meaning is one transaction on the wire. */
  lemma FlightOver(h: Honest, r: Regs, b: Bus, f: Flight, i: nat)
    requires i <= f.job.n && Fits(f.job, b.ram) && 0 < f.job.n && (f.job.reading || f.job.n <= 0xFFFF)
    requires Tracks(h, b, f, i) && Continues(h, r, f.wire)
    requires Seen(h, b.regs.log).Some? ==>
               Seen(h, r.log).Some? && Meaning(Seen(h, b.regs.log).value, f, Moved(f, b.ram, i), Ok)
    ensures Phase(h, r.log, b.regs.log, Txn(f.job.reading, f.addr, b.ram[f.job.at..f.job.at + f.job.n]))
  {
    if Seen(h, b.regs.log).Some? { LastIs(Seen(h, b.regs.log).value, f); }
  }

  lemma PolledSeen(h: Honest, world: World, b: Bus, spins: nat, reading: bool, addr: u8, buf: Ptr, len: nat)
    requires BufferOk(buf, len, |b.ram|) && !Rejected(addr, buf, len)
    ensures Seen(h, PolledTransfer(world, b, spins, reading, addr, buf, len).bus.regs.log).Some? ==>
              Seen(h, b.regs.log).Some?
  {
    var job := Job(reading, buf.addr, len);
    PrimedAnswered(h, b.regs, addr, job);
    LoopSeen(h, world, b.(regs := Primed(b.regs, addr, job)), job, 0, spins);
  }

  lemma PolledPhase(h: Honest, world: World, b: Bus, spins: nat, reading: bool, addr: u8, buf: Ptr, len: nat,
                    o: Outcome)
    requires Synced(h, b.regs) && BufferOk(buf, len, |b.ram|)
    requires reading || len <= 0xFFFF
    requires PolledTransfer(world, b, spins, reading, addr, buf, len) == o && o.result == Ok
    ensures buf.At? && |o.bus.ram| == |b.ram| && (!reading ==> o.bus.ram == b.ram)
    ensures Synced(h, o.bus.regs)
    ensures Phase(h, b.regs.log, o.bus.regs.log, Txn(reading, addr, o.bus.ram[buf.addr..buf.addr + len]))
  {
    var f := PolledFlight(h, world, b, spins, reading, addr, buf, len);
    PolledSeen(h, world, b, spins, reading, addr, buf, len);
    FlightOver(h, b.regs, o.bus, f, o.i);
  }

  lemma TwoBytes(ram: seq<u8>, local: nat, reg: u8, value: u8)
    requires local + 2 <= |ram|
    ensures ram[local := reg][local + 1 := value][local..local + 2] == [reg, value]
  {
  }

  lemma PolledWriteRegPhase(h: Honest, world: World, b: Bus, spins: nat, addr: u8, reg: u8, value: u8, local: nat)
    requires Synced(h, b.regs) && local + 2 <= |b.ram|
    requires PolledWriteReg(world, b, spins, addr, reg, value, local).result == Ok
    ensures var o := PolledWriteReg(world, b, spins, addr, reg, value, local);
            && |o.bus.ram| == |b.ram| && Synced(h, o.bus.regs)
            && Phase(h, b.regs.log, o.bus.regs.log, Txn(false, addr, [reg, value]))
  {
    TwoBytes(b.ram, local, reg, value);
    PolledPhase(h, world, b.(ram := b.ram[local := reg][local + 1 := value]), spins, false, addr, At(local), 2,
                PolledWriteReg(world, b, spins, addr, reg, value, local));
  }

  lemma PolledReadRegPhases(h: Honest, world: World, b: Bus, spins: nat, addr: u8, reg: u8, buf: Ptr, n: nat,
                            local: nat)
    returns (mid: seq<Op>)
    requires Synced(h, b.regs) && local < |b.ram| && BufferOk(buf, n, |b.ram|)
    requires PolledReadReg(world, b, spins, addr, reg, buf, n, local).1 == Ok
    ensures var b' := PolledReadReg(world, b, spins, addr, reg, buf, n, local).0;
            && buf.At? && 0 < n && buf.addr + n <= |b'.ram|
            && Phase(h, b.regs.log, mid, Txn(false, addr, [reg]))
            && Phase(h, mid, b'.regs.log, Txn(true, addr, b'.ram[buf.addr..buf.addr + n]))
  {
    var b0 := b.(ram := b.ram[local := reg]);
    var w := PolledTransfer(world, b0, spins, false, addr, At(local), 1);
    PolledPhase(h, world, b0, spins, false, addr, At(local), 1, w);
    assert b0.ram[local..local + 1] == [reg];
    mid := w.bus.regs.log;
    PolledPhase(h, world, w.bus, spins, true, addr, buf, n, PolledTransfer(world, w.bus, spins, true, addr, buf, n));
  }

  /** Register round trip, polled: for any honest slave, `write_reg` then `read_reg` of the same register, both Ok,
      yields the value, whatever state the controller was in before. */
  lemma PolledRegisterRoundTrip(h: Honest, s: Slave, world: World, b: Bus, spins: nat, addr: u8, reg: u8, value: u8,
                                local: nat, b1: Bus, buf: Ptr, n: nat, local': nat, b2: Bus)
    requires Synced(h, b.regs) && SlaveOk(s)
    requires local + 2 <= |b.ram| && local' < |b.ram| && BufferOk(buf, n, |b.ram|)
    requires PolledWriteReg(world, b, spins, addr, reg, value, local).result == Ok
    requires b1 == PolledWriteReg(world, b, spins, addr, reg, value, local).bus && |b1.ram| == |b.ram|
    requires PolledReadReg(world, b1, spins, addr, reg, buf, n, local') == (b2, Ok)
    requires Seen(h, b2.regs.log).Some? && HonestSlave(addr, s, Seen(h, b2.regs.log).value.wire)
    ensures buf.At? && buf.addr < |b2.ram| && b2.ram[buf.addr] == value
  {
    PolledWriteRegPhase(h, world, b, spins, addr, reg, value, local);
    var mid := PolledReadRegPhases(h, world, b1, spins, addr, reg, buf, n, local');
    PhasesRoundTrip(h, s, b.regs.log, b1.regs.log, mid, b2.regs.log, addr, reg, value, b2.ram[buf.addr..buf.addr + n]);
  }

  // ----- The same, interrupt-driven

  lemma FlightIsPhase(h: Honest, r: Regs, ram: seq<u8>, f: Flight, o: IsrOutcome, b: Bus,
                      reading: bool, addr: nat, at: nat, len: nat)
    requires f == Flight(f.wire, addr, Job(reading, at, len)) && 0 < len && (reading || len <= 0xFFFF) && addr < 0x80
    requires Landed(h, ram, f, o, b, Ok) && Continues(h, r, f.wire)
    requires Seen(h, b.regs.log).Some? ==> Seen(h, r.log).Some?
    ensures at + len <= |b.ram| && |b.ram| == |ram| && (!reading ==> b.ram == ram)
    ensures Synced(h, b.regs) && !IntsOn(b.regs.c)
    ensures Phase(h, r.log, b.regs.log, Txn(reading, addr, b.ram[at..at + len]))
  {
    if Seen(h, b.regs.log).Some? {
      VerdictBounds(h, ram, f, o);
      LastIs(Seen(h, b.regs.log).value, f);
    }
  }

  lemma IrqOkFlight(h: Honest, e: Env, t: Tr, reading: bool, addr: u8, buf: Ptr, len: nat, t': Tr)
    returns (f: Flight, o: IsrOutcome)
    requires Synced(h, t.bus.regs) && Sound(e, t) && Undisturbed(e, t) && BufferOk(buf, len, e.ramSize)
    requires SyncTransfer(e, t, reading, addr, buf, len) == Returned(t', Ok)
    ensures !Rejected(addr, buf, len) && f == Flight(f.wire, addr, Job(reading, buf.addr, len))
    ensures Landed(h, t.bus.ram, f, o, t'.bus, Ok) && Continues(h, t.bus.regs, f.wire)
    ensures Seen(h, t'.bus.regs.log).Some? ==> Seen(h, t.bus.regs.log).Some?
  {
    f, o := IrqFlight(h, e, t, reading, addr, buf, len, t', Ok);
    IrqSeen(h, e, t, reading, addr, buf, len, t');
  }

  lemma IrqPhase(h: Honest, e: Env, t: Tr, reading: bool, addr: u8, buf: Ptr, len: nat, t': Tr)
    requires Synced(h, t.bus.regs) && Sound(e, t) && Undisturbed(e, t) && BufferOk(buf, len, e.ramSize)
    requires reading || len <= 0xFFFF
    requires SyncTransfer(e, t, reading, addr, buf, len) == Returned(t', Ok)
    ensures buf.At? && 0 < len && (!reading ==> t'.bus.ram == t.bus.ram) && |t'.bus.ram| == |t.bus.ram|
    ensures Synced(h, t'.bus.regs) && !IntsOn(t'.bus.regs.c)
    ensures Phase(h, t.bus.regs.log, t'.bus.regs.log, Txn(reading, addr, t'.bus.ram[buf.addr..buf.addr + len]))
  {
    var f, o := IrqOkFlight(h, e, t, reading, addr, buf, len, t');
    FlightIsPhase(h, t.bus.regs, t.bus.ram, f, o, t'.bus, reading, addr, buf.addr, len);
  }

  lemma IrqSeen(h: Honest, e: Env, t: Tr, reading: bool, addr: u8, buf: Ptr, len: nat, t': Tr)
    requires Sound(e, t) && BufferOk(buf, len, e.ramSize) && !Rejected(addr, buf, len) && Undisturbed(e, t)
    requires SyncTransfer(e, t, reading, addr, buf, len) == Returned(t', Ok)
    ensures Seen(h, t'.bus.regs.log).Some? ==> Seen(h, t.bus.regs.log).Some?
  {
    var started := StartTransfer(t, Request(reading, addr, buf, len, None));
    var total := Sum(e.arrivals, t.slot, e.maxWaits);
    var end, n := SyncLaw(e, t, reading, addr, buf, len, total);
    ArmedAnswered(h, t.bus.regs, addr, Job(reading, 0, len));
    InterruptsSeen(h, e.world, started.bus, Job(reading, buf.addr, len), 0, total);
    SilencedAnswered(h, Taken(e, started, total).bus.regs);
  }

  lemma ReadRegSplits(e: Env, t: Tr, addr: u8, local: nat, buf: Ptr, n: nat, t': Tr) returns (w: Tr)
    requires Sound(e, t) && BufferOk(buf, n, e.ramSize) && local < e.ramSize
    requires SyncWriteRead(e, t, addr, At(local), 1, buf, n) == Returned(t', Ok)
    ensures SyncTransfer(e, t, false, addr, At(local), 1) == Returned(w, Ok) && Sound(e, w)
    ensures SyncTransfer(e, w, true, addr, buf, n) == Returned(t', Ok)
  {
    w := SyncTransfer(e, t, false, addr, At(local), 1).t;
  }

  lemma IrqWriteReadPhases(h: Honest, e: Env, t: Tr, addr: u8, local: nat, buf: Ptr, n: nat, t': Tr)
    returns (mid: seq<Op>)
    requires Synced(h, t.bus.regs) && Sound(e, t) && Undisturbed(e, t)
    requires local < e.ramSize && BufferOk(buf, n, e.ramSize)
    requires SyncWriteRead(e, t, addr, At(local), 1, buf, n) == Returned(t', Ok)
    ensures buf.At? && 0 < n && buf.addr + n <= |t'.bus.ram|
    ensures Phase(h, t.bus.regs.log, mid, Txn(false, addr, t.bus.ram[local..local + 1]))
    ensures Phase(h, mid, t'.bus.regs.log, Txn(true, addr, t'.bus.ram[buf.addr..buf.addr + n]))
  {
    var w := ReadRegSplits(e, t, addr, local, buf, n, t');
    mid := w.bus.regs.log;
    IrqTwoPhases(h, e, t, addr, local, w, buf, n, t');
  }

  lemma IrqTwoPhases(h: Honest, e: Env, t: Tr, addr: u8, local: nat, w: Tr, buf: Ptr, n: nat, t': Tr)
    requires Synced(h, t.bus.regs) && Sound(e, t) && Sound(e, w) && Undisturbed(e, t)
    requires local < e.ramSize && BufferOk(buf, n, e.ramSize)
    requires SyncTransfer(e, t, false, addr, At(local), 1) == Returned(w, Ok)
    requires SyncTransfer(e, w, true, addr, buf, n) == Returned(t', Ok)
    ensures buf.At? && 0 < n && buf.addr + n <= |t'.bus.ram|
    ensures Phase(h, t.bus.regs.log, w.bus.regs.log, Txn(false, addr, t.bus.ram[local..local + 1]))
    ensures Phase(h, w.bus.regs.log, t'.bus.regs.log, Txn(true, addr, t'.bus.ram[buf.addr..buf.addr + n]))
  {
    IrqPhase(h, e, t, false, addr, At(local), 1, w);
    IrqPhase(h, e, w, true, addr, buf, n, t');
  }

  lemma IrqReadRegPhases(h: Honest, e: Env, t: Tr, addr: u8, reg: u8, buf: Ptr, n: nat, local: nat, t': Tr)
    returns (mid: seq<Op>)
    requires Synced(h, t.bus.regs) && Sound(e, t) && Undisturbed(e, t)
    requires local < e.ramSize && BufferOk(buf, n, e.ramSize)
    requires SyncReadReg(e, t, addr, reg, buf, n, local) == Returned(t', Ok)
    ensures buf.At? && 0 < n && buf.addr + n <= |t'.bus.ram|
    ensures Phase(h, t.bus.regs.log, mid, Txn(false, addr, [reg]))
    ensures Phase(h, mid, t'.bus.regs.log, Txn(true, addr, t'.bus.ram[buf.addr..buf.addr + n]))
  {
    var t0 := t.(bus := t.bus.(ram := t.bus.ram[local := reg]));
    assert t0.bus.ram[local..local + 1] == [reg];
    mid := IrqWriteReadPhases(h, e, t0, addr, local, buf, n, t');
  }

  lemma IrqWriteRegPhase(h: Honest, e: Env, t: Tr, addr: u8, reg: u8, value: u8, local: nat, t': Tr)
    requires Synced(h, t.bus.regs) && Sound(e, t) && Undisturbed(e, t) && local + 2 <= e.ramSize
    requires SyncWriteReg(e, t, addr, reg, value, local) == Returned(t', Ok)
    ensures Synced(h, t'.bus.regs) && !IntsOn(t'.bus.regs.c)
    ensures Phase(h, t.bus.regs.log, t'.bus.regs.log, Txn(false, addr, [reg, value]))
  {
    TwoBytes(t.bus.ram, local, reg, value);
    var ram := t.bus.ram[local := reg][local + 1 := value];
    IrqPhase(h, e, t.(bus := t.bus.(ram := ram)), false, addr, At(local), 2, t');
  }

  /** Register round trip, interrupt-driven, whatever the pattern of interrupts. */
  lemma IrqRegisterRoundTrip(h: Honest, s: Slave, e: Env, t: Tr, addr: u8, reg: u8, value: u8, local: nat, t1: Tr,
                             buf: Ptr, n: nat, local': nat, t2: Tr)
    requires Synced(h, t.bus.regs) && Sound(e, t) && Undisturbed(e, t) && SlaveOk(s)
    requires local + 2 <= e.ramSize && local' < e.ramSize && BufferOk(buf, n, e.ramSize)
    requires SyncWriteReg(e, t, addr, reg, value, local) == Returned(t1, Ok)
    requires SyncReadReg(e, t1, addr, reg, buf, n, local') == Returned(t2, Ok)
    requires Seen(h, t2.bus.regs.log).Some? && HonestSlave(addr, s, Seen(h, t2.bus.regs.log).value.wire)
    ensures buf.At? && buf.addr < |t2.bus.ram| && t2.bus.ram[buf.addr] == value
  {
    IrqWriteRegPhase(h, e, t, addr, reg, value, local, t1);
    var mid := IrqReadRegPhases(h, e, t1, addr, reg, buf, n, local', t2);
    PhasesRoundTrip(h, s, t.bus.regs.log, t1.bus.regs.log, mid, t2.bus.regs.log, addr, reg, value,
                    t2.bus.ram[buf.addr..buf.addr + n]);
  }
}
