/** The end-to-end theorems, transport by transport: what arrives at the slave and what arrives in the buffer. */
module Delivery {
  import opened Common
  import opened Words
  import opened BscRegisters
  import opened Transfers
  import opened PolledTransport
  import opened IrqTransfers
  import opened IrqStarts
  import opened IrqLaws
  import opened BscDevice
  import opened FreshStart
  import opened EndToEnd

  // ----- The polled transport

  lemma {:induction false} PolledTracks(h: Honest, world: World, b: Bus, f: Flight, i: nat, spins: nat)
    requires i <= f.job.n && Fits(f.job, b.ram) && Tracks(h, b, f, i)
    ensures var o := PolledLoop(world, b, f.job, i, spins);
            && o.i <= f.job.n && |o.bus.ram| == |b.ram| && o.bus.regs.c == b.regs.c
            && (o.expired ==> o.result == Timeout) && (!f.job.reading ==> o.bus.ram == b.ram)
            && Tracks(h, o.bus, f, o.i)
            && (!o.expired && Seen(h, o.bus.regs.log).Some? ==>
                  Meaning(Seen(h, o.bus.regs.log).value, f, Moved(f, o.bus.ram, o.i), o.result))
    decreases spins
  {
    if spins > 0 {
      if Looking(world, b, f.job, i).Stop? {
        StepTracks(h, world, b, f, i);
        StopMeans(h, world, b, f, i, Looking(world, b, f.job, i).r);
      } else {
        StepTracks(h, world, b, f, i);
        PolledTracks(h, world, Step(world, b, f.job, i), f, StepIndex(world, b, f.job, i), spins - 1);
      }
    }
  }

  /** A polled transfer against an honest controller in any state, acting as it likes before every access. */
  lemma PolledFlight(h: Honest, world: World, b: Bus, spins: nat, reading: bool, addr: u8, buf: Ptr, len: nat)
    returns (f: Flight)
    requires Synced(h, b.regs) && BufferOk(buf, len, |b.ram|) && !Rejected(addr, buf, len)
    ensures f.job == Job(reading, buf.addr, len) && f.addr == addr && Continues(h, b.regs, f.wire)
    ensures var o := PolledTransfer(world, b, spins, reading, addr, buf, len);
            && o.i <= len && |o.bus.ram| == |b.ram| && Tracks(h, o.bus, f, o.i)
            && (o.expired ==> o.result == Timeout) && (!reading ==> o.bus.ram == b.ram)
            && (!o.expired && Seen(h, o.bus.regs.log).Some? ==>
                  Meaning(Seen(h, o.bus.regs.log).value, f, Moved(f, o.bus.ram, o.i), o.result))
  {
    var job := Job(reading, buf.addr, len);
    var wire := PrimedIsFresh(h, b.regs, addr, job);
    f := Flight(wire, addr, job);
    var primed := b.(regs := Primed(b.regs, addr, job));
    FreshTracks(h, primed, f);
    PolledTracks(h, world, primed, f, 0, spins);
  }

  /** Polled write: the slave has received a prefix of the buffer, and with Ok the whole of it, in order, if and only if
      DLEN could hold its length. */
  lemma PolledWriteDelivers(h: Honest, world: World, b: Bus, spins: nat, addr: u8, buf: Ptr, len: nat)
    requires Synced(h, b.regs) && BufferOk(buf, len, |b.ram|) && !Rejected(addr, buf, len)
    ensures var o := PolledTransfer(world, b, spins, false, addr, buf, len);
            Seen(h, o.bus.regs.log).Some? ==>
              var d := Seen(h, o.bus.regs.log).value;
              var sent := b.ram[buf.addr..buf.addr + len];
              && d.wire != [] && Last(d).addr == addr && !Last(d).reading
              && Last(d).bytes + d.fifo <= sent
              && (o.result == Ok ==> |Last(d).bytes| == len % 0x1_0000)
              && (o.result == Ok ==> (Last(d).bytes == sent <==> len <= 0xFFFF))
              && (o.result == Ok && len <= 0xFFFF ==> d.fifo == [])
  {
    var f := PolledFlight(h, world, b, spins, false, addr, buf, len);
    var o := PolledTransfer(world, b, spins, false, addr, buf, len);
    if Seen(h, o.bus.regs.log).Some? {
      LastIs(Seen(h, o.bus.regs.log).value, f);
      assert Moved(f, b.ram, o.i) <= b.ram[buf.addr..buf.addr + len];
    }
  }

  lemma LastIs(d: Dev, f: Flight)
    requires OnTheWire(d, f)
    ensures Last(d).addr == f.addr && Last(d).reading == f.job.reading
  {
  }

  /** Polled read: the buffer begins with a prefix of what the slave sent and is otherwise untouched; Ok means exactly
      all of it, in order; and up to 65535 bytes the short-read verdict is never met (a Timeout is an exhausted
      budget). */
  lemma PolledReadDelivers(h: Honest, world: World, b: Bus, spins: nat, addr: u8, buf: Ptr, len: nat)
    requires Synced(h, b.regs) && BufferOk(buf, len, |b.ram|) && !Rejected(addr, buf, len)
    ensures var o := PolledTransfer(world, b, spins, true, addr, buf, len);
            && o.i <= len && Within(b.ram, o.bus.ram, Job(true, buf.addr, o.i))
            && (Seen(h, o.bus.regs.log).Some? ==>
                  var d := Seen(h, o.bus.regs.log).value;
                  && d.wire != [] && Last(d).addr == addr && Last(d).reading
                  && Last(d).bytes == o.bus.ram[buf.addr..buf.addr + o.i] + d.fifo
                  && (o.result == Ok ==> len <= 0xFFFF && Last(d).bytes == o.bus.ram[buf.addr..buf.addr + len])
                  && (o.result == Timeout && !o.expired ==> len > 0xFFFF))
  {
    var f := PolledFlight(h, world, b, spins, true, addr, buf, len);
    LoopFrame(world, b.(regs := Primed(b.regs, addr, f.job)), f.job, 0, spins);
    var o := PolledTransfer(world, b, spins, true, addr, buf, len);
    if Seen(h, o.bus.regs.log).Some? {
      LastIs(Seen(h, o.bus.regs.log).value, f);
      assert Moved(f, o.bus.ram, o.i) == o.bus.ram[buf.addr..buf.addr + o.i];
    }
  }

  // ----- After the last data access of an interrupt-driven transfer

  /** The slave's view is safe from here on: what went over stays as it is, or grows along the transfer's bytes; if
      the controller is idle it stays exactly `frozen`. */
  predicate Kept(d: Dev, f: Flight, moved: seq<u8>, frozen: Option<seq<u8>>) {
    && OnTheWire(d, f)
    && (if f.job.reading then moved <= Last(d).bytes else Last(d).bytes + d.fifo <= moved)
    && (frozen.Some? ==> !d.ta && Last(d).bytes == frozen.value)
  }

  ghost predicate Keeps(h: Honest, r: Regs, f: Flight, moved: seq<u8>, frozen: Option<seq<u8>>) {
    Synced(h, r) && (Seen(h, r.log).Some? ==> Kept(Seen(h, r.log).value, f, moved, frozen))
  }

  lemma {:induction false} EventsKept(depth: nat, d: Dev, evs: seq<DevEvent>, f: Flight, moved: seq<u8>,
                                      frozen: Option<seq<u8>>)
    requires Kept(d, f, moved, frozen)
    ensures Kept(Events(depth, d, evs), f, moved, frozen)
    decreases |evs|
  {
    if evs != [] {
      EventsKept(depth, d, evs[..|evs| - 1], f, moved, frozen);
      var d0, ev := Events(depth, d, evs[..|evs| - 1]), evs[|evs| - 1];
      var d1 := AfterEvent(depth, d0, ev);
      if d1.wire != d0.wire {
        assert d0.wire[..|d0.wire| - 1] == f.wire;
        if ev.Shift? {
          assert d0.fifo == [d0.fifo[0]] + d0.fifo[1..];
          assert Last(d0).bytes + d0.fifo == Last(d0).bytes + [d0.fifo[0]] + d0.fifo[1..];
        }
      }
    }
  }

  /** The controller as the next access finds it. */
  lemma FoundKept(h: Honest, r: Regs, f: Flight, moved: seq<u8>, frozen: Option<seq<u8>>, op: Op) returns (d: Dev)
    requires Keeps(h, r, f, moved, frozen) && Seen(h, r.log).Some?
    ensures Seen(h, r.log + [op]) == Access(h.depth, d, op) && Kept(d, f, moved, frozen)
    ensures d.c == r.c && d.a == r.a && d.dlen == r.dlen
  {
    SeenAppend(h, r.log, op);
    var d0, evs := Seen(h, r.log).value, h.before(|r.log|);
    d := Events(h.depth, d0, evs);
    EventsKept(h.depth, d0, evs, f, moved, frozen);
    EventsKeepC(h.depth, d0, evs);
  }

  lemma ControlKept(d: Dev, v: Ctl, f: Flight, moved: seq<u8>, frozen: Option<seq<u8>>)
    requires Kept(d, f, moved, frozen) && !v.st
    ensures Kept(OnControl(d, v), f, moved, frozen)
  {
    LastIs(d, f);
  }

  lemma StoreKeeps(h: Honest, r: Regs, v: Ctl, f: Flight, moved: seq<u8>, frozen: Option<seq<u8>>)
    requires Keeps(h, r, f, moved, frozen) && !v.st
    ensures Keeps(h, StoreC(r, v), f, moved, frozen)
    ensures Seen(h, StoreC(r, v).log).Some? ==> Seen(h, r.log).Some?
  {
    if Seen(h, r.log).Some? {
      var d := FoundKept(h, r, f, moved, frozen, WriteC(v));
      ControlKept(d, v, f, moved, frozen);
    } else {
      StaysSilent(h, r.log, WriteC(v));
    }
  }

  lemma ClrKeeps(h: Honest, r: Regs, c: Control, f: Flight, moved: seq<u8>, frozen: Option<seq<u8>>)
    requires Keeps(h, r, f, moved, frozen)
    ensures Keeps(h, ClrControl(r, c), f, moved, frozen)
    ensures Seen(h, ClrControl(r, c).log).Some? ==> Seen(h, r.log).Some?
  {
    StoreKeeps(h, r, Dropped(r.c, c), f, moved, frozen);
  }

  lemma FlagKeeps(h: Honest, r: Regs, s: Status, f: Flight, moved: seq<u8>, frozen: Option<seq<u8>>)
    requires Keeps(h, r, f, moved, frozen)
    ensures Keeps(h, ClrStatus(r, s), f, moved, frozen)
    ensures Seen(h, ClrStatus(r, s).log).Some? ==> Seen(h, r.log).Some?
  {
    var op := WriteS(Bit(StatusShift(s)));
    if Seen(h, r.log).Some? {
      var d := FoundKept(h, r, f, moved, frozen, op);
    } else {
      StaysSilent(h, r.log, op);
    }
  }

  lemma FlagsKeep(h: Honest, r: Regs, f: Flight, moved: seq<u8>, frozen: Option<seq<u8>>)
    requires Keeps(h, r, f, moved, frozen)
    ensures Keeps(h, ClearFlags(r), f, moved, frozen)
    ensures Seen(h, ClearFlags(r).log).Some? ==> Seen(h, r.log).Some?
  {
    FlagKeeps(h, r, DONE, f, moved, frozen);
    FlagKeeps(h, ClrStatus(r, DONE), ERR, f, moved, frozen);
    FlagKeeps(h, ClrStatus(ClrStatus(r, DONE), ERR), CLKT_TO, f, moved, frozen);
  }

  lemma IntsOffKeep(h: Honest, r: Regs, f: Flight, moved: seq<u8>, frozen: Option<seq<u8>>)
    requires Keeps(h, r, f, moved, frozen)
    ensures Keeps(h, IntsOff(r), f, moved, frozen) && !IntsOn(IntsOff(r).c)
    ensures Seen(h, IntsOff(r).log).Some? ==> Seen(h, r.log).Some?
  {
    IntsOffIs(r);
    ClrKeeps(h, r, INTD, f, moved, frozen);
    ClrKeeps(h, ClrControl(r, INTD), INTT, f, moved, frozen);
    ClrKeeps(h, ClrControl(ClrControl(r, INTD), INTT), INTR, f, moved, frozen);
  }

  /** `finalize` does not disturb what was delivered. */
  lemma SettleKeeps(h: Honest, t: Tr, r: I2cResult, f: Flight, moved: seq<u8>, frozen: Option<seq<u8>>)
    requires Keeps(h, t.bus.regs, f, moved, frozen)
    ensures Keeps(h, Settle(t, r).bus.regs, f, moved, frozen) && !IntsOn(Settle(t, r).bus.regs.c)
    ensures Seen(h, Settle(t, r).bus.regs.log).Some? ==> Seen(h, t.bus.regs.log).Some?
  {
    SilencedIs(t.bus.regs);
    FlagsKeep(h, t.bus.regs, f, moved, frozen);
    IntsOffKeep(h, ClearFlags(t.bus.regs), f, moved, frozen);
  }

  /** Nor does `abort_transfer`, which also takes back what the slave has not received yet. */
  lemma AbortKeeps(h: Honest, t: Tr, f: Flight, moved: seq<u8>, frozen: Option<seq<u8>>)
    requires Keeps(h, t.bus.regs, f, moved, frozen)
    ensures Keeps(h, Abort(t).bus.regs, f, moved, frozen) && !IntsOn(Abort(t).bus.regs.c)
    ensures Seen(h, Abort(t).bus.regs.log).Some? ==> Seen(h, t.bus.regs.log).Some?
  {
    var r1 := IntsOff(t.bus.regs);
    IntsOffKeep(h, t.bus.regs, f, moved, frozen);
    ClrKeeps(h, r1, CLEAR, f, moved, frozen);
    StoreKeeps(h, ClrControl(r1, CLEAR), Raised(ClrControl(r1, CLEAR).c, CLEAR, One()), f, moved, frozen);
    FlagsKeep(h, ClearFifo(r1), f, moved, frozen);
  }

  // ----- The interrupt-driven transport

  /** The state after the data accesses, and what its verdict means if it has one. */
  ghost predicate Conveyed(h: Honest, o: IsrOutcome, f: Flight, ram: seq<u8>) {
    && o.i <= f.job.n && |o.bus.ram| == |ram| && Fits(f.job, o.bus.ram) && Tracks(h, o.bus, f, o.i)
    && (!f.job.reading ==> o.bus.ram == ram)
    && (o.verdict.Some? && Seen(h, o.bus.regs.log).Some? ==>
          Meaning(Seen(h, o.bus.regs.log).value, f, Moved(f, o.bus.ram, o.i), o.verdict.value))
  }

  lemma {:induction false} IsrTracks(h: Honest, world: World, b: Bus, f: Flight, i: nat)
    requires i <= f.job.n && Fits(f.job, b.ram) && Tracks(h, b, f, i)
    ensures Conveyed(h, IsrLoop(world, b, f.job, i), f, b.ram)
    decreases f.job.n - i
  {
    StepTracks(h, world, b, f, i);
    match Looking(world, b, f.job, i)
    case Stop(r) => StopMeans(h, world, b, f, i, r);
    case Idle =>
    case Move => IsrTracks(h, world, Step(world, b, f.job, i), f, i + 1);
  }

  lemma {:induction false} InterruptsTrack(h: Honest, world: World, b: Bus, f: Flight, i: nat, n: nat)
    requires i <= f.job.n && Fits(f.job, b.ram) && Tracks(h, b, f, i)
    ensures Conveyed(h, Interrupts(world, b, f.job, i, n), f, b.ram)
    decreases n
  {
    if n > 0 {
      IsrTracks(h, world, b, f, i);
      var o := IsrLoop(world, b, f.job, i);
      if o.verdict.None? { InterruptsTrack(h, world, o.bus, f, o.i, n - 1); }
    }
  }

  /** What went over the wire, for good, if the transport says Ok: DLEN bytes. */
  function Frozen(f: Flight, o: IsrOutcome): Option<seq<u8>>
    requires Fits(f.job, o.bus.ram)
  {
    if o.verdict == Some(Ok) then Some(Moved(f, o.bus.ram, f.job.n % 0x1_0000)) else None
  }

  /** Of what was moved, the part that went over. */
  lemma MovedFirst(f: Flight, ram: seq<u8>, i: nat, sent: seq<u8>, rest: seq<u8>)
    requires i <= f.job.n && Fits(f.job, ram) && sent + rest == Moved(f, ram, i)
    ensures sent == Moved(f, ram, |sent|)
  {
    assert sent == (sent + rest)[..|sent|];
  }

  lemma ConveyedKeeps(h: Honest, o: IsrOutcome, f: Flight, ram: seq<u8>)
    requires Conveyed(h, o, f, ram)
    ensures Keeps(h, o.bus.regs, f, Moved(f, o.bus.ram, o.i), Frozen(f, o))
  {
    if Seen(h, o.bus.regs.log).Some? && o.verdict == Some(Ok) {
      var d := Seen(h, o.bus.regs.log).value;
      if f.job.reading {
        assert Last(d).bytes == Moved(f, o.bus.ram, o.i);
      } else {
        MovedFirst(f, o.bus.ram, o.i, Last(d).bytes, d.fifo);
      }
    }
  }

  lemma ReachedKeeps(h: Honest, t: Tr, o: IsrOutcome, f: Flight, ram: seq<u8>)
    requires Conveyed(h, o, f, ram)
    ensures Keeps(h, Reached(t, o).bus.regs, f, Moved(f, o.bus.ram, o.i), Frozen(f, o))
    ensures o.verdict.Some? ==> !IntsOn(Reached(t, o).bus.regs.c)
    ensures Seen(h, Reached(t, o).bus.regs.log).Some? ==> Seen(h, o.bus.regs.log).Some?
  {
    ConveyedKeeps(h, o, f, ram);
    if o.verdict.Some? {
      SettleKeeps(h, t.(bus := o.bus, x := WithIndex(t.x, o.i)), o.verdict.value, f, Moved(f, o.bus.ram, o.i),
                  Frozen(f, o));
    }
  }

  /** Where `bus` is when a transfer with result `r` is over whose data accesses led from memory `ram` to `o`. */
  ghost predicate Landed(h: Honest, ram: seq<u8>, f: Flight, o: IsrOutcome, bus: Bus, r: I2cResult) {
    && Conveyed(h, o, f, ram) && bus.ram == o.bus.ram && Within(ram, bus.ram, f.job.(n := o.i)) && !IntsOn(bus.regs.c)
    && (Seen(h, bus.regs.log).Some? ==> Seen(h, o.bus.regs.log).Some?)
    && Keeps(h, bus.regs, f, Moved(f, o.bus.ram, o.i), if o.verdict == Some(r) then Frozen(f, o) else None)
    && (r == Ok ==> o.verdict == Some(Ok))
  }

  lemma SettledLands(h: Honest, t: Tr, f: Flight, o: IsrOutcome, ram: seq<u8>)
    requires Conveyed(h, o, f, ram) && Within(ram, o.bus.ram, f.job.(n := o.i)) && o.verdict.Some?
    ensures Landed(h, ram, f, o, Reached(t, o).bus, o.verdict.value)
  {
    ReachedKeeps(h, t, o, f, ram);
  }

  lemma AbortedLands(h: Honest, t: Tr, f: Flight, o: IsrOutcome, ram: seq<u8>, slot: nat)
    requires Conveyed(h, o, f, ram) && Within(ram, o.bus.ram, f.job.(n := o.i))
    ensures Landed(h, ram, f, o, Abort(Reached(t, o).(slot := slot)).bus, Timeout)
  {
    var t1 := Reached(t, o).(slot := slot);
    ReachedKeeps(h, t, o, f, ram);
    Unfreeze(h, t1.bus.regs, f, Moved(f, o.bus.ram, o.i), Frozen(f, o));
    AbortKeeps(h, t1, f, Moved(f, o.bus.ram, o.i), None);
  }

  /** A synchronous interrupt-driven transfer against an honest controller: `o` is what its data accesses did. */
  lemma IrqFlight(h: Honest, e: Env, t: Tr, reading: bool, addr: u8, buf: Ptr, len: nat, t': Tr, r: I2cResult)
    returns (f: Flight, o: IsrOutcome)
    requires Synced(h, t.bus.regs) && Sound(e, t) && Undisturbed(e, t)
    requires BufferOk(buf, len, e.ramSize) && !Rejected(addr, buf, len)
    requires SyncTransfer(e, t, reading, addr, buf, len) == Returned(t', r)
    ensures f == Flight(f.wire, addr, Job(reading, buf.addr, len)) && Continues(h, t.bus.regs, f.wire)
    ensures Landed(h, t.bus.ram, f, o, t'.bus, r)
    ensures InTime(e, t, reading, addr, buf, len) ==> o.verdict == Some(r)
  {
    var started := StartTransfer(t, Request(reading, addr, buf, len, None));
    var wire := ArmedIsFresh(h, t.bus.regs, addr, Job(reading, 0, len));
    f := Flight(wire, addr, Job(reading, buf.addr, len));
    FreshTracks(h, started.bus, f);
    var total := Sum(e.arrivals, t.slot, e.maxWaits);
    var end, n := SyncLaw(e, t, reading, addr, buf, len, total);
    var k := if Taken(e, started, total).verdict.Some? then total else n;
    o := Taken(e, started, k);
    InterruptsTrack(h, e.world, started.bus, f, 0, k);
    InterruptsWithin(e.world, started.bus, f.job, 0, k);
    if Taken(e, started, total).verdict.Some? {
      SettledLands(h, started, f, o, t.bus.ram);
    } else {
      AbortedLands(h, started, f, o, t.bus.ram, end);
    }
  }

  lemma Unfreeze(h: Honest, r: Regs, f: Flight, moved: seq<u8>, frozen: Option<seq<u8>>)
    requires Keeps(h, r, f, moved, frozen)
    ensures Keeps(h, r, f, moved, None)
  {
  }

  /** What the caller of an interrupt-driven transfer can rely on, `i` bytes having been moved. A write: the slave has
      received a prefix of them. A read: they are what the slave sent first. Ok: the controller is at rest and DLEN
      bytes went over, in order, which are all of the buffer if and only if DLEN could hold its length; and a read that
      DLEN could not hold is never Ok. */
  predicate Delivered(d: Dev, reading: bool, addr: nat, buf: seq<u8>, i: nat, r: I2cResult)
    requires i <= |buf|
  {
    && d.wire != [] && Last(d).addr == addr && Last(d).reading == reading
    && (if reading then buf[..i] <= Last(d).bytes else Last(d).bytes <= buf[..i])
    && (r == Ok ==> !d.ta && Last(d).bytes == buf[..|buf| % 0x1_0000])
    && (r == Ok ==> (Last(d).bytes == buf <==> |buf| <= 0xFFFF))
    && (r == Ok && reading ==> |buf| <= 0xFFFF)
  }

  /** ... provided that an honest controller can have answered the transcript. */
  ghost predicate Arrived(h: Honest, b: Bus, reading: bool, addr: nat, at: nat, len: nat, i: nat, r: I2cResult) {
    Seen(h, b.regs.log).Some? ==>
      && i <= len && at + len <= |b.ram|
      && Delivered(Seen(h, b.regs.log).value, reading, addr, b.ram[at..at + len], i, r)
  }

  lemma KeptIsDelivered(d: Dev, f: Flight, ram: seq<u8>, i: nat, r: I2cResult, reading: bool, addr: nat, at: nat,
                        len: nat)
    requires f == Flight(f.wire, addr, Job(reading, at, len)) && i <= len && 0 < len && at + len <= |ram|
    requires Kept(d, f, Moved(f, ram, i), if r == Ok then Some(Moved(f, ram, len % 0x1_0000)) else None)
    requires r == Ok && reading ==> len <= 0xFFFF
    ensures Delivered(d, reading, addr, ram[at..at + len], i, r)
  {
    var buf, k := ram[at..at + len], len % 0x1_0000;
    LastIs(d, f);
    assert buf[..i] == Moved(f, ram, i);
    assert buf[..k] == Moved(f, ram, k);
    if r == Ok { assert |Last(d).bytes| == k && (k == len <==> len <= 0xFFFF); }
  }

  /** What a verdict says about the length. */
  lemma VerdictBounds(h: Honest, ram: seq<u8>, f: Flight, o: IsrOutcome)
    requires Conveyed(h, o, f, ram) && Seen(h, o.bus.regs.log).Some?
    ensures o.verdict == Some(Ok) && f.job.reading ==> f.job.n <= 0xFFFF
    ensures o.verdict == Some(Timeout) ==> f.job.reading && f.job.n > 0xFFFF
  {
  }

  lemma FlightDelivers(h: Honest, ram: seq<u8>, f: Flight, o: IsrOutcome, b: Bus, r: I2cResult,
                       reading: bool, addr: nat, at: nat, len: nat)
    requires f == Flight(f.wire, addr, Job(reading, at, len)) && 0 < len
    requires Landed(h, ram, f, o, b, r)
    ensures o.i <= len && at + len <= |b.ram| && Within(ram, b.ram, Job(reading, at, o.i))
    ensures Arrived(h, b, reading, addr, at, len, o.i, r)
    ensures Seen(h, b.regs.log).Some? && o.verdict == Some(Timeout) ==> reading && len > 0xFFFF
  {
    if Seen(h, b.regs.log).Some? {
      VerdictBounds(h, ram, f, o);
      KeptIsDelivered(Seen(h, b.regs.log).value, f, b.ram, o.i, r, reading, addr, at, len);
    }
  }

  /** Interrupt-driven transfers of any length, whatever the pattern of interrupts. */
  lemma IrqDelivers(h: Honest, e: Env, t: Tr, reading: bool, addr: u8, buf: Ptr, len: nat, t': Tr, r: I2cResult)
    returns (i: nat)
    requires Synced(h, t.bus.regs) && Sound(e, t) && Undisturbed(e, t)
    requires BufferOk(buf, len, e.ramSize) && !Rejected(addr, buf, len)
    requires SyncTransfer(e, t, reading, addr, buf, len) == Returned(t', r)
    ensures i <= len && Within(t.bus.ram, t'.bus.ram, Job(reading, buf.addr, i))
    ensures Arrived(h, t'.bus, reading, addr, buf.addr, len, i, r)
  {
    var f, o := IrqFlight(h, e, t, reading, addr, buf, len, t', r);
    i := o.i;
    FlightDelivers(h, t.bus.ram, f, o, t'.bus, r, reading, addr, buf.addr, len);
  }

  /** The short-read verdict is met only by reads that DLEN could not hold: any other Timeout means that no word decided
      the transfer in time. */
  lemma IrqShortReadIsUnreachable(h: Honest, e: Env, t: Tr, reading: bool, addr: u8, buf: Ptr, len: nat, t': Tr)
    requires Synced(h, t.bus.regs) && Sound(e, t) && Undisturbed(e, t)
    requires BufferOk(buf, len, e.ramSize) && !Rejected(addr, buf, len)
    requires SyncTransfer(e, t, reading, addr, buf, len) == Returned(t', Timeout) && Seen(h, t'.bus.regs.log).Some?
    ensures (reading && len > 0xFFFF) || !InTime(e, t, reading, addr, buf, len)
  {
    var f, o := IrqFlight(h, e, t, reading, addr, buf, len, t', Timeout);
    FlightDelivers(h, t.bus.ram, f, o, t'.bus, Timeout, reading, addr, buf.addr, len);
  }

  // ----- 65535 is the most DLEN can hold

  /** A controller that is done before anything was sent, as it may be when DLEN is zero. */
  function TightBefore(k: nat): seq<DevEvent> {
    if k == 13 then [Finish] else []
  }

  function TightStatus(k: nat): Word {
    if k == 0 then Or(Bit(4), Bit(1)) else Or(Bit(5), Bit(1))
  }

  function NoBytes(k: nat): nat {
    0
  }

  const TIGHT_WORLD: World := World(TightStatus, NoBytes)
  const TIGHT_DEV: Dev :=
    Dev(Ctl(false, false, false, false, false, false, false), 0, 0, [], false, 0, false, false, false, [])
  const TIGHT: Honest := Honest(1, TIGHT_DEV, TightBefore)
  const TIGHT_JOB: Job := Job(false, 0, 0x1_0000)

  lemma TightOp(log: seq<Op>, d: Dev, op: Op)
    requires Seen(TIGHT, log) == Some(d)
    ensures Seen(TIGHT, log + [op]) == Access(1, if |log| == 13 then AfterEvent(1, d, Finish) else d, op)
  {
    SeenAppend(TIGHT, log, op);
    assert [Finish][..0] == [];
    assert Events(1, d, [Finish]) == AfterEvent(1, Events(1, d, []), Finish);
  }

  /** What the first step of the pump does to the transcript. */
  lemma TightStep(b: Bus)
    requires Fits(TIGHT_JOB, b.ram) && b.regs.polls == 0
    ensures Looking(TIGHT_WORLD, b, TIGHT_JOB, 0) == Move
    ensures Step(TIGHT_WORLD, b, TIGHT_JOB, 0).regs.log
         == b.regs.log + [ReadS(TIGHT_WORLD.status(0))] + [Push(b.ram[0])]
    ensures Step(TIGHT_WORLD, b, TIGHT_JOB, 0).ram == b.ram && Step(TIGHT_WORLD, b, TIGHT_JOB, 0).regs.polls == 1
  {
  }

  /** First look at S: DONE, but there is room, so a byte is fed. */
  lemma TightFirst(log: seq<Op>, d: Dev, d': Dev, x: u8)
    requires |log| == 13 && Seen(TIGHT, log) == Some(d) && Fresh(d, [], 0, TIGHT_JOB)
    requires d' == d.(ta := false, done := true)
    ensures Seen(TIGHT, log + [ReadS(TIGHT_WORLD.status(0))] + [Push(x)]) == Some(d'.(fifo := [x]))
  {
    var s := ReadS(TIGHT_WORLD.status(0));
    assert d.wire == [Txn(false, 0, [])];
    assert AfterEvent(1, d, Finish) == d';
    TightOp(log, d, s);
    TightOp(log + [s], d', Push(x));
    assert [] + [x] == [x];
  }

  /** Second look: no room, DONE, Ok. */
  lemma TightSecond(b: Bus, d: Dev)
    requires Fits(TIGHT_JOB, b.ram) && |b.regs.log| == 15 && b.regs.polls == 1
    requires Seen(TIGHT, b.regs.log) == Some(d) && d.done && |d.fifo| == 1 && !d.err && !d.clkt
    ensures Looking(TIGHT_WORLD, b, TIGHT_JOB, 1) == Stop(Ok)
    ensures Seen(TIGHT, Step(TIGHT_WORLD, b, TIGHT_JOB, 1).regs.log) == Some(d)
  {
    TightOp(b.regs.log, d, ReadS(TIGHT_WORLD.status(1)));
  }

  /** One byte more than 65535 is too many: an honest controller can make a polled write of 65536 bytes return Ok when
      the slave has received none. */
  lemma WriteBoundIsTight(b: Bus)
    requires b.regs == Regs(TIGHT.d0.c, 0, 0, 0, 0, 0, []) && |b.ram| == 0x1_0000
    ensures var o := PolledTransfer(TIGHT_WORLD, b, 2, false, 0, At(0), 0x1_0000);
            && o.result == Ok && Seen(TIGHT, o.bus.regs.log).Some?
            && Seen(TIGHT, o.bus.regs.log).value.wire == [Txn(false, 0, [])]
  {
    var wire := PrimedIsFresh(TIGHT, b.regs, 0, TIGHT_JOB);
    PrimedAnswered(TIGHT, b.regs, 0, TIGHT_JOB);
    TightLoop(b.(regs := Primed(b.regs, 0, TIGHT_JOB)));
  }

  lemma TightLoop(b: Bus)
    requires Fits(TIGHT_JOB, b.ram) && |b.regs.log| == 13 && b.regs.polls == 0
    requires Seen(TIGHT, b.regs.log).Some? && Fresh(Seen(TIGHT, b.regs.log).value, [], 0, TIGHT_JOB)
    ensures var o := PolledLoop(TIGHT_WORLD, b, TIGHT_JOB, 0, 2);
            && o.result == Ok && Seen(TIGHT, o.bus.regs.log).Some?
            && Seen(TIGHT, o.bus.regs.log).value.wire == [Txn(false, 0, [])]
  {
    var d := Seen(TIGHT, b.regs.log).value;
    var d' := d.(ta := false, done := true);
    var b1 := Step(TIGHT_WORLD, b, TIGHT_JOB, 0);
    TightStep(b);
    TightFirst(b.regs.log, d, d', b.ram[0]);
    TightSecond(b1, d'.(fifo := [b.ram[0]]));
    assert PolledLoop(TIGHT_WORLD, b, TIGHT_JOB, 0, 2) == PolledLoop(TIGHT_WORLD, b1, TIGHT_JOB, 1, 1);
  }
}
