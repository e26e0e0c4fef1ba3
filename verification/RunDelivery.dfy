/**
 Whole runs of the interrupt-driven transport against an honest controller: every transfer starts fresh, those started
 by callbacks too, and a callback tells the truth about what the slave has received or sent.
 */
module RunDelivery {
  import opened Common
  import opened Words
  import opened BscRegisters
  import opened Transfers
  import opened IrqTransfers
  import opened IrqStarts
  import opened IrqLaws
  import opened IrqRuns
  import opened BscDevice
  import opened FreshStart
  import opened EndToEnd
  import opened Delivery

  // ----- The driver's view of C, A and DLEN, whatever it does

  /** One access: the registers the driver relies on follow what it writes. */
  predicate Mirrored(r: Regs, r': Regs, op: Op) {
    && r'.log == r.log + [op] && !r'.c.st && !r'.c.clear
    && r'.c == (if op.WriteC? then op.ctl.(clear := false, st := false) else r.c)
    && r'.a == (if op.WriteA? then op.addr else r.a)
    && r'.dlen == (if op.WriteDlen? then op.len else r.dlen)
  }

  lemma OpSynced(h: Honest, r: Regs, r': Regs, op: Op)
    requires Synced(h, r) && Mirrored(r, r', op)
    ensures Synced(h, r')
  {
    SeenAppend(h, r.log, op);
    if Seen(h, r.log).Some? { EventsKeepC(h.depth, Seen(h, r.log).value, h.before(|r.log|)); }
  }

  lemma ClrSynced(h: Honest, r: Regs, f: Control)
    requires Synced(h, r)
    ensures Synced(h, ClrControl(r, f))
  {
    OpSynced(h, r, ClrControl(r, f), WriteC(Dropped(r.c, f)));
  }

  lemma SetSynced(h: Honest, r: Regs, f: Control, value: Word)
    requires Synced(h, r)
    ensures Synced(h, SetControl(r, f, value))
  {
    var r1 := ClrControl(r, f);
    ClrSynced(h, r, f);
    OpSynced(h, r1, SetControl(r, f, value), WriteC(Raised(r1.c, f, value)));
  }

  lemma FlagSynced(h: Honest, r: Regs, f: Status)
    requires Synced(h, r)
    ensures Synced(h, ClrStatus(r, f))
  {
    OpSynced(h, r, ClrStatus(r, f), WriteS(Bit(StatusShift(f))));
  }

  lemma CallSynced(h: Honest, r: Regs, c: Call)
    requires Synced(h, r)
    ensures Synced(h, Called(r, c))
  {
    match c
    case FifoCleared =>
      ClearFifoSets(r);
      SetSynced(h, r, CLEAR, One());
    case FlagCleared(flag) => FlagSynced(h, r, flag);
    case Addressed(addr) => OpSynced(h, r, SetAddress(r, addr), WriteA(addr % 0x80));
    case Sized(len) => OpSynced(h, r, SetLength(r, len), WriteDlen(len % 0x1_0000));
    case Switched(f) => SetSynced(h, r, f, One());
    case SwitchedOff(f) => ClrSynced(h, r, f);
    case Started(reading) =>
      var r1 := SetControl(r, I2CEN, One());
      var r2 := SetControl(r1, READ, if reading then One() else Zero());
      StartIs(r, reading);
      SetSynced(h, r, I2CEN, One());
      SetSynced(h, r1, READ, if reading then One() else Zero());
      SetSynced(h, r2, ST, One());
    case Fenced =>
  }

  lemma {:induction false} CallsSynced(h: Honest, r: Regs, calls: seq<Call>)
    requires Synced(h, r)
    ensures Synced(h, AllCalled(r, calls))
    decreases |calls|
  {
    if calls != [] {
      CallsSynced(h, r, calls[..|calls| - 1]);
      CallSynced(h, AllCalled(r, calls[..|calls| - 1]), calls[|calls| - 1]);
    }
  }

  function AbortCalls(): seq<Call> {
    (OffCalls() + [FifoCleared]) + FlagCalls()
  }

  lemma AbortIs(r: Regs)
    ensures AllCalled(r, AbortCalls()) == ClearFlags(ClearFifo(IntsOff(r)))
  {
    ThreeCalls(r, SwitchedOff(INTD), SwitchedOff(INTT), SwitchedOff(INTR));
    IntsOffIs(r);
    NextCall(r, OffCalls(), FifoCleared);
    MoreCalls(r, OffCalls() + [FifoCleared], FlagCalls());
    FlagCallsAre(ClearFifo(IntsOff(r)));
  }

  lemma AbortSynced(h: Honest, t: Tr)
    requires Synced(h, t.bus.regs)
    ensures Synced(h, Abort(t).bus.regs)
  {
    AbortIs(t.bus.regs);
    CallsSynced(h, t.bus.regs, AbortCalls());
  }

  lemma StepSynced(h: Honest, world: World, b: Bus, job: Job, i: nat)
    requires Fits(job, b.ram) && Synced(h, b.regs)
    ensures Synced(h, Step(world, b, job, i).regs)
  {
    var r := Poll(world, b.regs);
    OpSynced(h, b.regs, r, ReadS(world.status(b.regs.polls)));
    if Looking(world, b, job, i) == Move {
      OpSynced(h, r, Step(world, b, job, i).regs,
               if job.reading then Pop(NextByte(world, r)) else Push(b.ram[job.at + i]));
    }
  }

  lemma {:induction false} IsrSynced(h: Honest, world: World, b: Bus, job: Job, i: nat)
    requires Fits(job, b.ram) && i <= job.n && Synced(h, b.regs)
    ensures Synced(h, IsrLoop(world, b, job, i).bus.regs)
    decreases job.n - i
  {
    StepSynced(h, world, b, job, i);
    if Looking(world, b, job, i) == Move { IsrSynced(h, world, Step(world, b, job, i), job, i + 1); }
  }

  // ----- A transfer in flight

  /** The transfer the record describes is the one the controller is at, and the flow of its bytes has been kept. */
  ghost predicate Carried(h: Honest, e: Env, t: Tr, f: Flight)
    requires Sound(e, t)
  {
    && f.job == JobOf(t.x) && f.addr == t.bus.regs.a && f.addr < 0x80 && f.job.n > 0
    && Tracks(h, t.bus, f, IndexOf(t.x))
  }

  ghost predicate Aboard(h: Honest, e: Env, t: Tr)
    requires Sound(e, t)
  {
    && Synced(h, t.bus.regs)
    && (t.x.active ==> exists f :: Carried(h, e, t, f))
  }

  /** From a controller at rest a transfer starts fresh. */
  lemma StartIsFresh(h: Honest, t: Tr, q: Request) returns (wire: seq<Txn>)
    requires Synced(h, t.bus.regs) && AtRest(t)
    ensures var r := StartTransfer(t, q).bus.regs;
            && StartsFresh(h, r, wire, q.addr, Job(q.reading, 0, q.len)) && Continues(h, t.bus.regs, wire)
            && |t.bus.regs.log| <= |r.log| && SilentFrom(h, r.log, |t.bus.regs.log|)
  {
    wire := ArmedIsFresh(h, t.bus.regs, q.addr, Job(q.reading, 0, q.len));
  }

  lemma StartAboard(h: Honest, e: Env, t: Tr, q: Request)
    requires Sound(e, t) && Synced(h, t.bus.regs) && AtRest(t)
    requires BufferOk(q.buf, q.len, e.ramSize) && !Rejected(q.addr, q.buf, q.len)
    ensures Sound(e, StartTransfer(t, q)) && Aboard(h, e, StartTransfer(t, q))
  {
    var t' := StartTransfer(t, q);
    var wire := StartIsFresh(h, t, q);
    var f := Flight(wire, q.addr, Job(q.reading, q.buf.addr, q.len));
    FreshTracks(h, t'.bus, f);
    assert Carried(h, e, t', f);
  }

  lemma {:induction false} IssueAboard(h: Honest, e: Env, t: Tr, qs: seq<Request>)
    requires Sound(e, t) && Synced(h, t.bus.regs) && AtRest(t)
    requires forall k | 0 <= k < |qs| :: BufferOk(qs[k].buf, qs[k].len, e.ramSize)
    ensures Sound(e, Issue(t, qs)) && Aboard(h, e, Issue(t, qs))
    decreases |qs|
  {
    if qs != [] {
      if Refused(t, qs[0]) {
        IssueAboard(h, e, t, qs[1..]);
      } else {
        StartAboard(h, e, t, qs[0]);
        IssueBusy(StartTransfer(t, qs[0]), qs[1..]);
      }
    }
  }

  lemma SettledSynced(h: Honest, t: Tr, r: I2cResult)
    requires Synced(h, t.bus.regs)
    ensures Synced(h, Settled(t, r).bus.regs)
  {
    CallsSynced(h, t.bus.regs, SettleCalls());
  }

  lemma FinalizeAboard(h: Honest, e: Env, t: Tr, r: I2cResult)
    requires Sound(e, t) && Synced(h, t.bus.regs)
    ensures Aboard(h, e, Finalize(e, t, r))
  {
    FinalizeIs(e, t, r);
    SettledSynced(h, t, r);
    if t.x.cb.Some? { IssueAboard(h, e, Settled(t, r), e.client(t.x.cb.value, r)); }
  }

  /** What the data accesses of one interrupt do to a transfer in flight. */
  lemma FlightPumped(h: Honest, e: Env, t: Tr, f: Flight)
    requires Sound(e, t) && Carried(h, e, t, f)
    ensures var o := IsrLoop(e.world, t.bus, JobOf(t.x), IndexOf(t.x));
            Conveyed(h, o, f, t.bus.ram) && Within(t.bus.ram, o.bus.ram, f.job.(n := o.i))
  {
    IsrTracks(h, e.world, t.bus, f, IndexOf(t.x));
    IsrBound(e.world, t.bus, f.job, IndexOf(t.x));
  }

  lemma HandleIrqAboard(h: Honest, e: Env, t: Tr)
    requires Sound(e, t) && Aboard(h, e, t)
    ensures Aboard(h, e, HandleIrq(e, t))
  {
    var p := Pumped(e, t);
    IsrSynced(h, e.world, t.bus, JobOf(t.x), IndexOf(t.x));
    match IsrLoop(e.world, t.bus, JobOf(t.x), IndexOf(t.x)).verdict
    case Some(r) => FinalizeAboard(h, e, p, r);
    case None =>
      if t.x.active {
        var f :| Carried(h, e, t, f);
        FlightPumped(h, e, t, f);
        IsrBound(e.world, t.bus, JobOf(t.x), IndexOf(t.x));
        assert Carried(h, e, p, f);
      }
  }

  // ----- Synchronous calls

  lemma HandleIrqSynced(h: Honest, e: Env, t: Tr)
    requires Sound(e, t) && Synced(h, t.bus.regs) && t.x.cb.None?
    ensures Synced(h, HandleIrq(e, t).bus.regs) && HandleIrq(e, t).x.cb.None?
  {
    var p := Pumped(e, t);
    IsrSynced(h, e.world, t.bus, JobOf(t.x), IndexOf(t.x));
    match IsrLoop(e.world, t.bus, JobOf(t.x), IndexOf(t.x)).verdict
    case None =>
    case Some(r) =>
      FinalizeIs(e, p, r);
      SettledSynced(h, p, r);
  }

  lemma {:induction false} DeliverSynced(h: Honest, e: Env, t: Tr, n: nat)
    requires Sound(e, t) && Synced(h, t.bus.regs) && t.x.cb.None?
    ensures Synced(h, Deliver(e, t, n).bus.regs) && Deliver(e, t, n).x.cb.None?
    decreases n
  {
    if n > 0 && IntsOn(t.bus.regs.c) {
      HandleIrqSynced(h, e, t);
      DeliverSynced(h, e, HandleIrq(e, t), n - 1);
    }
  }

  lemma {:induction false} WaitSynced(h: Honest, e: Env, t: Tr, checks: nat)
    requires Sound(e, t) && Synced(h, t.bus.regs) && t.x.cb.None?
    ensures Synced(h, WaitLoop(e, t, checks).t.bus.regs)
    decreases checks
  {
    if checks == 0 {
      AbortSynced(h, t);
    } else if !t.x.done {
      DeliverSynced(h, e, t.(slot := t.slot + 1), e.arrivals(t.slot));
      WaitSynced(h, e, NextSlot(e, t), checks - 1);
    }
  }

  lemma FlightSynced(h: Honest, e: Env, t: Tr)
    requires Sound(e, t) && Synced(h, t.bus.regs) && t.x.cb.None?
    ensures Synced(h, WaitLoop(e, NextSlot(e, t), e.maxWaits).t.bus.regs)
  {
    DeliverSynced(h, e, t.(slot := t.slot + 1), e.arrivals(t.slot));
    WaitSynced(h, e, NextSlot(e, t), e.maxWaits);
  }

  lemma SyncSynced(h: Honest, e: Env, t: Tr, reading: bool, addr: u8, buf: Ptr, len: nat, t': Tr, r: I2cResult)
    requires Sound(e, t) && Synced(h, t.bus.regs) && BufferOk(buf, len, e.ramSize) && !Rejected(addr, buf, len)
    requires Undisturbed(e, t)
    requires SyncTransfer(e, t, reading, addr, buf, len) == Returned(t', r)
    ensures Synced(h, t'.bus.regs)
  {
    SyncIsWait(e, t, reading, addr, buf, len);
    CallsSynced(h, t.bus.regs, StartCalls(addr, Job(reading, 0, len)));
    FlightSynced(h, e, StartTransfer(t, Request(reading, addr, buf, len, None)));
  }

  // ----- Runs

  lemma DoAboard(h: Honest, e: Env, t: Tr, a: Act)
    requires Sound(e, t) && Legal(e, a) && Gates(t) && Aboard(h, e, t) && (Displacing(t, a) ==> Calm(e, |t.owners|))
    ensures Aboard(h, e, Do(e, t, a))
  {
    match a
    case Async(q) =>
      AsyncIsStart(e, t, q);
      if !Refused(t, q) { StartAboard(h, e, t, q); }
    case Interrupt => HandleIrqAboard(h, e, t);
    case Sync(reading, addr, buf, len) =>
      if !Rejected(addr, buf, len) {
        var Returned(t', r) := SyncTransfer(e, t, reading, addr, buf, len);
        SyncEndsAtRest(e, t, reading, addr, buf, len, t', r);
        SyncSynced(h, e, t, reading, addr, buf, len, t', r);
      }
  }

  lemma {:induction false} RunAboard(h: Honest, e: Env, t: Tr, acts: seq<Act>)
    requires Sound(e, t) && LegalRun(e, acts) && Orderly(e, t, acts) && Gates(t) && Aboard(h, e, t)
    ensures Aboard(h, e, Run(e, t, acts)) && Gates(Run(e, t, acts))
    decreases |acts|
  {
    if acts != [] {
      DoAboard(h, e, t, acts[0]);
      DoKeepsGates(e, t, acts[0]);
      RunAboard(h, e, Do(e, t, acts[0]), acts[1..]);
    }
  }

  /** In every orderly run against an honest controller, whatever came before: an asynchronous transfer that is accepted
      is started in one go wherever interrupts might come, and starts fresh, right after what is already on the wire if
      the controller is idle; the interrupt output stays low while it is being started. */
  lemma AsyncStartsFresh(h: Honest, e: Env, t0: Tr, acts: seq<Act>, t: Tr, q: Request) returns (wire: seq<Txn>)
    requires Initial(t0) && Sound(e, t0) && Synced(h, t0.bus.regs) && LegalRun(e, acts) && Orderly(e, t0, acts)
    requires t == Run(e, t0, acts) && !Refused(t, q) && BufferOk(q.buf, q.len, e.ramSize)
    ensures AsyncTransfer(e, t, q) == StartTransfer(t, q)
    ensures var r := StartTransfer(t, q).bus.regs;
            && StartsFresh(h, r, wire, q.addr, Job(q.reading, 0, q.len)) && Continues(h, t.bus.regs, wire)
            && |t.bus.regs.log| <= |r.log| && SilentFrom(h, r.log, |t.bus.regs.log|)
  {
    RunAboard(h, e, t0, acts);
    AsyncIsStart(e, t, q);
    wire := StartIsFresh(h, t, q);
  }

  /** So does one that is started by the callback of a transfer that an interrupt has just finalized. */
  lemma CallbackStartsFresh(h: Honest, e: Env, t0: Tr, acts: seq<Act>, t: Tr, r: I2cResult, q: Request)
    returns (wire: seq<Txn>)
    requires Initial(t0) && Sound(e, t0) && Synced(h, t0.bus.regs) && LegalRun(e, acts) && Orderly(e, t0, acts)
    requires t == Run(e, t0, acts)
    requires IsrLoop(e.world, t.bus, JobOf(t.x), IndexOf(t.x)).verdict == Some(r)
    ensures var s := Settled(Pumped(e, t), r);
            var r' := StartTransfer(s, q).bus.regs;
            && StartsFresh(h, r', wire, q.addr, Job(q.reading, 0, q.len)) && Continues(h, s.bus.regs, wire)
            && |s.bus.regs.log| <= |r'.log| && SilentFrom(h, r'.log, |s.bus.regs.log|)
  {
    RunAboard(h, e, t0, acts);
    IsrSynced(h, e.world, t.bus, JobOf(t.x), IndexOf(t.x));
    SettledSynced(h, Pumped(e, t), r);
    wire := StartIsFresh(h, Settled(Pumped(e, t), r), q);
  }

  /** In every orderly run against an honest controller, when an interrupt finalizes the transfer in flight with `r`,
      which is what its callback is called with: `i` bytes of the buffer have been moved, the slave has received a
      prefix of them or sent them first, and Ok means that the whole buffer was delivered if and only if DLEN could hold
      its length. */
  lemma CallbackMeansDelivery(h: Honest, e: Env, t0: Tr, acts: seq<Act>, t: Tr, r: I2cResult) returns (i: nat)
    requires Initial(t0) && Sound(e, t0) && Synced(h, t0.bus.regs) && LegalRun(e, acts) && Orderly(e, t0, acts)
    requires t == Run(e, t0, acts)
    requires t.x.active && IsrLoop(e.world, t.bus, JobOf(t.x), IndexOf(t.x)).verdict == Some(r)
    ensures var s := Settled(Pumped(e, t), r);
            Arrived(h, s.bus, t.x.reading, t.bus.regs.a, JobOf(t.x).at, JobOf(t.x).n, i, r)
    ensures i == IndexOf(Pumped(e, t).x)
    ensures HandleIrq(e, t).history == t.history + Settlement(|t.owners| - 1, |t.owners| - 1, t.x.cb, r)
  {
    RunAboard(h, e, t0, acts);
    var f :| Carried(h, e, t, f);
    i := FinalizedDelivers(h, e, t, f, r);
    FinalizeIs(e, Pumped(e, t), r);
  }

  lemma FinalizedDelivers(h: Honest, e: Env, t: Tr, f: Flight, r: I2cResult) returns (i: nat)
    requires Sound(e, t) && Carried(h, e, t, f)
    requires IsrLoop(e.world, t.bus, JobOf(t.x), IndexOf(t.x)).verdict == Some(r)
    ensures Arrived(h, Settled(Pumped(e, t), r).bus, f.job.reading, f.addr, f.job.at, f.job.n, i, r)
    ensures i == IndexOf(Pumped(e, t).x)
  {
    var o := IsrLoop(e.world, t.bus, JobOf(t.x), IndexOf(t.x));
    i := o.i;
    FlightPumped(h, e, t, f);
    SettledLands(h, t, f, o, t.bus.ram);
    FlightDelivers(h, t.bus.ram, f, o, Reached(t, o).bus, r, f.job.reading, f.addr, f.job.at, f.job.n);
  }
}
