/**
 The last part of a synchronous `start`, from its first interrupt enable to the write that sets ST: the interrupt output
 stays low there, whatever was in flight before and whatever interrupts came inside the `start` so far.
 */
module QuietLaunch {
  import opened Common
  import opened Words
  import opened BscRegisters
  import opened Transfers
  import opened IrqTransfers
  import opened IrqStarts
  import opened IrqLaws
  import opened IrqRuns
  import opened BscDevice
  import opened FreshStart
  import opened RunDelivery

  /** Idle, with these flags clear. The FIFO may hold anything. */
  function Quieted(wire: seq<Txn>, done: bool, err: bool, clkt: bool): Stage {
    Stage(true, wire, false, done, err, clkt)
  }

  // ----- The handler disturbs nothing

  /** An access to S or to the FIFO. */
  lemma DataStaged(h: Honest, r: Regs, r': Regs, st: Stage, op: Op)
    requires Staged(h, r, st) && st.idle && !st.empty && (op.ReadS? || op.Push? || op.Pop?)
    requires r'.log == r.log + [op] && r'.c == r.c && r'.a == r.a && r'.dlen == r.dlen
    ensures Staged(h, r', st)
  {
    Next(h, r, st, op);
  }

  lemma StepStaged(h: Honest, world: World, b: Bus, job: Job, i: nat, st: Stage)
    requires Fits(job, b.ram) && Staged(h, b.regs, st) && st.idle && !st.empty
    ensures Staged(h, Step(world, b, job, i).regs, st)
  {
    var r := Poll(world, b.regs);
    DataStaged(h, b.regs, r, st, ReadS(world.status(b.regs.polls)));
    if Looking(world, b, job, i) == Move {
      DataStaged(h, r, Step(world, b, job, i).regs, st,
                 if job.reading then Pop(NextByte(world, r)) else Push(b.ram[job.at + i]));
    }
  }

  lemma {:induction false} IsrStaged(h: Honest, world: World, b: Bus, job: Job, i: nat, st: Stage)
    requires Fits(job, b.ram) && i <= job.n && Staged(h, b.regs, st) && st.idle && !st.empty
    ensures Staged(h, IsrLoop(world, b, job, i).bus.regs, st)
    decreases job.n - i
  {
    StepStaged(h, world, b, job, i, st);
    if Looking(world, b, job, i) == Move { IsrStaged(h, world, Step(world, b, job, i), job, i + 1, st); }
  }

  lemma FlagStays(h: Honest, r: Regs, st: Stage, f: Status)
    requires Staged(h, r, st) && st.idle
    ensures Staged(h, ClrStatus(r, f), st)
  {
    Next(h, r, st, WriteS(Bit(StatusShift(f))));
  }

  lemma SilencedStaged(h: Honest, r: Regs, st: Stage)
    requires Staged(h, r, st) && st.idle
    ensures Staged(h, Silenced(r), st)
  {
    var r1 := ClearFlags(r);
    SilencedIs(r);
    ClearFlagsIs(r);
    IntsOffIs(r1);
    FlagStays(h, r, st, DONE);
    FlagStays(h, ClrStatus(r, DONE), st, ERR);
    FlagStays(h, ClrStatus(ClrStatus(r, DONE), ERR), st, CLKT_TO);
    var r2 := ClrControl(r1, INTD);
    var r3 := ClrControl(r2, INTT);
    StoreStaged(h, r1, st, Dropped(r1.c, INTD));
    StoreStaged(h, r2, st, Dropped(r2.c, INTT));
    StoreStaged(h, r3, st, Dropped(r3.c, INTR));
  }

  lemma HandleIrqStaged(h: Honest, e: Env, t: Tr, st: Stage)
    requires Sound(e, t) && t.x.cb.None? && Staged(h, t.bus.regs, st) && st.idle && !st.empty
    ensures Staged(h, HandleIrq(e, t).bus.regs, st) && HandleIrq(e, t).x.cb.None?
  {
    IsrStaged(h, e.world, t.bus, JobOf(t.x), IndexOf(t.x), st);
    match IsrLoop(e.world, t.bus, JobOf(t.x), IndexOf(t.x)).verdict
    case None =>
    case Some(r) =>
      var p := Pumped(e, t);
      FinalizeIs(e, p, r);
      SilencedStaged(h, p.bus.regs, st);
  }

  lemma {:induction false} DeliverStaged(h: Honest, e: Env, t: Tr, n: nat, st: Stage)
    requires Sound(e, t) && t.x.cb.None? && Staged(h, t.bus.regs, st) && st.idle && !st.empty
    ensures Staged(h, Deliver(e, t, n).bus.regs, st)
    decreases n
  {
    if n > 0 && IntsOn(t.bus.regs.c) {
      HandleIrqStaged(h, e, t, st);
      DeliverStaged(h, e, HandleIrq(e, t), n - 1, st);
    }
  }

  // ----- `start`, however interrupted

  lemma {:induction false} PrologueSynced(h: Honest, e: Env, t: Tr, q: Request, n: nat)
    requires Sound(e, t) && BufferOk(q.buf, q.len, e.ramSize) && q.buf.At? && q.cb.None? && n <= 6
    requires Synced(h, t.bus.regs)
    ensures Synced(h, Prologue(e, t, q, n).bus.regs)
    decreases n
  {
    if n > 0 {
      var p := StartStep(Prologue(e, t, q, n - 1), q, n - 1);
      PrologueSynced(h, e, t, q, n - 1);
      PrologueNext(e, t, q, n, p);
      NoCallback(e, t, q, n, p);
      DeliverSynced(h, e, p, e.inside(|t.owners|, n - 1));
    }
  }

  lemma NoCallback(e: Env, t: Tr, q: Request, n: nat, p: Tr)
    requires Sound(e, t) && BufferOk(q.buf, q.len, e.ramSize) && q.buf.At? && q.cb.None? && 0 < n <= STEPS
    requires p == StartStep(Prologue(e, t, q, n - 1), q, n - 1)
    ensures p.x.cb.None?
  {
    PrologueWithin(e, t, q, n - 1);
    StepConfined(Prologue(e, t, q, n - 1), q, n - 1);
  }

  /** A step at the registers. */
  lemma CallStaged(h: Honest, r: Regs, q: Request, k: nat, st: Stage) returns (st': Stage)
    requires k < 6 && Staged(h, r, st)
    requires k > 0 ==> st == Quieted(st.wire, k > 1, k > 2, k > 3)
    ensures Staged(h, Called(r, SetUpCalls(q.addr, q.len)[k]), st')
    ensures st' == Quieted(st'.wire, k > 0, k > 1, k > 2)
  {
    var op := if k == 4 then WriteA(q.addr % 0x80) else WriteDlen(q.len % 0x1_0000);
    if k == 0 {
      st' := ClearStaged(h, r, st);
      st' := Quieted(st'.wire, false, false, false);
    } else if k < 4 {
      FlagStaged(h, r, st, if k == 1 then DONE else if k == 2 then ERR else CLKT_TO);
      st' := Quieted(st.wire, true, k > 1, k > 2);
    } else {
      Next(h, r, st, op);
      st' := st;
    }
  }

  lemma {:induction false} PrologueStaged(h: Honest, e: Env, t: Tr, q: Request, n: nat) returns (st: Stage)
    requires Sound(e, t) && BufferOk(q.buf, q.len, e.ramSize) && q.buf.At? && q.cb.None? && 7 <= n <= STEPS
    requires Synced(h, t.bus.regs)
    ensures Staged(h, Prologue(e, t, q, n).bus.regs, st) && st == Quieted(st.wire, n > 7, n > 8, n > 9)
    decreases n
  {
    var p := StartStep(Prologue(e, t, q, n - 1), q, n - 1);
    if n == 7 {
      PrologueSynced(h, e, t, q, 6);
      st := Before(h, Prologue(e, t, q, 6).bus.regs);
    } else {
      st := PrologueStaged(h, e, t, q, n - 1);
    }
    st := CallStaged(h, Prologue(e, t, q, n - 1).bus.regs, q, n - 7, st);
    PrologueNext(e, t, q, n, p);
    NoCallback(e, t, q, n, p);
    DeliverStaged(h, e, p, e.inside(|t.owners|, n - 1), st);
  }

  lemma LaunchSilent(h: Honest, r: Regs, st: Stage, reading: bool)
    requires Staged(h, r, st) && Clear(st)
    ensures var log := AllCalled(r, LaunchCalls(reading)).log; |r.log| <= |log| && SilentFrom(h, log, |r.log|)
  {
    TransferSilent(h, r, st, |r.log|, reading);
    TransferIs(r, reading);
    NextCall(r, TransferCalls(reading), Fenced);
  }

  /** Whatever was in flight and wherever interrupts came, from the first interrupt enable of a synchronous `start` to
      the write that sets ST the interrupt output of an honest controller stays low. */
  lemma LaunchIsSilent(h: Honest, e: Env, t: Tr, q: Request, p: Tr)
    requires Sound(e, t) && BufferOk(q.buf, q.len, e.ramSize) && q.buf.At? && q.cb.None? && Synced(h, t.bus.regs)
    requires p == Prologue(e, t, q, STEPS)
    ensures Begun(e, t, q) == Launched(p, q.reading)
    ensures var log := Launched(p, q.reading).bus.regs.log;
            |p.bus.regs.log| <= |log| && SilentFrom(h, log, |p.bus.regs.log|)
  {
    var st := PrologueStaged(h, e, t, q, STEPS);
    LaunchSilent(h, p.bus.regs, st, q.reading);
  }
}
