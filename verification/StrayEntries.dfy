/**
 Entries of the handler that the enable bits do not gate, as on an interrupt line shared with another controller: after
 a transfer is over, and between two steps of `start`. What they store, and what they can finalize.
 */
module StrayEntries {
  import opened Common
  import opened Words
  import opened BscRegisters
  import opened Transfers
  import opened IrqTransfers
  import opened IrqLaws
  import opened IrqRuns
  import opened IrqBooks
  import opened BscDevice
  import opened FreshStart
  import opened RegisterDevice

  // ----- After a transfer is over

  /** A read whose first word shows ERR has been finalized with Nack, and an entry after that stores into the caller's
      buffer iff the next word shows a byte and no error. */
  lemma FinishedReadIsStoredInto(e: Env, t: Tr, q: Request, acts: seq<Act>)
    requires Initial(t) && Sound(e, t) && !Refused(t, q) && q.reading && q.cb.None?
    requires BufferOk(q.buf, q.len, e.ramSize) && e.world.status(t.bus.regs.polls)[8]
    requires acts == [Async(q)] + [Interrupt]
    ensures LegalRun(e, acts)
    ensures var over := Run(e, t, acts);
            var s := e.world.status(t.bus.regs.polls + 1);
            && !over.x.active && Finishes(over.history, 0) == [Nack]
            && (HandleIrq(e, over).bus.regs.pops > over.bus.regs.pops <==> s[5] && !s[8] && !s[9])
  {
    var t1 := StartTransfer(t, q);
    AsyncIsStart(e, t, q);
    TwoActs(e, t, acts, Async(q), Interrupt, t1, HandleIrq(e, t1));
    AfterNack(e, t1);
  }

  lemma AfterNack(e: Env, t: Tr)
    requires Sound(e, t) && t.x.reading && t.x.ri < t.x.rn && t.x.cb.None? && t.x.active
    requires e.world.status(t.bus.regs.polls)[8] && t.owners == [None] && t.history == []
    ensures var over := HandleIrq(e, t);
            var s := e.world.status(t.bus.regs.polls + 1);
            && !over.x.active && Finishes(over.history, 0) == [Nack]
            && (HandleIrq(e, over).bus.regs.pops > over.bus.regs.pops <==> s[5] && !s[8] && !s[9])
  {
    NackAtOnce(e, t);
    HistoryAppend([], Finished(0, Nack), 0);
    assert [] + [Finished(0, Nack)] == [Finished(0, Nack)];
    StrayInterruptStores(e, HandleIrq(e, t));
  }

  /** A wait without interrupts ends in the watchdog. */
  lemma {:induction false} SilentWait(e: Env, t: Tr, checks: nat)
    requires Sound(e, t) && !t.x.done && forall j | j >= t.slot :: e.arrivals(j) == 0
    ensures WaitLoop(e, t, checks) == Returned(Abort(t.(slot := t.slot + checks)), Timeout)
    decreases checks
  {
    if checks > 0 {
      assert NextSlot(e, t) == t.(slot := t.slot + 1);
      SilentWait(e, NextSlot(e, t), checks - 1);
    }
  }

  /** A synchronous read that met no interrupt has returned Timeout, and the first stray one after that stores into the
      caller's buffer iff its word shows a byte and no error. */
  lemma AbortedReadIsStoredInto(e: Env, t: Tr, addr: u8, buf: Ptr, len: nat)
    requires Initial(t) && Sound(e, t) && BufferOk(buf, len, e.ramSize) && !Rejected(addr, buf, len)
    requires forall j | j >= t.slot :: e.arrivals(j) == 0
    ensures var Returned(over, r) := SyncTransfer(e, t, true, addr, buf, len);
            var s := e.world.status(t.bus.regs.polls);
            && r == Timeout && !over.x.active
            && (HandleIrq(e, over).bus.regs.pops > over.bus.regs.pops <==> s[5] && !s[8] && !s[9])
  {
    var started := StartTransfer(t, Request(true, addr, buf, len, None));
    var waiting := started.(slot := started.slot + 1);
    SyncIsWait(e, t, true, addr, buf, len);
    assert NextSlot(e, started) == waiting;
    SilentWait(e, waiting, e.maxWaits);
    StrayInterruptStores(e, Abort(waiting.(slot := waiting.slot + e.maxWaits)));
  }

  // ----- What an entry makes of an honest controller

  predicate Flagged(d: Dev) {
    d.done || d.err || d.clkt
  }

  /** A verdict iff a flag is set, the flags in the order of their priority. */
  predicate FlagsDecide(d: Dev, reading: bool, verdict: Option<I2cResult>) {
    && (verdict.Some? <==> Flagged(d))
    && (d.err ==> verdict == Some(Nack))
    && (!d.err && d.clkt ==> verdict == Some(ClockTimeout))
    && (!d.err && !d.clkt && d.done && !reading ==> verdict == Some(Ok))
  }

  /** The controller has not heard of any new transfer; and if it was idle, it has sent and received nothing and set no
      flag. */
  predicate Unaware(d: Dev, d': Dev) {
    && |d'.wire| == |d.wire|
    && (!d.ta ==> !d'.ta && d'.done == d.done && d'.err == d.err && d'.clkt == d.clkt && d'.wire == d.wire)
  }

  lemma {:induction false} EventsUnaware(depth: nat, d: Dev, evs: seq<DevEvent>)
    ensures Unaware(d, Events(depth, d, evs))
    decreases |evs|
  {
    if evs != [] { EventsUnaware(depth, d, evs[..|evs| - 1]); }
  }

  lemma OpUnaware(h: Honest, log: seq<Op>, d: Dev, op: Op)
    requires Seen(h, log) == Some(d) && Seen(h, log + [op]).Some? && (op.ReadS? || op.Push? || op.Pop?)
    ensures Unaware(d, Seen(h, log + [op]).value)
    ensures op.ReadS? ==> Shows(h.depth, Seen(h, log + [op]).value, op.word)
  {
    EventsUnaware(h.depth, d, h.before(|log|));
    SeenAppend(h, log, op);
  }

  lemma StepUnaware(h: Honest, world: World, b: Bus, job: Job, i: nat, d: Dev, d': Dev)
    requires Fits(job, b.ram) && i <= job.n
    requires Seen(h, b.regs.log) == Some(d) && Seen(h, Step(world, b, job, i).regs.log) == Some(d')
    ensures Unaware(d, d')
    ensures Looking(world, b, job, i) != Move ==> Shows(h.depth, d', world.status(b.regs.polls))
  {
    var s := ReadS(world.status(b.regs.polls));
    var log := b.regs.log + [s];
    if Looking(world, b, job, i) == Move {
      var op := if job.reading then Pop(NextByte(world, b.regs)) else Push(b.ram[job.at + i]);
      assert Step(world, b, job, i).regs.log == log + [op];
      SeenAppend(h, log, op);
      OpUnaware(h, b.regs.log, d, s);
      OpUnaware(h, log, Seen(h, log).value, op);
    } else {
      OpUnaware(h, b.regs.log, d, s);
    }
  }

  lemma FlagsAreDecisive(depth: nat, d: Dev, s: Word, reading: bool, i: nat, n: nat)
    requires Shows(depth, d, s) && Decide(s, reading, i, n) != Move
    ensures FlagsDecide(d, reading,
                        if Decide(s, reading, i, n) == Idle then None else Some(Decide(s, reading, i, n).r))
  {
  }

  predicate Unawares(od: Option<Dev>, od': Option<Dev>) {
    od'.Some? ==> od.Some? && Unaware(od.value, od'.value)
  }

  /** What an entry that finds `od` and leaves `od'` makes of a controller, if the words it reads are its own. */
  predicate Entered(od: Option<Dev>, od': Option<Dev>, reading: bool, verdict: Option<I2cResult>) {
    od'.Some? ==> od.Some? && Unaware(od.value, od'.value) && FlagsDecide(od'.value, reading, verdict)
  }

  lemma EnteredBefore(od: Option<Dev>, od1: Option<Dev>, od2: Option<Dev>, reading: bool, verdict: Option<I2cResult>)
    requires Unawares(od, od1) && Entered(od1, od2, reading, verdict)
    ensures Entered(od, od2, reading, verdict)
  {
  }

  lemma StepIsUnaware(h: Honest, world: World, b: Bus, job: Job, i: nat, od: Option<Dev>, od': Option<Dev>)
    requires Fits(job, b.ram) && i <= job.n
    requires od == Seen(h, b.regs.log) && od' == Seen(h, Step(world, b, job, i).regs.log)
    ensures Unawares(od, od')
    ensures od'.Some? && Looking(world, b, job, i) != Move ==> Shows(h.depth, od'.value, world.status(b.regs.polls))
  {
    StepSeen(h, world, b, job, i);
    if od.Some? && od'.Some? { StepUnaware(h, world, b, job, i, od.value, od'.value); }
  }

  ghost predicate Enters(h: Honest, log: seq<Op>, o: IsrOutcome, reading: bool) {
    Entered(Seen(h, log), Seen(h, o.bus.regs.log), reading, o.verdict)
  }

  lemma EntryEnds(h: Honest, world: World, b: Bus, job: Job, i: nat)
    requires Fits(job, b.ram) && i <= job.n && Looking(world, b, job, i) != Move
    ensures Enters(h, b.regs.log, IsrLoop(world, b, job, i), job.reading)
  {
    IsrEnds(world, b, job, i);
    var od' := Seen(h, Step(world, b, job, i).regs.log);
    StepIsUnaware(h, world, b, job, i, Seen(h, b.regs.log), od');
    if od'.Some? {
      FlagsAreDecisive(h.depth, od'.value, world.status(b.regs.polls), job.reading, i, job.n);
    }
  }

  lemma EntryMoves(h: Honest, world: World, b: Bus, job: Job, i: nat, b': Bus, o: IsrOutcome)
    requires Fits(job, b.ram) && i < job.n && Looking(world, b, job, i) == Move && b' == Step(world, b, job, i)
    requires o == IsrLoop(world, b', job, i + 1) && Enters(h, b'.regs.log, o, job.reading)
    ensures o == IsrLoop(world, b, job, i) && Enters(h, b.regs.log, o, job.reading)
  {
    var od, od1, od2 := Seen(h, b.regs.log), Seen(h, b'.regs.log), Seen(h, o.bus.regs.log);
    IsrAgain(world, b, job, i);
    StepIsUnaware(h, world, b, job, i, od, od1);
    EnteredBefore(od, od1, od2, job.reading, o.verdict);
  }

  lemma {:induction false} EntryDecides(h: Honest, world: World, b: Bus, job: Job, i: nat)
    requires Fits(job, b.ram) && i <= job.n
    ensures Enters(h, b.regs.log, IsrLoop(world, b, job, i), job.reading)
    decreases job.n - i
  {
    if Looking(world, b, job, i) == Move {
      var b' := Step(world, b, job, i);
      EntryDecides(h, world, b', job, i + 1);
      EntryMoves(h, world, b, job, i, b', IsrLoop(world, b', job, i + 1));
    } else {
      EntryEnds(h, world, b, job, i);
    }
  }

  // ----- Inside `start`

  /** `start` after it has replaced the record, when its register writes have come to `regs`. */
  function Starting(t: Tr, q: Request, regs: Regs): Tr {
    t.(x := StartXfer(q), bus := t.bus.(regs := regs), owners := t.owners + [q.cb])
  }

  lemma EntryFinishes(e: Env, t: Tr, q: Request, m: Tr)
    requires Sound(e, m) && Books(t) && m == Starting(t, q, m.bus.regs)
    ensures Finishes(HandleIrq(e, m).history, |t.owners|) != [] <==>
            IsrLoop(e.world, m.bus, JobOf(m.x), IndexOf(m.x)).verdict.Some?
  {
    match IsrLoop(e.world, m.bus, JobOf(m.x), IndexOf(m.x)).verdict
    case None =>
    case Some(r) =>
      var p := Pumped(e, m);
      FinalizeIs(e, p, r);
      SettlementPays(p.history, Settled(p, r).history, Charged(p), |p.owners| - 1, p.x.cb, r, |t.owners|);
      if p.x.cb.Some? { IssueKeepsHistory(Settled(p, r), e.client(p.x.cb.value, r)); }
  }

  lemma IssueKeepsHistory(t: Tr, qs: seq<Request>)
    ensures Issue(t, qs).history == t.history
  {
  }

  /** An entry inside `start`, the registers being at `m`: it finalizes the new transfer iff the controller shows a flag
      by then, though the controller has not heard of that transfer yet. */
  lemma EntryWhileStarting(h: Honest, e: Env, t: Tr, q: Request, m: Tr, d: Dev, d': Dev)
    requires Sound(e, t) && Books(t) && BufferOk(q.buf, q.len, e.ramSize) && !Rejected(q.addr, q.buf, q.len)
    requires m == Starting(t, q, m.bus.regs) && Seen(h, m.bus.regs.log) == Some(d)
    requires Seen(h, IsrLoop(e.world, m.bus, JobOf(m.x), 0).bus.regs.log) == Some(d')
    ensures Sound(e, m) && Unaware(d, d')
    ensures FlagsDecide(d', q.reading, IsrLoop(e.world, m.bus, JobOf(m.x), 0).verdict)
    ensures Finishes(HandleIrq(e, m).history, |t.owners|) != [] <==> Flagged(d')
  {
    EntryDecides(h, e.world, m.bus, JobOf(m.x), 0);
    EntryFinishes(e, t, q, m);
  }

  /** Before the first register write: what an earlier transfer has left behind, or still does, decides; with Nack,
      ClockTimeout or, for a write, Ok accordingly. */
  lemma EntryBeforeClearing(h: Honest, e: Env, t: Tr, q: Request, m: Tr, d: Dev, d': Dev)
    requires Sound(e, t) && Books(t) && BufferOk(q.buf, q.len, e.ramSize) && !Rejected(q.addr, q.buf, q.len)
    requires m == Starting(t, q, t.bus.regs) && Seen(h, t.bus.regs.log) == Some(d)
    requires Seen(h, IsrLoop(e.world, m.bus, JobOf(m.x), 0).bus.regs.log) == Some(d')
    ensures Sound(e, m) && Unaware(d, d')
    ensures FlagsDecide(d', q.reading, IsrLoop(e.world, m.bus, JobOf(m.x), 0).verdict)
    ensures Finishes(HandleIrq(e, m).history, |t.owners|) != [] <==> Flagged(d')
  {
    EntryWhileStarting(h, e, t, q, m, d, d');
  }

  /** After the FIFO and the flags are cleared no entry finalizes it any more, whatever was in flight before. */
  lemma EntryAfterClearing(h: Honest, e: Env, t: Tr, q: Request, m: Tr)
    requires Sound(e, t) && Books(t) && BufferOk(q.buf, q.len, e.ramSize) && !Rejected(q.addr, q.buf, q.len)
    requires Synced(h, t.bus.regs) && m == Starting(t, q, ClearFlags(ClearFifo(t.bus.regs)))
    requires Seen(h, IsrLoop(e.world, m.bus, JobOf(m.x), 0).bus.regs.log).Some?
    ensures Sound(e, m)
    ensures Finishes(HandleIrq(e, m).history, |t.owners|) == []
  {
    var st := ClearStaged(h, t.bus.regs, Before(h, t.bus.regs));
    var _ := FlagsStaged(h, ClearFifo(t.bus.regs), st);
    var log := IsrLoop(e.world, m.bus, JobOf(m.x), 0).bus.regs.log;
    IsrSeen(h, e.world, m.bus, JobOf(m.x), 0);
    EntryWhileStarting(h, e, t, q, m, Seen(h, m.bus.regs.log).value, Seen(h, log).value);
  }
}
