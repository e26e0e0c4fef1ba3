/**
 What an interrupt-driven transfer leaves behind in an honest controller: after `finalize` one that has stopped is at
 rest with no flag set, and after the watchdog's `abort_transfer` it is at rest with no flag set and nothing in the
 FIFO, whatever it was doing; and so it stays, with nothing more on the wire, until the next start.
 */
module AfterTransfer {
  import opened Common
  import opened BscRegisters
  import opened Transfers
  import opened IrqTransfers
  import opened IrqStarts
  import opened IrqLaws
  import opened IrqRuns
  import opened BscDevice
  import opened FreshStart
  import opened EndToEnd
  import opened Delivery
  import opened RunDelivery
  import opened QuietLaunch

  /** Stopped, with no flag set. */
  predicate Resting(d: Dev) {
    !d.ta && !d.done && !d.err && !d.clkt
  }

  // ----- Until the next start

  /** No access of these starts a transfer. */
  predicate NoStart(ops: seq<Op>) {
    forall k | 0 <= k < |ops| :: ops[k].WriteC? ==> !(ops[k].ctl.st && ops[k].ctl.en)
  }

  /** Whatever the driver does but start a transfer, and whatever the controller does, it rests and the wire is
      still. */
  lemma {:induction false} RestsOn(h: Honest, log: seq<Op>, more: seq<Op>, d: Dev, d': Dev)
    requires Seen(h, log) == Some(d) && Seen(h, log + more) == Some(d') && Resting(d) && NoStart(more)
    ensures Resting(d') && d'.wire == d.wire
    ensures forall evs :: Events(h.depth, d', evs) == d'
    decreases |more|
  {
    if more == [] {
      assert log + more == log;
    } else {
      var init, op := more[..|more| - 1], more[|more| - 1];
      var log1 := log + init;
      assert log + more == log1 + [op];
      SeenAppend(h, log1, op);
      RestsOn(h, log, init, d, Seen(h, log1).value);
      RestsAt(h, log1, op, Seen(h, log1).value, d');
    }
    forall evs ensures Events(h.depth, d', evs) == d' {
      IdleStays(h.depth, d', evs);
    }
  }

  lemma RestsAt(h: Honest, log: seq<Op>, op: Op, d: Dev, d': Dev)
    requires Seen(h, log) == Some(d) && Seen(h, log + [op]) == Some(d') && Resting(d)
    requires op.WriteC? ==> !(op.ctl.st && op.ctl.en)
    ensures Resting(d') && d'.wire == d.wire
  {
    SeenAppend(h, log, op);
    IdleStays(h.depth, d, h.before(|log|));
  }

  // ----- finalize

  lemma IntsOffStaged(h: Honest, r: Regs, st: Stage)
    requires Staged(h, r, st)
    ensures Staged(h, IntsOff(r), st)
  {
    var r1 := ClrControl(r, INTD);
    var r2 := ClrControl(r1, INTT);
    IntsOffIs(r);
    StoreStaged(h, r, st, Dropped(r.c, INTD));
    StoreStaged(h, r1, st, Dropped(r1.c, INTT));
    StoreStaged(h, r2, st, Dropped(r2.c, INTR));
  }

  /** Nothing under way, no flag set, nothing in the FIFO, if an honest controller has answered so far. */
  ghost predicate Emptied(h: Honest, r: Regs) {
    Seen(h, r.log).Some? ==> Resting(Seen(h, r.log).value) && Seen(h, r.log).value.fifo == []
  }

  /** `finalize` on a controller that has stopped. */
  lemma SilencedRests(h: Honest, r: Regs, d: Dev, d': Dev)
    requires Synced(h, r) && Seen(h, r.log) == Some(d) && !d.ta && Seen(h, Silenced(r).log) == Some(d')
    ensures Resting(d') && d'.wire == d.wire
  {
    var r1 := ClearFlags(r);
    var st := FlagsStaged(h, r, Before(h, r));
    SilencedIs(r);
    IntsOffStaged(h, r1, st);
  }

  /** A verdict other than ClockTimeout is one on a controller that has stopped. */
  lemma VerdictRests(h: Honest, f: Flight, o: IsrOutcome, ram: seq<u8>, d': Dev)
    requires Conveyed(h, o, f, ram) && o.verdict.Some? && o.verdict != Some(ClockTimeout)
    requires Seen(h, Silenced(o.bus.regs).log) == Some(d')
    ensures Resting(d') && Seen(h, o.bus.regs.log).Some? && d'.wire == Seen(h, o.bus.regs.log).value.wire
  {
    SilencedAnswered(h, o.bus.regs);
    SilencedRests(h, o.bus.regs, Seen(h, o.bus.regs.log).value, d');
  }

  /** In every orderly run against an honest controller: when an interrupt finalizes the transfer in flight with
      anything but ClockTimeout, the controller is at rest with no flag set before the callback is called. */
  lemma FinalizedRests(h: Honest, e: Env, t0: Tr, acts: seq<Act>, t: Tr, r: I2cResult)
    requires Initial(t0) && Sound(e, t0) && Synced(h, t0.bus.regs) && LegalRun(e, acts) && Orderly(e, t0, acts)
    requires t == Run(e, t0, acts) && t.x.active && r != ClockTimeout
    requires IsrLoop(e.world, t.bus, JobOf(t.x), IndexOf(t.x)).verdict == Some(r)
    ensures var s := Settled(Pumped(e, t), r);
            Seen(h, s.bus.regs.log).Some? ==> Resting(Seen(h, s.bus.regs.log).value)
  {
    RunAboard(h, e, t0, acts);
    var f :| Carried(h, e, t, f);
    FlightPumped(h, e, t, f);
    var s := Settled(Pumped(e, t), r);
    if Seen(h, s.bus.regs.log).Some? {
      VerdictRests(h, f, IsrLoop(e.world, t.bus, JobOf(t.x), IndexOf(t.x)), t.bus.ram, Seen(h, s.bus.regs.log).value);
    }
  }

  // ----- abort_transfer

  /** `abort_transfer`, whatever the controller is doing. Of the record only `active` changes. */
  lemma AbortRests(h: Honest, t: Tr)
    requires Synced(h, t.bus.regs)
    ensures Emptied(h, Abort(t).bus.regs)
    ensures Abort(t) == t.(bus := Abort(t).bus, x := t.x.(active := false)) && Abort(t).bus.ram == t.bus.ram
  {
    var r := IntsOff(t.bus.regs);
    IntsOffStaged(h, t.bus.regs, Before(h, t.bus.regs));
    var st := ClearStaged(h, r, Before(h, t.bus.regs));
    var st' := FlagsStaged(h, ClearFifo(r), st);
    assert Staged(h, Abort(t).bus.regs, st');
  }

  /** No look of the watchdog sees `done`. */
  predicate Unseen(e: Env, t: Tr, checks: nat)
    requires Sound(e, t)
    decreases checks
  {
    checks == 0 || (!t.x.done && Unseen(e, NextSlot(e, t), checks - 1))
  }

  /** What the call returns, and how it leaves the controller if the watchdog ends it. */
  ghost predicate EndsWell(h: Honest, unseen: bool, t': Tr, r: I2cResult) {
    if unseen then r == Timeout && !t'.x.active && Emptied(h, t'.bus.regs) else t'.x.done && r == t'.x.result
  }

  lemma AbortEnds(h: Honest, t: Tr)
    requires Synced(h, t.bus.regs)
    ensures EndsWell(h, true, Abort(t), Timeout)
  {
    AbortRests(h, t);
  }

  lemma NextSlotSynced(h: Honest, e: Env, t: Tr)
    requires Sound(e, t) && Synced(h, t.bus.regs) && t.x.cb.None?
    ensures Synced(h, NextSlot(e, t).bus.regs) && NextSlot(e, t).x.cb.None?
  {
    DeliverSynced(h, e, t.(slot := t.slot + 1), e.arrivals(t.slot));
  }

  lemma {:induction false} UnseenAborts(h: Honest, e: Env, t: Tr, checks: nat, t': Tr, r: I2cResult)
    requires Sound(e, t) && Synced(h, t.bus.regs) && t.x.cb.None? && WaitLoop(e, t, checks) == Returned(t', r)
    ensures EndsWell(h, Unseen(e, t, checks), t', r)
    decreases checks
  {
    if checks == 0 {
      AbortEnds(h, t);
    } else if !t.x.done {
      NextSlotSynced(h, e, t);
      UnseenAborts(h, e, NextSlot(e, t), checks - 1, t', r);
    }
  }

  /** `start` leaves the driver's view of the registers right, wherever interrupts come. */
  lemma BegunSynced(h: Honest, e: Env, t: Tr, q: Request)
    requires Sound(e, t) && BufferOk(q.buf, q.len, e.ramSize) && q.buf.At? && q.cb.None? && Synced(h, t.bus.regs)
    ensures Synced(h, Begun(e, t, q).bus.regs) && Begun(e, t, q).x.cb.None?
  {
    var st := PrologueStaged(h, e, t, q, STEPS);
    PrologueWithin(e, t, q, STEPS);
    CallsSynced(h, Prologue(e, t, q, STEPS).bus.regs, LaunchCalls(q.reading));
  }

  /** A synchronous call, whatever it displaces and wherever interrupts come: if the watchdog ends it, it returns
      Timeout and the controller is at rest with no flag set and an empty FIFO; otherwise it returns the stored
      result. */
  lemma WatchdogRests(h: Honest, e: Env, t: Tr, q: Request, t': Tr, r: I2cResult)
    requires Sound(e, t) && Synced(h, t.bus.regs) && BufferOk(q.buf, q.len, e.ramSize) && q.cb.None?
    requires q.buf.At? && 0 < q.len && q.addr < 0x80
    requires SyncTransfer(e, t, q.reading, q.addr, q.buf, q.len) == Returned(t', r)
    ensures EndsWell(h, Unseen(e, NextSlot(e, Begun(e, t, q)), e.maxWaits), t', r)
  {
    BegunSynced(h, e, t, q);
    WaitingRests(h, e, Begun(e, t, q), t', r);
  }

  lemma WaitingRests(h: Honest, e: Env, b: Tr, t': Tr, r: I2cResult)
    requires Sound(e, b) && Synced(h, b.bus.regs) && b.x.cb.None?
    requires WaitLoop(e, NextSlot(e, b), e.maxWaits) == Returned(t', r)
    ensures EndsWell(h, Unseen(e, NextSlot(e, b), e.maxWaits), t', r)
  {
    NextSlotSynced(h, e, b);
    UnseenAborts(h, e, NextSlot(e, b), e.maxWaits, t', r);
  }

  lemma EndRests(h: Honest, started: Tr, f: Flight, o: IsrOutcome, t': Tr, r: I2cResult)
    requires Conveyed(h, o, f, started.bus.ram) && o.verdict == Some(r) && r != ClockTimeout
    requires t'.bus.regs == Silenced(o.bus.regs)
    ensures Seen(h, t'.bus.regs.log).Some? ==> Resting(Seen(h, t'.bus.regs.log).value)
  {
    if Seen(h, t'.bus.regs.log).Some? {
      VerdictRests(h, f, o, started.bus.ram, Seen(h, t'.bus.regs.log).value);
    }
  }

  lemma AbortedRests(h: Honest, e: Env, started: Tr, f: Flight, n: nat, end: nat, t': Tr)
    requires Sound(e, started) && t' == Abort(After(e, started, n, end))
    requires f.job == JobOf(started.x) && IndexOf(started.x) == 0 && Tracks(h, started.bus, f, 0)
    ensures Emptied(h, t'.bus.regs)
  {
    InterruptsTrack(h, e.world, started.bus, f, 0, n);
    CallsSynced(h, Taken(e, started, n).bus.regs, SettleCalls());
    AbortRests(h, After(e, started, n, end));
  }

  /** How the controller is left by a transfer that its interrupts ended, or the watchdog. */
  lemma FlightRests(h: Honest, e: Env, started: Tr, f: Flight, total: nat, t': Tr, r: I2cResult)
    requires Flying(e, started) && total == Sum(e.arrivals, started.slot, e.maxWaits)
    requires f.job == JobOf(started.x) && IndexOf(started.x) == 0 && Tracks(h, started.bus, f, 0)
    requires WaitLoop(e, NextSlot(e, started), e.maxWaits) == Returned(t', r)
    ensures Taken(e, started, total).verdict.None? ==> r == Timeout && Emptied(h, t'.bus.regs)
    ensures r != ClockTimeout && Seen(h, t'.bus.regs.log).Some? ==> Resting(Seen(h, t'.bus.regs.log).value)
  {
    var s := FlightStops(e, started);
    var o := Taken(e, started, total);
    StopsByTotal(e, started, s, total);
    if s.seen {
      InterruptsTrack(h, e.world, started.bus, f, 0, total);
      if r != ClockTimeout { EndRests(h, started, f, o, t', r); }
    } else {
      AbortedRests(h, e, started, f, s.n, s.slot, t');
    }
  }

  /** A synchronous call, for every pattern of interrupts, if none is enabled at the call or none arrives inside
      `start`: unless it returns ClockTimeout the controller is at rest with no flag set; and if the interrupts were not
      enough the FIFO is empty, too. */
  lemma SyncRests(h: Honest, e: Env, t: Tr, reading: bool, addr: u8, buf: Ptr, len: nat, t': Tr, r: I2cResult)
    requires Synced(h, t.bus.regs) && Sound(e, t) && Undisturbed(e, t)
    requires BufferOk(buf, len, e.ramSize) && buf.At? && 0 < len && addr < 0x80
    requires SyncTransfer(e, t, reading, addr, buf, len) == Returned(t', r)
    ensures !InTime(e, t, reading, addr, buf, len) ==> r == Timeout && Emptied(h, t'.bus.regs)
    ensures r != ClockTimeout && Seen(h, t'.bus.regs.log).Some? ==> Resting(Seen(h, t'.bus.regs.log).value)
  {
    var q := Request(reading, addr, buf, len, None);
    var started := StartTransfer(t, q);
    var wire := ArmedIsFresh(h, t.bus.regs, addr, Job(reading, 0, len));
    var f := Flight(wire, addr, Job(reading, buf.addr, len));
    FreshTracks(h, started.bus, f);
    StartFlies(e, t, q);
    SyncIsWait(e, t, reading, addr, buf, len);
    FlightRests(h, e, started, f, Sum(e.arrivals, t.slot, e.maxWaits), t', r);
  }
}
