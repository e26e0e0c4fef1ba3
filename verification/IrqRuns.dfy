/**
 Whole runs of the interrupt-driven transport: asynchronous starts, interrupts (stray ones too) and synchronous
 transfers, in any order and number, at any time, with interrupts inside every `start`. This module follows
 the interrupt enable bits: when they say what is in flight, and by which call exactly they can be left on for good.
 */
module IrqRuns {
  import opened Common
  import opened Words
  import opened BscRegisters
  import opened Transfers
  import opened IrqTransfers
  import opened IrqStarts
  import opened IrqLaws

  datatype Act = Async(q: Request) | Interrupt | Sync(reading: bool, addr: u8, buf: Ptr, len: nat)

  /** All the transport asks of its callers: real buffers. */
  predicate Legal(e: Env, a: Act) {
    match a
    case Async(q) => BufferOk(q.buf, q.len, e.ramSize)
    case Interrupt => true
    case Sync(_, _, buf, len) => BufferOk(buf, len, e.ramSize)
  }

  function Do(e: Env, t: Tr, a: Act): (t': Tr)
    requires Sound(e, t) && Legal(e, a)
    ensures Sound(e, t')
  {
    match a
    case Async(q) => AsyncTransfer(e, t, q)
    case Interrupt => HandleIrq(e, t)
    case Sync(reading, addr, buf, len) => SyncTransfer(e, t, reading, addr, buf, len).t
  }

  predicate LegalRun(e: Env, acts: seq<Act>) {
    forall k | 0 <= k < |acts| :: Legal(e, acts[k])
  }

  function Run(e: Env, t: Tr, acts: seq<Act>): (t': Tr)
    requires Sound(e, t) && LegalRun(e, acts)
    ensures Sound(e, t')
    decreases |acts|
  {
    if acts == [] then t else Run(e, Do(e, t, acts[0]), acts[1..])
  }

  /** Before the first transfer: the record has its default values, and no interrupt enable bit is set. */
  predicate Initial(t: Tr) {
    t.x == Xfer() && t.owners == [] && t.history == [] && !IntsOn(t.bus.regs.c)
  }

  // ----- What a callback starts

  lemma {:induction false} IssueBusy(t: Tr, qs: seq<Request>)
    requires t.x.active
    ensures Issue(t, qs) == t
    decreases |qs|
  {
    if qs != [] { IssueBusy(t, qs[1..]); }
  }

  /** On a free controller the first request that is not rejected is accepted, and all after it are refused. */
  lemma {:induction false} IssueFirst(t: Tr, qs: seq<Request>, k: nat)
    requires !t.x.active && k < |qs|
    requires forall j | 0 <= j < k :: Rejected(qs[j].addr, qs[j].buf, qs[j].len)
    requires !Rejected(qs[k].addr, qs[k].buf, qs[k].len)
    ensures Issue(t, qs) == StartTransfer(t, qs[k])
    decreases k
  {
    if k == 0 {
      IssueBusy(StartTransfer(t, qs[0]), qs[1..]);
    } else {
      IssueFirst(t, qs[1..], k - 1);
    }
  }

  /** Of the transfers a callback asks for at most one is started. */
  lemma {:induction false} IssueStartsOne(t: Tr, qs: seq<Request>)
    ensures Issue(t, qs) == t || (!t.x.active && exists k :: 0 <= k < |qs| && Issue(t, qs) == StartTransfer(t, qs[k]))
    decreases |qs|
  {
    if qs != [] {
      if Refused(t, qs[0]) {
        IssueStartsOne(t, qs[1..]);
        if Issue(t, qs) != t {
          var k :| 0 <= k < |qs[1..]| && Issue(t, qs[1..]) == StartTransfer(t, qs[1..][k]);
          assert Issue(t, qs) == StartTransfer(t, qs[k + 1]);
        }
      } else {
        IssueBusy(StartTransfer(t, qs[0]), qs[1..]);
        assert Issue(t, qs) == StartTransfer(t, qs[0]);
      }
    }
  }

  // ----- The enable bits

  /** The interrupt enable bits say what is in flight. */
  predicate Gates(t: Tr) {
    var c, x := t.bus.regs.c, t.x;
    && c.intd == x.active
    && c.intr == (x.active && x.reading)
    && c.intt == (x.active && !x.reading)
  }

  /** Nothing in flight, no interrupt enabled. */
  predicate AtRest(t: Tr) {
    !t.x.active && !IntsOn(t.bus.regs.c)
  }

  /** The state in which a callback is called, if there is one: finalized, the callback taken out and charged. */
  function Settled(t: Tr, r: I2cResult): (t': Tr)
    ensures AtRest(t') && t'.x.cb.None? && t'.owners == t.owners && t'.bus.ram == t.bus.ram
    ensures t'.history == t.history + Settlement(Charged(t), |t.owners| - 1, t.x.cb, r)
  {
    var s := Settle(t, r);
    if t.x.cb.None? then s
    else s.(x := s.x.(cb := None), history := s.history + [Fired(|t.owners| - 1, t.x.cb.value, r)])
  }

  /** What finalizing adds to the history: the result, and the call of the last callback if it is still to be made. */
  function Settlement(charged: int, last: int, cb: Option<nat>, r: I2cResult): seq<Event> {
    if cb.None? then [Finished(charged, r)] else [Finished(charged, r), Fired(last, cb.value, r)]
  }

  lemma FinalizeIs(e: Env, t: Tr, r: I2cResult)
    requires Sound(e, t)
    ensures t.x.cb.None? ==> Finalize(e, t, r) == Settled(t, r)
    ensures t.x.cb.Some? ==> Finalize(e, t, r) == Issue(Settled(t, r), e.client(t.x.cb.value, r))
  {
  }

  lemma {:induction false} IssueKeepsGates(t: Tr, qs: seq<Request>)
    requires Gates(t)
    ensures Gates(Issue(t, qs))
    decreases |qs|
  {
    if qs != [] { IssueKeepsGates(StartAsync(t, qs[0]), qs[1..]); }
  }

  lemma HandleIrqKeepsGates(e: Env, t: Tr)
    requires Sound(e, t) && Gates(t)
    ensures Gates(HandleIrq(e, t))
  {
    IsrBound(e.world, t.bus, JobOf(t.x), IndexOf(t.x));
    match IsrLoop(e.world, t.bus, JobOf(t.x), IndexOf(t.x)).verdict
    case None =>
    case Some(r) =>
      var p := Pumped(e, t);
      FinalizeIs(e, p, r);
      if p.x.cb.Some? { IssueKeepsGates(Settled(p, r), e.client(p.x.cb.value, r)); }
  }

  /** Within a synchronous call: whatever an earlier transfer left enabled, once this one is done nothing is. */
  predicate Under(t: Tr) {
    t.x.cb.None? && (t.x.done ==> AtRest(t))
  }

  lemma HandleIrqKeepsUnder(e: Env, t: Tr)
    requires Sound(e, t) && Under(t)
    ensures Under(HandleIrq(e, t))
  {
    IsrBound(e.world, t.bus, JobOf(t.x), IndexOf(t.x));
  }

  lemma {:induction false} DeliverKeepsUnder(e: Env, t: Tr, n: nat)
    requires Sound(e, t) && Under(t)
    ensures Under(Deliver(e, t, n))
    decreases n
  {
    if n > 0 && IntsOn(t.bus.regs.c) {
      HandleIrqKeepsUnder(e, t);
      DeliverKeepsUnder(e, HandleIrq(e, t), n - 1);
    }
  }

  lemma NextSlotKeepsUnder(e: Env, t: Tr)
    requires Sound(e, t) && Under(t)
    ensures Under(NextSlot(e, t))
  {
    DeliverKeepsUnder(e, t.(slot := t.slot + 1), e.arrivals(t.slot));
  }

  lemma {:induction false} WaitEndsAtRest(e: Env, t: Tr, checks: nat)
    requires Sound(e, t) && Under(t)
    ensures AtRest(WaitLoop(e, t, checks).t)
    decreases checks
  {
    if checks > 0 && !t.x.done {
      NextSlotKeepsUnder(e, t);
      WaitEndsAtRest(e, NextSlot(e, t), checks - 1);
    }
  }

  /** A synchronous call that is not rejected leaves the controller at rest if no interrupt is enabled when it is made,
      or none arrives inside its `start`. */
  lemma SyncEndsAtRest(e: Env, t: Tr, reading: bool, addr: u8, buf: Ptr, len: nat, t': Tr, r: I2cResult)
    requires Sound(e, t) && BufferOk(buf, len, e.ramSize) && !Rejected(addr, buf, len) && Undisturbed(e, t)
    requires SyncTransfer(e, t, reading, addr, buf, len) == Returned(t', r)
    ensures AtRest(t')
  {
    var started := StartTransfer(t, Request(reading, addr, buf, len, None));
    SyncIsWait(e, t, reading, addr, buf, len);
    NextSlotKeepsUnder(e, started);
    WaitEndsAtRest(e, NextSlot(e, started), e.maxWaits);
  }

  /** An operation that displaces a transfer in flight: a synchronous call that is not rejected. */
  predicate Displacing(t: Tr, a: Act) {
    a.Sync? && !Rejected(a.addr, a.buf, a.len) && t.x.active
  }

  /** No call of the run displaces a transfer in flight; or if one does, no interrupt arrives inside its `start`. */
  ghost predicate Orderly(e: Env, t: Tr, acts: seq<Act>)
    requires Sound(e, t) && LegalRun(e, acts)
    decreases |acts|
  {
    acts == [] ||
    ((Displacing(t, acts[0]) ==> Calm(e, |t.owners|)) && Orderly(e, Do(e, t, acts[0]), acts[1..]))
  }

  lemma AsyncIsStart(e: Env, t: Tr, q: Request)
    requires Sound(e, t) && BufferOk(q.buf, q.len, e.ramSize) && Gates(t)
    ensures AsyncTransfer(e, t, q) == StartAsync(t, q)
  {
    if !Refused(t, q) { BegunIsStart(e, t, q); }
  }

  lemma DoKeepsGates(e: Env, t: Tr, a: Act)
    requires Sound(e, t) && Gates(t) && Legal(e, a) && (Displacing(t, a) ==> Calm(e, |t.owners|))
    ensures Gates(Do(e, t, a))
  {
    match a
    case Async(q) => AsyncIsStart(e, t, q);
    case Interrupt => HandleIrqKeepsGates(e, t);
    case Sync(reading, addr, buf, len) =>
      if !Rejected(addr, buf, len) {
        var Returned(t', r) := SyncTransfer(e, t, reading, addr, buf, len);
        SyncEndsAtRest(e, t, reading, addr, buf, len, t', r);
      }
  }

  lemma {:induction false} RunKeepsGates(e: Env, t: Tr, acts: seq<Act>)
    requires Sound(e, t) && Gates(t) && LegalRun(e, acts) && Orderly(e, t, acts)
    ensures Gates(Run(e, t, acts))
    decreases |acts|
  {
    if acts != [] {
      DoKeepsGates(e, t, acts[0]);
      RunKeepsGates(e, Do(e, t, acts[0]), acts[1..]);
    }
  }

  /** In every orderly run, observed between operations: INTD says whether a transfer is in flight and INTR or INTT
      which way it goes; so an interrupt gets through to the handler only while a transfer is in flight, and once it
      has finished or been aborted none stores anywhere. */
  lemma GatesOverRuns(e: Env, t: Tr, acts: seq<Act>, n: nat)
    requires Initial(t) && Sound(e, t) && LegalRun(e, acts) && Orderly(e, t, acts)
    ensures var t' := Run(e, t, acts);
            && (t'.x.active <==> t'.bus.regs.c.intd)
            && (t'.x.active && t'.x.reading <==> t'.bus.regs.c.intr)
            && (t'.x.active && !t'.x.reading <==> t'.bus.regs.c.intt)
            && (!t'.x.active ==> Deliver(e, t', n) == t')
  {
    RunKeepsGates(e, t, acts);
  }

  // ----- What one interrupt stores

  /** Entered whether or not an enable bit is set, the handler stores exactly when the record is one of a read that
      still owes bytes, and the block shows a byte and no error. */
  lemma StrayInterruptStores(e: Env, t: Tr)
    requires Sound(e, t)
    ensures var s := e.world.status(t.bus.regs.polls);
            HandleIrq(e, t).bus.regs.pops > t.bus.regs.pops
            <==> t.x.reading && t.x.ri < t.x.rn && s[5] && !s[8] && !s[9]
  {
    var job, i := JobOf(t.x), IndexOf(t.x);
    if Looking(e.world, t.bus, job, i) == Move { IsrPops(e.world, Step(e.world, t.bus, job, i), job, i + 1); }
  }

  lemma {:induction false} IsrPops(world: World, b: Bus, job: Job, i: nat)
    requires Fits(job, b.ram) && i <= job.n
    ensures IsrLoop(world, b, job, i).bus.regs.pops >= b.regs.pops
    ensures !job.reading ==> IsrLoop(world, b, job, i).bus.regs.pops == b.regs.pops
    decreases job.n - i
  {
    if Looking(world, b, job, i) == Move { IsrPops(world, Step(world, b, job, i), job, i + 1); }
  }

  lemma NackAtOnce(e: Env, t: Tr)
    requires Sound(e, t) && t.x.cb.None? && e.world.status(t.bus.regs.polls)[8]
    ensures HandleIrq(e, t) == Settle(t.(bus := t.bus.(regs := Poll(e.world, t.bus.regs))), Nack)
  {
    assert Looking(e.world, t.bus, JobOf(t.x), IndexOf(t.x)) == Stop(Nack);
  }

  // ----- An interrupt inside the start of a call that displaces a transfer

  /** The one entry comes when the record is complete, before the first register access. */
  ghost predicate OneEntry(e: Env, id: nat) {
    forall k: nat | k < STEPS :: e.inside(id, k) == if k == 5 then 1 else 0
  }

  lemma OneInterrupt(e: Env, t: Tr)
    requires Sound(e, t) && IntsOn(t.bus.regs.c)
    ensures Deliver(e, t, 1) == HandleIrq(e, t)
  {
    NothingArrives(e, HandleIrq(e, t), 0);
  }

  /** `start` with that entry: the handler runs between the record and the registers. */
  lemma BegunWithEntry(e: Env, t: Tr, q: Request, m: Tr)
    requires Sound(e, t) && BufferOk(q.buf, q.len, e.ramSize) && !q.buf.Null?
    requires IntsOn(t.bus.regs.c) && OneEntry(e, |t.owners|)
    requires m == t.(x := StartXfer(q), owners := t.owners + [q.cb])
    ensures Sound(e, m)
    ensures var p := HandleIrq(e, m);
            Begun(e, t, q) == p.(bus := p.bus.(regs := Armed(p.bus.regs, q.addr, Job(q.reading, 0, q.len))))
  {
    PrologueIsPlain(e, t, q, 5);
    PlainRecord(t, q);
    PrologueNext(e, t, q, 6, m);
    OneInterrupt(e, m);
    BegunFrom(e, t, q, HandleIrq(e, m));
  }

  /** If the earlier transfer has failed by then, the entry takes its ERR for the new one's. */
  lemma BegunNacked(e: Env, t: Tr, q: Request, b: Tr)
    requires Sound(e, t) && BufferOk(q.buf, q.len, e.ramSize) && !q.buf.Null? && q.cb.None?
    requires IntsOn(t.bus.regs.c) && OneEntry(e, |t.owners|) && e.world.status(t.bus.regs.polls)[8]
    requires b == Begun(e, t, q)
    ensures b.x == StartXfer(q).(done := true, result := Nack, active := false)
    ensures b.bus.regs.c.intd && (if q.reading then b.bus.regs.c.intr else b.bus.regs.c.intt)
    ensures b.slot == t.slot && b.bus.regs.polls == t.bus.regs.polls + 1
  {
    var m := t.(x := StartXfer(q), owners := t.owners + [q.cb]);
    BegunWithEntry(e, t, q, m);
    NackAtOnce(e, m);
  }

  lemma DoneAtOnce(e: Env, b: Tr, t': Tr)
    requires Sound(e, b) && b.x.done && e.arrivals(b.slot) == 0 && e.maxWaits > 0 && t' == b.(slot := b.slot + 1)
    ensures WaitLoop(e, NextSlot(e, b), e.maxWaits) == Returned(t', b.x.result)
  {
    NothingArrives(e, t', 0);
  }

  /** So a synchronous call can return with its interrupts enabled and nothing in flight, and the next interrupt then
      stores into the caller's buffer, after the call, if its word shows a byte and no error. */
  lemma PreemptedSync(e: Env, t: Tr, reading: bool, addr: u8, buf: Ptr, len: nat, t': Tr, r: I2cResult)
    requires Sound(e, t) && BufferOk(buf, len, e.ramSize) && !Rejected(addr, buf, len)
    requires IntsOn(t.bus.regs.c) && OneEntry(e, |t.owners|) && e.world.status(t.bus.regs.polls)[8]
    requires e.arrivals(t.slot) == 0 && e.maxWaits > 0
    requires SyncTransfer(e, t, reading, addr, buf, len) == Returned(t', r)
    ensures r == Nack && !t'.x.active && t'.bus.regs.c.intd && !Gates(t') && !AtRest(t')
    ensures var s := e.world.status(t.bus.regs.polls + 1);
            Deliver(e, t', 1).bus.regs.pops > t'.bus.regs.pops <==> reading && s[5] && !s[8] && !s[9]
  {
    var b := Begun(e, t, Request(reading, addr, buf, len, None));
    BegunNacked(e, t, Request(reading, addr, buf, len, None), b);
    DoneAtOnce(e, b, b.(slot := b.slot + 1));
    OneInterrupt(e, t');
    StrayInterruptStores(e, t');
  }

  lemma FirstAct(e: Env, t: Tr, acts: seq<Act>, a: Act, rest: seq<Act>)
    requires Sound(e, t) && LegalRun(e, rest) && Legal(e, a) && acts == [a] + rest
    ensures LegalRun(e, acts) && Run(e, t, acts) == Run(e, Do(e, t, a), rest)
    ensures Orderly(e, t, acts) <==>
            (Displacing(t, a) ==> Calm(e, |t.owners|)) && Orderly(e, Do(e, t, a), rest)
  {
    assert acts[1..] == rest;
  }

  lemma TwoActs(e: Env, t: Tr, acts: seq<Act>, a1: Act, a2: Act, t1: Tr, t2: Tr)
    requires Sound(e, t) && Legal(e, a1) && t1 == Do(e, t, a1) && Legal(e, a2) && t2 == Do(e, t1, a2)
    requires acts == [a1] + [a2]
    ensures LegalRun(e, acts) && Run(e, t, acts) == t2
    ensures Orderly(e, t, acts) ==> (Displacing(t1, a2) ==> Calm(e, |t1.owners|))
  {
    var rest := [a2];
    LastAct(e, t1, rest, a2);
    FirstAct(e, t, acts, a1, rest);
  }

  lemma LastAct(e: Env, t: Tr, acts: seq<Act>, a: Act)
    requires Sound(e, t) && Legal(e, a) && acts == [a]
    ensures LegalRun(e, acts) && Run(e, t, acts) == Do(e, t, a)
    ensures Orderly(e, t, acts) ==> (Displacing(t, a) ==> Calm(e, |t.owners|))
  {
    var none: seq<Act> := [];
    FirstAct(e, t, acts, a, none);
  }

  /** It happens from the beginning: a transfer is started, and a synchronous call made while it is in flight. */
  lemma PreemptedRun(e: Env, t: Tr, q: Request, a: Act, acts: seq<Act>, t': Tr)
    requires Initial(t) && Sound(e, t) && Legal(e, Async(q)) && !Rejected(q.addr, q.buf, q.len)
    requires Legal(e, a) && a.Sync? && !Rejected(a.addr, a.buf, a.len)
    requires OneEntry(e, 1) && e.world.status(t.bus.regs.polls)[8] && e.arrivals(t.slot) == 0 && e.maxWaits > 0
    requires acts == [Async(q)] + [a] && LegalRun(e, acts) && t' == Run(e, t, acts)
    ensures !Orderly(e, t, acts)
    ensures !t'.x.active && t'.bus.regs.c.intd && !Gates(t')
  {
    var t1 := StartTransfer(t, q);
    AsyncIsStart(e, t, q);
    var Returned(t2, r) := SyncTransfer(e, t1, a.reading, a.addr, a.buf, a.len);
    PreemptedSync(e, t1, a.reading, a.addr, a.buf, a.len, t2, r);
    TwoActs(e, t, acts, Async(q), a, t1, t2);
    assert e.inside(1, 5) == 1;
  }

  function AlwaysErr(k: nat): Word {
    Bit(8)
  }

  function Never(k: nat): nat {
    0
  }

  function OnceInside(id: nat, k: nat): nat {
    if k == 5 then 1 else 0
  }

  function NoRequests(token: nat, r: I2cResult): seq<Request> {
    []
  }

  /** A controller that shows ERR, one interrupt inside each `start`, and none later. */
  function Meddling(ramSize: nat): Env {
    Env(World(AlwaysErr, Never), NoRequests, Never, OnceInside, 1, ramSize)
  }

  /** Exactly when a synchronous call leaves the controller at rest: whatever the controller shows and wherever
      interrupts come, iff no interrupt is enabled when it is made. As long as the enable bits say what is in flight,
      that is iff it displaces no transfer. */
  lemma SyncRestIff(t: Tr, reading: bool, addr: u8, buf: Ptr, len: nat)
    requires XferOk(t.x, |t.bus.ram|) && BufferOk(buf, len, |t.bus.ram|) && !Rejected(addr, buf, len)
    ensures (forall e | Sound(e, t) :: AtRest(SyncTransfer(e, t, reading, addr, buf, len).t)) <==>
            !IntsOn(t.bus.regs.c)
    ensures Gates(t) ==> (IntsOn(t.bus.regs.c) <==> t.x.active)
  {
    if IntsOn(t.bus.regs.c) {
      var e := Meddling(|t.bus.ram|);
      var Returned(t', r) := SyncTransfer(e, t, reading, addr, buf, len);
      PreemptedSync(e, t, reading, addr, buf, len, t', r);
    } else {
      forall e | Sound(e, t) ensures AtRest(SyncTransfer(e, t, reading, addr, buf, len).t) {
        var Returned(t', r) := SyncTransfer(e, t, reading, addr, buf, len);
        SyncEndsAtRest(e, t, reading, addr, buf, len, t', r);
      }
    }
  }
}
