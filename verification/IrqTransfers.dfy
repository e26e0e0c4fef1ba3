/**
 What each entry point of the interrupt-driven transport (src/i2c/i2c_irq.cpp) does to its state.

 A completion callback and its `user` pointer are a token. What a callback does is up to the client: it may start
 any number of further asynchronous transfers, given here as a function of the token and the result. Interrupts
 reach the handler only while an interrupt enable bit of C is set; how many do between two looks at `done`, and after
 each step of a `start`, is arbitrary too. The handler, and what its callback starts, is not interrupted.
 */
module IrqTransfers {
  import opened Common
  import opened Words
  import opened BscRegisters
  import opened Transfers

  /** The arguments of one `write_async` or `read_async`. */
  datatype Request = Request(reading: bool, addr: u8, buf: Ptr, len: nat, cb: Option<nat>)

  /** Everything outside the transport: the bus, the callbacks, the interrupts that arrive at each moment of waiting and
      after each step of each `start`, the budget, and the size of the memory. */
  datatype Env = Env(world: World, client: (nat, I2cResult) -> seq<Request>, arrivals: nat -> nat,
                     inside: (nat, nat) -> nat, maxWaits: nat, ramSize: nat)

  /** The transfer record `m_xfer`, with the source's default values. */
  datatype Xfer = Xfer(
    tx: Ptr := Null, tn: nat := 0, ti: nat := 0,
    rx: Ptr := Null, rn: nat := 0, ri: nat := 0,
    reading: bool := false, done: bool := false, result: I2cResult := Timeout,
    cb: Option<nat> := None, active: bool := false)

  /** What happened to transfer number `id`. */
  datatype Event = Finished(id: int, r: I2cResult) | Fired(id: int, token: nat, r: I2cResult)

  /** The transport's state, with its history: the callback of every transfer ever started, in order, and the
      events since. A finalization is charged to the last transfer, if its record is complete enough to be in flight or
      to have a callback; else to none, which is -1. `slot` counts the moments at which interrupts may have arrived. */
  datatype Tr = Tr(bus: Bus, x: Xfer, owners: seq<Option<nat>>, history: seq<Event>, slot: nat)

  function JobOf(x: Xfer): Job {
    if x.reading then Job(true, if x.rx.At? then x.rx.addr else 0, x.rn)
    else Job(false, if x.tx.At? then x.tx.addr else 0, x.tn)
  }

  function IndexOf(x: Xfer): nat {
    if x.reading then x.ri else x.ti
  }

  predicate XferOk(x: Xfer, ramSize: nat) {
    && x.ti <= x.tn && (x.tn > 0 ==> x.tx.At? && x.tx.addr + x.tn <= ramSize)
    && x.ri <= x.rn && (x.rn > 0 ==> x.rx.At? && x.rx.addr + x.rn <= ramSize)
  }

  ghost predicate ClientOk(e: Env) {
    forall token, r, k | 0 <= k < |e.client(token, r)| ::
      BufferOk(e.client(token, r)[k].buf, e.client(token, r)[k].len, e.ramSize)
  }

  ghost predicate Sound(e: Env, t: Tr) {
    |t.bus.ram| == e.ramSize && XferOk(t.x, e.ramSize) && ClientOk(e)
  }

  // ----- start

  /** The steps of `start` and of `finalize` at the registers, barriers included. */
  datatype Call =
    | FifoCleared
    | FlagCleared(flag: Status)
    | Addressed(addr: nat)
    | Sized(len: nat)
    | Switched(f: Control)
    | SwitchedOff(f: Control)
    | Started(reading: bool)
    | Fenced

  function Called(r: Regs, c: Call): Regs {
    match c
    case FifoCleared => ClearFifo(r)
    case FlagCleared(flag) => ClrStatus(r, flag)
    case Addressed(addr) => SetAddress(r, addr)
    case Sized(len) => SetLength(r, len)
    case Switched(f) => SetControl(r, f, One())
    case SwitchedOff(f) => ClrControl(r, f)
    case Started(reading) => Start(r, reading)
    case Fenced => r
  }

  function AllCalled(r: Regs, calls: seq<Call>): Regs {
    if calls == [] then r else Called(AllCalled(r, calls[..|calls| - 1]), calls[|calls| - 1])
  }

  lemma NextCall(r: Regs, calls: seq<Call>, c: Call)
    ensures AllCalled(r, calls + [c]) == Called(AllCalled(r, calls), c)
  {
    assert (calls + [c])[..|calls|] == calls;
  }

  lemma ThreeCalls(r: Regs, c1: Call, c2: Call, c3: Call)
    ensures AllCalled(r, [c1, c2, c3]) == Called(Called(Called(r, c1), c2), c3)
  {
    assert [c1, c2, c3] == [c1, c2] + [c3] && [c1, c2] == [c1] + [c2] && [c1] == [] + [c1];
    NextCall(r, [c1, c2], c3);
    NextCall(r, [c1], c2);
    NextCall(r, [], c1);
  }

  /** Some calls, then some more. */
  lemma {:induction false} MoreCalls(r: Regs, first: seq<Call>, rest: seq<Call>)
    ensures AllCalled(r, first + rest) == AllCalled(AllCalled(r, first), rest)
    decreases |rest|
  {
    if rest == [] {
      assert first + rest == first;
    } else {
      var init, last := rest[..|rest| - 1], rest[|rest| - 1];
      MoreCalls(r, first, init);
      assert first + rest == (first + init) + [last] && rest == init + [last];
      NextCall(r, first + init, last);
      NextCall(AllCalled(r, first), init, last);
    }
  }

  function FlagCalls(): seq<Call> {
    [FlagCleared(DONE), FlagCleared(ERR), FlagCleared(CLKT_TO)]
  }

  lemma FlagCallsAre(r: Regs)
    ensures AllCalled(r, FlagCalls()) == ClearFlags(r)
  {
    ThreeCalls(r, FlagCleared(DONE), FlagCleared(ERR), FlagCleared(CLKT_TO));
    ClearFlagsIs(r);
  }

  function SetUpCalls(addr: nat, len: nat): seq<Call> {
    ([FifoCleared] + FlagCalls()) + [Addressed(addr), Sized(len)]
  }

  function TransferCalls(reading: bool): seq<Call> {
    [Switched(if reading then INTR else INTT), Switched(INTD), Started(reading)]
  }

  function StartCalls(addr: nat, job: Job): seq<Call> {
    (SetUpCalls(addr, job.n) + TransferCalls(job.reading)) + [Fenced]
  }

  lemma SetUpIs(r: Regs, addr: nat, len: nat)
    ensures AllCalled(r, SetUpCalls(addr, len)) == SetLength(SetAddress(ClearFlags(ClearFifo(r)), addr), len)
  {
    var first := [FifoCleared] + FlagCalls();
    assert [FifoCleared] == [] + [FifoCleared];
    NextCall(r, [], FifoCleared);
    MoreCalls(r, [FifoCleared], FlagCalls());
    FlagCallsAre(ClearFifo(r));
    assert SetUpCalls(addr, len) == (first + [Addressed(addr)]) + [Sized(len)];
    NextCall(r, first, Addressed(addr));
    NextCall(r, first + [Addressed(addr)], Sized(len));
  }

  /** The last steps: the interrupts of the transfer, then the transfer. */
  function StartedFor(r: Regs, reading: bool): Regs {
    BscRegisters.Start(SetControl(SetControl(r, if reading then INTR else INTT, One()), INTD, One()), reading)
  }

  lemma TransferIs(r: Regs, reading: bool)
    ensures AllCalled(r, TransferCalls(reading)) == StartedFor(r, reading)
  {
    ThreeCalls(r, Switched(if reading then INTR else INTT), Switched(INTD), Started(reading));
  }

  lemma ArmedInParts(r: Regs, addr: nat, job: Job)
    ensures AllCalled(r, StartCalls(addr, job)) ==
            AllCalled(AllCalled(r, SetUpCalls(addr, job.n)), TransferCalls(job.reading))
  {
    var setUp, transfer := SetUpCalls(addr, job.n), TransferCalls(job.reading);
    MoreCalls(r, setUp, transfer);
    NextCall(r, setUp + transfer, Fenced);
  }

  lemma ArmedIs(r: Regs, addr: nat, job: Job)
    ensures AllCalled(r, StartCalls(addr, job)) ==
            StartedFor(SetLength(SetAddress(ClearFlags(ClearFifo(r)), addr), job.n), job.reading)
  {
    ArmedInParts(r, addr, job);
    SetUpIs(r, addr, job.n);
    TransferIs(AllCalled(r, SetUpCalls(addr, job.n)), job.reading);
  }

  /** The register writes of `start`, up to and including the one that sets ST. */
  function Armed(r: Regs, addr: nat, job: Job): (r': Regs)
    ensures r'.c.intd && (job.reading ==> r'.c.intr) && (!job.reading ==> r'.c.intt)
    ensures r'.c.intr == (job.reading || r.c.intr) && r'.c.intt == (!job.reading || r.c.intt)
    ensures !r'.c.clear && !r'.c.st && r'.a == addr % 0x80 && r'.dlen == job.n % 0x1_0000
    ensures r'.polls == r.polls && r'.pops == r.pops && r'.div == r.div
  {
    ArmedIs(r, addr, job);
    AllCalled(r, StartCalls(addr, job))
  }

  function StartXfer(q: Request): Xfer {
    if q.reading then Xfer(rx := q.buf, rn := q.len, reading := true, cb := q.cb, active := true)
    else Xfer(tx := q.buf, tn := q.len, cb := q.cb, active := true)
  }

  function StartTransfer(t: Tr, q: Request): Tr {
    t.(x := StartXfer(q),
    bus := t.bus.(regs := Armed(t.bus.regs, q.addr, Job(q.reading, 0, q.len))),
    owners := t.owners + [q.cb])
  }

  predicate Refused(t: Tr, q: Request) {
    Rejected(q.addr, q.buf, q.len) || t.x.active
  }

  function StartAsync(t: Tr, q: Request): Tr {
    if Refused(t, q) then t else StartTransfer(t, q)
  }

  /** The transfers a callback tries to start, one after the other. */
  function Issue(t: Tr, qs: seq<Request>): (t': Tr)
    ensures t'.bus.ram == t.bus.ram && t'.history == t.history && t'.slot == t.slot
    ensures t'.bus.regs.pops == t.bus.regs.pops
    decreases |qs|
  {
    if qs == [] then t else Issue(StartAsync(t, qs[0]), qs[1..])
  }

  // ----- finalize and abort

  function IntsOff(r: Regs): (r': Regs)
    ensures r'.c == r.c.(intd := false, intt := false, intr := false, clear := false, st := false)
    ensures r'.a == r.a && r'.dlen == r.dlen && r'.div == r.div && r'.polls == r.polls && r'.pops == r.pops
  {
    ClrThree(r, INTD, INTT, INTR);
    ClrAll(r, [INTD, INTT, INTR])
  }

  lemma IntsOffIs(r: Regs)
    ensures IntsOff(r) == ClrControl(ClrControl(ClrControl(r, INTD), INTT), INTR)
  {
    ClrThree(r, INTD, INTT, INTR);
  }

  function OffCalls(): seq<Call> {
    [SwitchedOff(INTD), SwitchedOff(INTT), SwitchedOff(INTR)]
  }

  function SettleCalls(): seq<Call> {
    (FlagCalls() + OffCalls()) + [Fenced]
  }

  lemma SilencedIs(r: Regs)
    ensures AllCalled(r, SettleCalls()) == IntsOff(ClearFlags(r))
  {
    FlagCallsAre(r);
    MoreCalls(r, FlagCalls(), OffCalls());
    ThreeCalls(ClearFlags(r), SwitchedOff(INTD), SwitchedOff(INTT), SwitchedOff(INTR));
    IntsOffIs(ClearFlags(r));
    NextCall(r, FlagCalls() + OffCalls(), Fenced);
  }

  /** The register writes of `finalize`: no flag stays set, no interrupt enabled. */
  function Silenced(r: Regs): (r': Regs)
    ensures r'.c == r.c.(intd := false, intt := false, intr := false, clear := false, st := false)
    ensures r'.a == r.a && r'.dlen == r.dlen && r'.div == r.div && r'.polls == r.polls && r'.pops == r.pops
  {
    SilencedIs(r);
    AllCalled(r, SettleCalls())
  }

  /** `finalize` up to the callback. */
  function Settle(t: Tr, r: I2cResult): Tr {
    t.(bus := t.bus.(regs := Silenced(t.bus.regs)),
    x := t.x.(result := r, done := true, active := false),
    history := t.history + [Finished(Charged(t), r)])
  }

  /** Whom a finalization concerns. */
  function Charged(t: Tr): int {
    if t.x.active || t.x.cb.Some? then |t.owners| - 1 else -1
  }

  lemma {:induction false} IssueKeepsXferOk(t: Tr, qs: seq<Request>)
    requires XferOk(t.x, |t.bus.ram|)
    requires forall k | 0 <= k < |qs| :: BufferOk(qs[k].buf, qs[k].len, |t.bus.ram|)
    ensures XferOk(Issue(t, qs).x, |t.bus.ram|)
    decreases |qs|
  {
    if qs != [] {
      IssueKeepsXferOk(StartAsync(t, qs[0]), qs[1..]);
    }
  }

  function Finalize(e: Env, t: Tr, r: I2cResult): (t': Tr)
    requires Sound(e, t)
    ensures Sound(e, t') && t'.bus.ram == t.bus.ram && t'.slot == t.slot && t'.bus.regs.pops == t.bus.regs.pops
  {
    var settled := Settle(t, r);
    match settled.x.cb
    case None => settled
    case Some(token) =>
      var freed := settled.(x := settled.x.(cb := None),
                   history := settled.history + [Fired(|t.owners| - 1, token, r)]);
      IssueKeepsXferOk(freed, e.client(token, r));
      Issue(freed, e.client(token, r))
  }

  function Abort(t: Tr): Tr {
    t.(bus := t.bus.(regs := ClearFlags(ClearFifo(IntsOff(t.bus.regs)))), x := t.x.(active := false))
  }

  // ----- handle_irq

  datatype IsrOutcome = IsrOutcome(bus: Bus, i: nat, verdict: Option<I2cResult>)

  /** The handler's loop: move bytes until a word is idle or ends the transfer. */
  function IsrLoop(world: World, b: Bus, job: Job, i: nat): (o: IsrOutcome)
    requires Fits(job, b.ram) && i <= job.n
    ensures |o.bus.ram| == |b.ram| && i <= o.i <= job.n
    decreases job.n - i
  {
    var b' := Step(world, b, job, i);
    match Looking(world, b, job, i)
    case Stop(r) => IsrOutcome(b', i, Some(r))
    case Idle => IsrOutcome(b', i, None)
    case Move => IsrLoop(world, b', job, i + 1)
  }

  function WithIndex(x: Xfer, i: nat): Xfer {
    if x.reading then x.(ri := i) else x.(ti := i)
  }

  /** The state when the handler's loop ends, before any finalization. */
  function Pumped(e: Env, t: Tr): Tr
    requires Sound(e, t)
  {
    var o := IsrLoop(e.world, t.bus, JobOf(t.x), IndexOf(t.x));
    t.(bus := o.bus, x := WithIndex(t.x, o.i))
  }

  function HandleIrq(e: Env, t: Tr): (t': Tr)
    requires Sound(e, t)
    ensures Sound(e, t') && t'.slot == t.slot
  {
    match IsrLoop(e.world, t.bus, JobOf(t.x), IndexOf(t.x)).verdict
    case None => Pumped(e, t)
    case Some(r) => Finalize(e, Pumped(e, t), r)
  }

  // ----- Waiting

  /** Up to `n` interrupts arrive. */
  function Deliver(e: Env, t: Tr, n: nat): (t': Tr)
    requires Sound(e, t)
    ensures Sound(e, t') && t'.slot == t.slot
    decreases n
  {
    if n == 0 || !IntsOn(t.bus.regs.c) then t else Deliver(e, HandleIrq(e, t), n - 1)
  }

  /** The interrupts of the next moment arrive. */
  function NextSlot(e: Env, t: Tr): (t': Tr)
    requires Sound(e, t)
    ensures Sound(e, t') && t'.slot == t.slot + 1
  {
    Deliver(e, t.(slot := t.slot + 1), e.arrivals(t.slot))
  }

  // ----- start, interrupted

  /** The assignments of `start` to the record, in order, after the one that resets it. */
  function Assigned(x: Xfer, q: Request, k: nat): Xfer {
    if k == 1 then x.(tx := if q.reading then Null else q.buf, tn := if q.reading then 0 else q.len)
    else if k == 2 then x.(rx := if q.reading then q.buf else Null, rn := if q.reading then q.len else 0)
    else if k == 3 then x.(reading := q.reading)
    else if k == 4 then x.(cb := q.cb)
    else x.(active := true)
  }

  /** The steps of `start` that an interrupt can follow: six on the record, six on the registers. */
  const STEPS: nat := 12

  function StartStep(t: Tr, q: Request, k: nat): Tr
    requires k < STEPS
  {
    if k == 0 then t.(x := Xfer(), owners := t.owners + [q.cb])
    else if k < 6 then t.(x := Assigned(t.x, q, k))
    else t.(bus := t.bus.(regs := Called(t.bus.regs, SetUpCalls(q.addr, q.len)[k - 6])))
  }

  /** While the record is being filled in and has no callback yet, an interrupt changes no more of it than this. */
  predicate Early(x: Xfer) {
    !x.reading && x.cb.None? && x.ri == 0
  }

  lemma {:induction false} DeliverEarly(e: Env, t: Tr, n: nat)
    requires Sound(e, t) && Early(t.x)
    ensures var x' := Deliver(e, t, n).x;
            && Early(x') && x'.tn == t.x.tn && x'.rn == t.x.rn
            && (t.x.tn == 0 ==> x'.ti == 0)
    decreases n
  {
    if n > 0 && IntsOn(t.bus.regs.c) { DeliverEarly(e, HandleIrq(e, t), n - 1); }
  }

  /** The first `n` steps of `start`, with the interrupts after each. */
  function Prologue(e: Env, t: Tr, q: Request, n: nat): (t': Tr)
    requires Sound(e, t) && BufferOk(q.buf, q.len, e.ramSize) && !q.buf.Null? && n <= STEPS
    ensures Sound(e, t') && t'.slot == t.slot
    ensures 1 <= n <= 3 ==> Early(t'.x)
    ensures n == 1 ==> t'.x.tn == 0 && t'.x.ti == 0 && t'.x.rn == 0
    ensures n == 2 ==> t'.x.rn == 0
    decreases q.len + n
  {
    if n == 0 then t
    else
      var p := StartStep(Prologue(e, t, q, n - 1), q, n - 1);
      if n <= 3 then
        DeliverEarly(e, p, e.inside(|t.owners|, n - 1));
        Deliver(e, p, e.inside(|t.owners|, n - 1))
      else Deliver(e, p, e.inside(|t.owners|, n - 1))
  }

  function LaunchCalls(reading: bool): seq<Call> {
    TransferCalls(reading) + [Fenced]
  }

  /** The rest of `start`, from the first interrupt enable on. */
  function Launched(t: Tr, reading: bool): Tr {
    t.(bus := t.bus.(regs := AllCalled(t.bus.regs, LaunchCalls(reading))))
  }

  /** `start` as a thread executes it. */
  function Begun(e: Env, t: Tr, q: Request): (t': Tr)
    requires Sound(e, t) && BufferOk(q.buf, q.len, e.ramSize) && !q.buf.Null?
    ensures Sound(e, t') && t'.slot == t.slot
  {
    Launched(Prologue(e, t, q, STEPS), q.reading)
  }

  /** `write_async` or `read_async`, called by a thread. */
  function AsyncTransfer(e: Env, t: Tr, q: Request): (t': Tr)
    requires Sound(e, t) && BufferOk(q.buf, q.len, e.ramSize)
    ensures Sound(e, t')
  {
    if Refused(t, q) then t else Begun(e, t, q)
  }

  /** What a synchronous call leaves behind and what it returns. */
  datatype Returned = Returned(t: Tr, r: I2cResult)

  function WaitLoop(e: Env, t: Tr, checks: nat): (r: Returned)
    requires Sound(e, t)
    ensures Sound(e, r.t)
    decreases checks
  {
    if checks == 0 then Returned(Abort(t), Timeout)
    else if t.x.done then Returned(t, t.x.result)
    else WaitLoop(e, NextSlot(e, t), checks - 1)
  }

  /** A synchronous `write` or `read`. */
  function SyncTransfer(e: Env, t: Tr, reading: bool, addr: u8, buf: Ptr, len: nat): (r: Returned)
    requires Sound(e, t) && BufferOk(buf, len, |t.bus.ram|)
    ensures Sound(e, r.t)
  {
    if Rejected(addr, buf, len) then Returned(t, BadArg)
    else WaitLoop(e, NextSlot(e, Begun(e, t, Request(reading, addr, buf, len, None))), e.maxWaits)
  }

  function SyncWriteRead(e: Env, t: Tr, addr: u8, wbuf: Ptr, wlen: nat, rbuf: Ptr, rlen: nat): (r: Returned)
    requires Sound(e, t) && BufferOk(wbuf, wlen, |t.bus.ram|) && BufferOk(rbuf, rlen, |t.bus.ram|)
  {
    var Returned(t', w) := SyncTransfer(e, t, false, addr, wbuf, wlen);
    if w != Ok then Returned(t', w) else SyncTransfer(e, t', true, addr, rbuf, rlen)
  }

  /** `read_reg`: the register number lives at `local` on the caller's stack while it is written. */
  function SyncReadReg(e: Env, t: Tr, addr: u8, reg: u8, buf: Ptr, n: nat, local: nat): (r: Returned)
    requires Sound(e, t) && BufferOk(buf, n, e.ramSize) && local < e.ramSize
  {
    SyncWriteRead(e, t.(bus := t.bus.(ram := t.bus.ram[local := reg])), addr, At(local), 1, buf, n)
  }

  function SyncWriteReg(e: Env, t: Tr, addr: u8, reg: u8, value: u8, local: nat): (r: Returned)
    requires Sound(e, t) && local + 2 <= e.ramSize
    ensures Sound(e, r.t)
  {
    SyncTransfer(e, t.(bus := t.bus.(ram := t.bus.ram[local := reg][local + 1 := value])), false, addr, At(local), 2)
  }
}
