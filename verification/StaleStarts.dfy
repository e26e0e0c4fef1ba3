/**
 A synchronous call that displaces a transfer in flight, against an honest controller: an interrupt of the earlier
 transfer, taken between the record and the registers of the new one, can complete the new one with Ok before the
 controller has heard of it. Whether that is possible depends on nothing but the interrupt enable bits at the call.
 */
module StaleStarts {
  import opened Common
  import opened Words
  import opened BscRegisters
  import opened Transfers
  import opened IrqTransfers
  import opened IrqLaws
  import opened IrqRuns
  import opened BscDevice
  import opened FreshStart
  import opened Delivery
  import opened RunDelivery

  // ----- An entry that says Ok

  /** `start` with that entry: the record is done, and the controller is only now given its transfer. */
  lemma BegunStale(h: Honest, e: Env, t: Tr, q: Request, o: IsrOutcome, b: Tr) returns (wire: seq<Txn>)
    requires Sound(e, t) && BufferOk(q.buf, q.len, e.ramSize) && !q.buf.Null? && q.cb.None?
    requires IntsOn(t.bus.regs.c) && OneEntry(e, |t.owners|) && Synced(h, t.bus.regs)
    requires o == IsrLoop(e.world, t.bus, Job(q.reading, q.buf.addr, q.len), 0)
    requires o.verdict == Some(Ok) && Seen(h, o.bus.regs.log).Some? && b == Begun(e, t, q)
    ensures b.x.done && b.x.result == Ok && b.bus.ram == o.bus.ram && b.slot == t.slot
    ensures Seen(h, b.bus.regs.log).Some?
    ensures Fresh(Seen(h, b.bus.regs.log).value, wire, q.addr, Job(q.reading, q.buf.addr, q.len))
  {
    var m := t.(x := StartXfer(q), owners := t.owners + [q.cb]);
    BegunWithEntry(e, t, q, m);
    var p := Pumped(e, m);
    FinalizeIs(e, p, Ok);
    IsrSynced(h, e.world, t.bus, Job(q.reading, q.buf.addr, q.len), 0);
    SettledSynced(h, p, Ok);
    SilencedAnswered(h, p.bus.regs);
    var s := Settled(p, Ok).bus.regs;
    wire := ArmedIsFresh(h, s, q.addr, Job(q.reading, 0, q.len));
    ArmedAnswered(h, s, q.addr, Job(q.reading, 0, q.len));
  }

  /** The transaction has only begun. */
  ghost predicate NothingOver(h: Honest, log: seq<Op>) {
    Seen(h, log).Some? && Seen(h, log).value.wire != [] && Last(Seen(h, log).value).bytes == []
  }

  /** The caller gets Ok, its buffer is what that entry made of it, and nothing has gone over the wire. */
  lemma StaleOk(h: Honest, e: Env, t: Tr, reading: bool, addr: u8, buf: Ptr, len: nat, o: IsrOutcome, t': Tr,
                r: I2cResult)
    requires Sound(e, t) && BufferOk(buf, len, e.ramSize) && !Rejected(addr, buf, len)
    requires IntsOn(t.bus.regs.c) && OneEntry(e, |t.owners|) && Synced(h, t.bus.regs)
    requires e.arrivals(t.slot) == 0 && e.maxWaits > 0
    requires o == IsrLoop(e.world, t.bus, Job(reading, buf.addr, len), 0)
    requires o.verdict == Some(Ok) && Seen(h, o.bus.regs.log).Some?
    requires SyncTransfer(e, t, reading, addr, buf, len) == Returned(t', r)
    ensures r == Ok && t'.bus.ram == o.bus.ram && NothingOver(h, t'.bus.regs.log)
    ensures forall i :: !Arrived(h, t'.bus, reading, addr, buf.addr, len, i, Ok)
  {
    var q := Request(reading, addr, buf, len, None);
    var b := Begun(e, t, q);
    var wire := BegunStale(h, e, t, q, o, b);
    DoneAtOnce(e, b, b.(slot := b.slot + 1));
  }

  // ----- Such an entry

  /** What a finished controller shows whose FIFO still holds `n - k` of the `n` bytes it has room for. */
  function StaleStatus(n: nat, k: nat): Word {
    seq(32, j => j == 1 || (j == 5 && k < n) || (j == 4 && k > 0))
  }

  predicate Complete(d: Dev) {
    d.done && !d.err && !d.clkt
  }

  /** A status word, then one byte of an earlier transfer. */
  lemma StaleByte(h: Honest, world: World, b: Bus, job: Job, i: nat, d: Dev)
    requires job.reading && i < job.n == h.depth && Fits(job, b.ram)
    requires Finds(h, b.regs.log, d) && Complete(d) && |d.fifo| == job.n - i
    requires h.before(|b.regs.log| + 1) == [] && h.before(|b.regs.log| + 2) == []
    requires world.status(b.regs.polls) == StaleStatus(job.n, i) && world.fifo(b.regs.pops) == d.fifo[0]
    ensures Looking(world, b, job, i) == Move
    ensures var b' := Step(world, b, job, i);
            && b'.ram == b.ram[job.at + i := d.fifo[0]] && |b'.regs.log| == |b.regs.log| + 2
            && b'.regs.polls == b.regs.polls + 1 && b'.regs.pops == b.regs.pops + 1
            && Finds(h, b'.regs.log, d.(fifo := d.fifo[1..]))
  {
    var look, pop := ReadS(world.status(b.regs.polls)), Pop(d.fifo[0]);
    FindsNext(h, b.regs.log, d, look, d);
    FindsNext(h, b.regs.log + [look], d, pop, d.(fifo := d.fifo[1..]));
  }

  lemma StaleDone(h: Honest, world: World, b: Bus, job: Job, d: Dev)
    requires Fits(job, b.ram) && 0 < job.n
    requires Finds(h, b.regs.log, d) && Complete(d) && d.fifo == [] && h.depth > 0
    requires world.status(b.regs.polls) == StaleStatus(job.n, job.n) && job.reading
    ensures Looking(world, b, job, job.n) == Stop(Ok)
    ensures Seen(h, Step(world, b, job, job.n).regs.log).Some? && Step(world, b, job, job.n).ram == b.ram
  {
    FindsNext(h, b.regs.log, d, ReadS(world.status(b.regs.polls)), d);
  }

  /** What the handler reads of it: the status words from the `polls`-th on, the bytes from the `pops`-th. */
  ghost predicate Leftovers(world: World, polls: nat, pops: nat, bytes: seq<u8>) {
    && (forall j | polls <= j <= polls + |bytes| :: world.status(j) == StaleStatus(|bytes|, j - polls))
    && (forall j | pops <= j < pops + |bytes| :: world.fifo(j) == bytes[j - pops])
  }

  /** The handler, entered for a read of as many bytes as are left over, takes them all, and DONE for its own. */
  lemma {:induction false} StaleBytes(h: Honest, world: World, b: Bus, job: Job, i: nat, d: Dev, bytes: seq<u8>)
    requires job.reading && i <= job.n == h.depth == |bytes| && 0 < job.n && Fits(job, b.ram)
    requires i <= b.regs.polls && i <= b.regs.pops && Leftovers(world, b.regs.polls - i, b.regs.pops - i, bytes)
    requires Finds(h, b.regs.log, d) && Complete(d) && d.fifo == bytes[i..]
    requires forall k | k > |b.regs.log| :: h.before(k) == []
    ensures IsrLoop(world, b, job, i).verdict == Some(Ok)
    ensures Seen(h, IsrLoop(world, b, job, i).bus.regs.log).Some?
    ensures forall k | i <= k < job.n :: IsrLoop(world, b, job, i).bus.ram[job.at + k] == bytes[k]
    decreases job.n - i
  {
    if i == job.n {
      StaleDone(h, world, b, job, d);
      IsrEnds(world, b, job, i);
    } else {
      var b' := Step(world, b, job, i);
      StaleByte(h, world, b, job, i, d);
      IsrAgain(world, b, job, i);
      StaleBytes(h, world, b', job, i + 1, d.(fifo := d.fifo[1..]), bytes);
      IsrBound(world, b', job, i + 1);
    }
  }

  /** The handler, entered for a write while the FIFO is full of bytes left over, takes DONE for its own at once. */
  lemma StaleFull(h: Honest, world: World, b: Bus, job: Job, d: Dev)
    requires !job.reading && Fits(job, b.ram)
    requires Finds(h, b.regs.log, d) && Complete(d) && |d.fifo| == h.depth > 0
    requires world.status(b.regs.polls) == StaleStatus(h.depth, 0)
    ensures IsrLoop(world, b, job, 0).verdict == Some(Ok) && Seen(h, IsrLoop(world, b, job, 0).bus.regs.log).Some?
  {
    IsrEnds(world, b, job, 0);
    FindsNext(h, b.regs.log, d, ReadS(world.status(b.regs.polls)), d);
  }

  // ----- Exactly when that can happen

  function NoEvents(k: nat): seq<DevEvent> {
    []
  }

  function Zeros(n: nat): (bytes: seq<u8>)
    ensures |bytes| == n
  {
    seq(n, _ => 0)
  }

  /** An earlier read of `n` bytes is done, and none of them has been taken out of the FIFO. */
  function Unread(c: Ctl, n: nat): Honest {
    Honest(n, Dev(c, 0, 0, Zeros(n), false, 0, true, false, false, [Txn(true, 0, Zeros(n))]), NoEvents)
  }

  function UnreadEnv(n: nat, ramSize: nat): Env {
    Env(World(k => StaleStatus(n, k), Never), NoRequests, Never, OnceInside, 1, ramSize)
  }

  function UnreadState(c: Ctl, ramSize: nat): Tr {
    Tr(Bus(Regs(c, 0, 0, 0, 0, 0, []), Zeros(ramSize)), Xfer(reading := c.intr, active := true), [None], [], 0)
  }

  lemma UnreadEntry(c: Ctl, reading: bool, at: nat, len: nat, n: nat)
    requires 0 < len && n == (if reading then len else 1)
    ensures var o := IsrLoop(UnreadEnv(n, at + len).world, UnreadState(c, at + len).bus, Job(reading, at, len), 0);
            o.verdict == Some(Ok) && Seen(Unread(c, n), o.bus.regs.log).Some?
  {
    var h, b, world := Unread(c, n), UnreadState(c, at + len).bus, UnreadEnv(n, at + len).world;
    assert Finds(h, b.regs.log, h.d0);
    if reading {
      assert Leftovers(world, 0, 0, Zeros(n));
      StaleBytes(h, world, b, Job(reading, at, len), 0, h.d0, Zeros(n));
    } else {
      StaleFull(h, world, b, Job(reading, at, len), h.d0);
    }
  }

  /** What the result of a synchronous transfer says is what has happened. */
  ghost predicate Truthful(h: Honest, e: Env, t: Tr, reading: bool, addr: u8, buf: Ptr, len: nat)
    requires Sound(e, t) && BufferOk(buf, len, e.ramSize) && !Rejected(addr, buf, len)
  {
    var Returned(t', r) := SyncTransfer(e, t, reading, addr, buf, len);
    exists i: nat :: Arrived(h, t'.bus, reading, addr, buf.addr, len, i, r)
  }

  /** ... against every honest controller, from every state with these control bits, wherever interrupts come. */
  ghost predicate AlwaysTruthful(c: Ctl, reading: bool, addr: u8, buf: Ptr, len: nat)
    requires !Rejected(addr, buf, len)
  {
    forall h: Honest, e: Env, t: Tr |
      Synced(h, t.bus.regs) && Sound(e, t) && t.bus.regs.c == c && BufferOk(buf, len, e.ramSize) ::
      Truthful(h, e, t, reading, addr, buf, len)
  }

  /** Delivery, exactly: the result of a synchronous transfer is true iff no interrupt is enabled when the call is made.
      Otherwise it can be Ok when nothing has been sent or received. */
  lemma SyncDeliversIff(c: Ctl, reading: bool, addr: u8, buf: Ptr, len: nat)
    requires !c.st && !c.clear && !Rejected(addr, buf, len)
    ensures AlwaysTruthful(c, reading, addr, buf, len) <==> !IntsOn(c)
  {
    if IntsOn(c) {
      NotTruthful(c, reading, addr, buf, len);
    } else {
      forall h: Honest, e: Env, t: Tr |
        Synced(h, t.bus.regs) && Sound(e, t) && t.bus.regs.c == c && BufferOk(buf, len, e.ramSize)
        ensures Truthful(h, e, t, reading, addr, buf, len)
      {
        var Returned(t', r) := SyncTransfer(e, t, reading, addr, buf, len);
        var i := IrqDelivers(h, e, t, reading, addr, buf, len, t', r);
      }
    }
  }

  lemma NotTruthful(c: Ctl, reading: bool, addr: u8, buf: Ptr, len: nat)
    requires !c.st && !c.clear && !Rejected(addr, buf, len) && IntsOn(c)
    ensures exists h: Honest, e: Env, t: Tr ::
              && Synced(h, t.bus.regs) && Sound(e, t) && t.bus.regs.c == c && BufferOk(buf, len, e.ramSize)
              && !Truthful(h, e, t, reading, addr, buf, len)
  {
    var n, ramSize := if reading then len else 1, buf.addr + len;
    var h, e, t := Unread(c, n), UnreadEnv(n, ramSize), UnreadState(c, ramSize);
    var o := IsrLoop(e.world, t.bus, Job(reading, buf.addr, len), 0);
    UnreadEntry(c, reading, buf.addr, len, n);
    StaleIsUntrue(h, e, t, reading, addr, buf, len, o);
  }

  lemma StaleIsUntrue(h: Honest, e: Env, t: Tr, reading: bool, addr: u8, buf: Ptr, len: nat, o: IsrOutcome)
    requires Sound(e, t) && BufferOk(buf, len, e.ramSize) && !Rejected(addr, buf, len)
    requires IntsOn(t.bus.regs.c) && OneEntry(e, |t.owners|) && Synced(h, t.bus.regs)
    requires e.arrivals(t.slot) == 0 && e.maxWaits > 0
    requires o == IsrLoop(e.world, t.bus, Job(reading, buf.addr, len), 0)
    requires o.verdict == Some(Ok) && Seen(h, o.bus.regs.log).Some?
    ensures !Truthful(h, e, t, reading, addr, buf, len)
  {
    var Returned(t', r) := SyncTransfer(e, t, reading, addr, buf, len);
    StaleOk(h, e, t, reading, addr, buf, len, o, t', r);
  }

  // ----- A run that comes to it

  /** The slave sends these bytes. */
  function Fetches(bytes: seq<u8>): seq<DevEvent> {
    seq(|bytes|, k requires 0 <= k < |bytes| => Fetch(bytes[k]))
  }

  lemma {:induction false} AllFetched(depth: nat, d: Dev, bytes: seq<u8>, d': Dev)
    requires d.ta && d.fifo == [] && |bytes| <= d.rem && |bytes| <= depth && d.wire != [] && Last(d).reading
    requires d' == Events(depth, d, Fetches(bytes))
    ensures d'.fifo == bytes && d'.rem == d.rem - |bytes| && d'.ta && d'.wire != [] && Last(d').reading
    ensures d'.done == d.done && d'.err == d.err && d'.clkt == d.clkt
    decreases |bytes|
  {
    if bytes != [] {
      var n := |bytes| - 1;
      assert Fetches(bytes)[..n] == Fetches(bytes[..n]) && Fetches(bytes)[n] == Fetch(bytes[n]);
      AllFetched(depth, d, bytes[..n], Events(depth, d, Fetches(bytes[..n])));
      assert bytes == bytes[..n] + [bytes[n]];
    }
  }

  lemma FetchedAndDone(depth: nat, d: Dev, bytes: seq<u8>, d': Dev)
    requires d.ta && d.fifo == [] && |bytes| == d.rem <= depth && d.wire != [] && Last(d).reading
    requires !d.err && !d.clkt && d' == Events(depth, d, Fetches(bytes) + [Finish])
    ensures d'.fifo == bytes && Complete(d')
  {
    AllFetched(depth, d, bytes, Events(depth, d, Fetches(bytes)));
    assert (Fetches(bytes) + [Finish])[..|bytes|] == Fetches(bytes);
  }

  /** An asynchronous read is started and the controller completes it; before its interrupt is taken the client makes a
      synchronous read of as many bytes from any slave, and the interrupt comes inside its `start`. The client gets Ok
      and the bytes of the first read in the buffer of the second, of which the slave has sent none. */
  lemma StaleRun(h: Honest, e: Env, t: Tr, q: Request, t1: Tr, addr: u8, buf: Ptr, bytes: seq<u8>, t': Tr, r: I2cResult)
    requires Initial(t) && Sound(e, t) && Synced(h, t.bus.regs) && Seen(h, t.bus.regs.log).Some?
    requires q.reading && q.len == |bytes| == h.depth <= 0xFFFF && Legal(e, Async(q)) && !Refused(t, q)
    requires BufferOk(buf, |bytes|, e.ramSize) && !Rejected(addr, buf, |bytes|)
    requires h.before(|t.bus.regs.log| + 17) == Fetches(bytes) + [Finish]
    requires forall k | k > |t.bus.regs.log| + 17 :: h.before(k) == []
    requires Leftovers(e.world, t.bus.regs.polls, t.bus.regs.pops, bytes)
    requires OneEntry(e, 1) && e.arrivals(t.slot) == 0 && e.maxWaits > 0
    requires t1 == Do(e, t, Async(q)) && SyncTransfer(e, t1, true, addr, buf, |bytes|) == Returned(t', r)
    ensures r == Ok && t'.bus.ram[buf.addr..buf.addr + |bytes|] == bytes
    ensures NothingOver(h, t'.bus.regs.log)
  {
    var job := Job(true, buf.addr, |bytes|);
    AsyncIsStart(e, t, q);
    var d := StartedFinds(h, t, q, bytes);
    StaleBytes(h, e.world, t1.bus, job, 0, d, bytes);
    StartSynced(h, t, q);
    StaleOk(h, e, t1, true, addr, buf, |bytes|, IsrLoop(e.world, t1.bus, job, 0), t', r);
  }

  lemma StartSynced(h: Honest, t: Tr, q: Request)
    requires Synced(h, t.bus.regs)
    ensures Synced(h, StartTransfer(t, q).bus.regs)
  {
    CallsSynced(h, t.bus.regs, StartCalls(q.addr, Job(q.reading, 0, q.len)));
  }

  lemma FreshFinds(h: Honest, log: seq<Op>, wire: seq<Txn>, addr: nat, job: Job, bytes: seq<u8>) returns (d: Dev)
    requires Seen(h, log).Some? && Fresh(Seen(h, log).value, wire, addr, job)
    requires job.reading && job.n == |bytes| == h.depth <= 0xFFFF && h.before(|log|) == Fetches(bytes) + [Finish]
    ensures Finds(h, log, d) && Complete(d) && d.fifo == bytes
  {
    d := Events(h.depth, Seen(h, log).value, h.before(|log|));
    FetchedAndDone(h.depth, Seen(h, log).value, bytes, d);
  }

  lemma StartedFinds(h: Honest, t: Tr, q: Request, bytes: seq<u8>) returns (d: Dev)
    requires Synced(h, t.bus.regs) && Seen(h, t.bus.regs.log).Some?
    requires q.reading && q.len == |bytes| == h.depth <= 0xFFFF
    requires h.before(|t.bus.regs.log| + 17) == Fetches(bytes) + [Finish]
    ensures var log := StartTransfer(t, q).bus.regs.log;
            Finds(h, log, d) && Complete(d) && d.fifo == bytes && |log| == |t.bus.regs.log| + 17
  {
    var job := Job(q.reading, 0, q.len);
    var wire := ArmedIsFresh(h, t.bus.regs, q.addr, job);
    ArmedAnswered(h, t.bus.regs, q.addr, job);
    d := FreshFinds(h, StartTransfer(t, q).bus.regs.log, wire, q.addr, job, bytes);
  }
}
