/** Which calls are answered with BadArg: exactly those with a null buffer, no bytes, or an address above 0x7F. */
module Arguments {
  import opened Common
  import opened BscRegisters
  import opened Transfers
  import opened IrqTransfers
  import opened IrqStarts
  import opened IrqRuns
  import opened IrqBooks
  import opened StatusWords

  /** A polled call is answered so iff its arguments are bad; then nothing at all has happened. */
  lemma PolledBadArgIff(world: World, b: Bus, spins: nat, reading: bool, addr: u8, buf: Ptr, len: nat)
    requires BufferOk(buf, len, |b.ram|)
    ensures var o := PolledTransfer(world, b, spins, reading, addr, buf, len);
            && (o.result == BadArg <==> !(buf.At? && 0 < len && addr < 0x80))
            && (o.result == BadArg ==> o.bus == b)
  {
    if buf.At? && 0 < len && addr < 0x80 {
      PolledTransferWords(world, b, spins, reading, addr, buf, len);
    }
  }

  lemma HandleIrqResult(e: Env, t: Tr)
    requires Sound(e, t) && t.x.cb.None? && t.x.result != BadArg
    ensures HandleIrq(e, t).x.cb.None? && HandleIrq(e, t).x.result != BadArg
  {
    IsrWords(e.world, t.bus, JobOf(t.x), IndexOf(t.x));
    match IsrLoop(e.world, t.bus, JobOf(t.x), IndexOf(t.x)).verdict
    case None =>
    case Some(r) => FinalizeIs(e, Pumped(e, t), r);
  }

  lemma {:induction false} DeliverResult(e: Env, t: Tr, n: nat)
    requires Sound(e, t) && t.x.cb.None? && t.x.result != BadArg
    ensures Deliver(e, t, n).x.cb.None? && Deliver(e, t, n).x.result != BadArg
    decreases n
  {
    if n > 0 && IntsOn(t.bus.regs.c) {
      HandleIrqResult(e, t);
      DeliverResult(e, HandleIrq(e, t), n - 1);
    }
  }

  lemma {:induction false} PrologueResult(e: Env, t: Tr, q: Request, n: nat)
    requires Sound(e, t) && BufferOk(q.buf, q.len, e.ramSize) && !q.buf.Null? && 0 < n <= STEPS && q.cb.None?
    ensures Prologue(e, t, q, n).x.cb.None? && Prologue(e, t, q, n).x.result != BadArg
    decreases n
  {
    var p := StartStep(Prologue(e, t, q, n - 1), q, n - 1);
    if n > 1 { PrologueResult(e, t, q, n - 1); }
    PrologueNext(e, t, q, n, p);
    DeliverResult(e, p, e.inside(|t.owners|, n - 1));
  }

  lemma {:induction false} WaitResult(e: Env, t: Tr, checks: nat)
    requires Sound(e, t) && t.x.cb.None? && t.x.result != BadArg
    ensures WaitLoop(e, t, checks).r != BadArg
    decreases checks
  {
    if checks > 0 && !t.x.done {
      DeliverResult(e, t.(slot := t.slot + 1), e.arrivals(t.slot));
      WaitResult(e, NextSlot(e, t), checks - 1);
    }
  }

  lemma SyncResult(e: Env, t: Tr, q: Request)
    requires Sound(e, t) && BufferOk(q.buf, q.len, e.ramSize) && !q.buf.Null? && q.cb.None?
    ensures WaitLoop(e, NextSlot(e, Begun(e, t, q)), e.maxWaits).r != BadArg
  {
    var b := Begun(e, t, q);
    PrologueResult(e, t, q, STEPS);
    DeliverResult(e, b.(slot := b.slot + 1), e.arrivals(b.slot));
    WaitResult(e, NextSlot(e, b), e.maxWaits);
  }

  /** The same for a synchronous interrupt-driven call, whatever it displaces and wherever interrupts come. */
  lemma SyncBadArgIff(e: Env, t: Tr, reading: bool, addr: u8, buf: Ptr, len: nat, t': Tr, r: I2cResult)
    requires Sound(e, t) && BufferOk(buf, len, e.ramSize)
    requires SyncTransfer(e, t, reading, addr, buf, len) == Returned(t', r)
    ensures r == BadArg <==> !(buf.At? && 0 < len && addr < 0x80)
    ensures r == BadArg ==> t' == t
  {
    if buf.At? && 0 < len && addr < 0x80 { SyncResult(e, t, Request(reading, addr, buf, len, None)); }
  }

  /** An asynchronous one is refused, with nothing changed, for such arguments or while a transfer is in flight, and is
      started otherwise. */
  lemma AsyncRefusedIff(e: Env, t: Tr, q: Request)
    requires Sound(e, t) && BufferOk(q.buf, q.len, e.ramSize)
    ensures Refused(t, q) <==> !(q.buf.At? && 0 < q.len && q.addr < 0x80) || t.x.active
    ensures Refused(t, q) ==> AsyncTransfer(e, t, q) == t
    ensures !Refused(t, q) ==> |AsyncTransfer(e, t, q).owners| > |t.owners|
  {
    if !Refused(t, q) { BegunGrows(e, t, q); }
  }
}
