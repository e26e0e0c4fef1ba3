/** The interrupt-driven transport (src/i2c/i2c_irq.cpp), against the state functions of IrqTransfers. */
module IrqTransport {
  import opened Common
  import opened Words
  import opened BscRegisters
  import opened Transfers
  import opened IrqTransfers
  import opened IrqLaws
  import opened IrqStarts

  class Bcm2837I2cIrqTransport {
    const i2c: I2c
    const ram: array<u8>
    const client: (nat, I2cResult) -> seq<Request>
    const arrivals: nat -> nat
    const inside: (nat, nat) -> nat
    const maxWaits: nat
    var xfer: Xfer
    var starts: nat
    var masked: bool
    ghost var owners: seq<Option<nat>>
    ghost var history: seq<Event>
    var slot: nat

    constructor (i2c: I2c, ram: array<u8>, client: (nat, I2cResult) -> seq<Request>, arrivals: nat -> nat,
                 inside: (nat, nat) -> nat, maxWaits: nat)
      ensures this.i2c == i2c && this.ram == ram && this.client == client
      ensures this.arrivals == arrivals && this.inside == inside && this.maxWaits == maxWaits
      ensures xfer == Xfer() && owners == [] && history == [] && starts == 0 && !masked
    {
      this.i2c, this.ram, this.client, this.arrivals, this.inside := i2c, ram, client, arrivals, inside;
      this.maxWaits := maxWaits;
      xfer := Xfer();
      owners, history, slot, starts, masked := [], [], 0, 0, false;
    }

    ghost function Setting(): Env {
      Env(i2c.world, client, arrivals, inside, maxWaits, ram.Length)
    }

    ghost function State(): Tr
      reads this, i2c, ram
    {
      Tr(Bus(i2c.State(), ram[..]), xfer, owners, history, slot)
    }

    ghost predicate Valid()
      reads this, i2c, ram
    {
      Sound(Setting(), State()) && starts == |owners|
    }

    method ClearStatus()
      modifies i2c
      ensures i2c.State() == ClearFlags(old(i2c.State()))
    {
      i2c.ClrStatusBit(DONE);
      i2c.ClrStatusBit(ERR);
      i2c.ClrStatusBit(CLKT_TO);
    }

    method InterruptsOff()
      modifies i2c
      ensures i2c.State() == IntsOff(old(i2c.State()))
    {
      IntsOffIs(i2c.State());
      i2c.ClrControlField(INTD);
      i2c.ClrControlField(INTT);
      i2c.ClrControlField(INTR);
    }

    /** `start` from the first interrupt enable on. */
    method Launch(reading: bool)
      modifies i2c
      ensures i2c.State() == AllCalled(old(i2c.State()), LaunchCalls(reading))
    {
      TransferIs(i2c.State(), reading);
      NextCall(i2c.State(), TransferCalls(reading), Fenced);
      if reading {
        i2c.SetControlField(INTR, One());
        i2c.SetControlField(INTD, One());
        i2c.StartRead();
      } else {
        i2c.SetControlField(INTT, One());
        i2c.SetControlField(INTD, One());
        i2c.StartWrite();
      }
    }

    /** Interrupts that arrive after step `k` of the start under way are taken, unless they are masked. */
    method Preempt(id: nat, k: nat)
      requires Valid()
      modifies this, i2c, ram
      ensures Valid() && masked == old(masked)
      ensures masked ==> State() == old(State())
      ensures !masked ==> State() == Deliver(Setting(), old(State()), inside(id, k))
      decreases if masked then 0 else 1, 5, 0
    {
      if !masked {
        TakeInterrupts(inside(id, k));
      }
    }

    /** `start` after `k` steps. */
    ghost function Midway(t: Tr, q: Request, k: nat): Tr
      reads this, i2c, ram
      requires Sound(Setting(), t) && BufferOk(q.buf, q.len, ram.Length) && !q.buf.Null? && k <= STEPS
    {
      if masked then Plain(t, q, k) else Prologue(Setting(), t, q, k)
    }

    /** A step of `start`, and the interrupts after it. */
    method Passed(ghost t: Tr, ghost q: Request, k: nat, id: nat)
      requires Sound(Setting(), t) && BufferOk(q.buf, q.len, ram.Length) && !q.buf.Null?
      requires k < STEPS && id == |t.owners|
      requires Valid() && State() == StartStep(Midway(t, q, k), q, k)
      modifies this, i2c, ram
      ensures Valid() && masked == old(masked) && State() == Midway(t, q, k + 1)
      decreases if masked then 0 else 1, 6, 0
    {
      if !masked { PrologueNext(Setting(), t, q, k + 1, State()); }
      Preempt(id, k);
    }

    method Start(addr: u8, tx: Ptr, tn: nat, rx: Ptr, rn: nat, reading: bool, cb: Option<nat>) returns (r: I2cResult)
      requires Valid() && BufferOk(tx, tn, ram.Length) && BufferOk(rx, rn, ram.Length)
      requires if reading then tx == Null && tn == 0 && rx != Null else rx == Null && rn == 0 && tx != Null
      modifies this, i2c, ram
      ensures r == Ok && Valid() && masked == old(masked)
      ensures var q := Request(reading, addr, if reading then rx else tx, if reading then rn else tn, cb);
              State() == if masked then StartTransfer(old(State()), q) else Begun(Setting(), old(State()), q)
      decreases if masked then 0 else 1, 7, 0
    {
      ghost var q := Request(reading, addr, if reading then rx else tx, if reading then rn else tn, cb);
      ghost var t := State();
      var id := starts;
      FillIn(t, q, id, tx, tn, rx, rn, reading, cb);
      Prepare(t, q, id, addr, if reading then rn else tn);
      if masked { LaunchedIsStart(t, q); }
      Launch(reading);
      return Ok;
    }

    /** The record, but for `active`. */
    method FillIn(ghost t: Tr, ghost q: Request, id: nat, tx: Ptr, tn: nat, rx: Ptr, rn: nat, reading: bool,
                  cb: Option<nat>)
      requires Sound(Setting(), t) && BufferOk(q.buf, q.len, ram.Length) && !q.buf.Null? && id == |t.owners|
      requires tx == (if q.reading then Null else q.buf) && tn == (if q.reading then 0 else q.len)
      requires rx == (if q.reading then q.buf else Null) && rn == (if q.reading then q.len else 0)
      requires reading == q.reading && cb == q.cb
      requires Valid() && State() == Midway(t, q, 0)
      modifies this, i2c, ram
      ensures Valid() && masked == old(masked) && State() == Midway(t, q, 5)
      decreases if masked then 0 else 1, 6, 2
    {
      Reset(t, q, id, cb);
      SetBuffers(t, q, id, tx, tn, rx, rn);
      SetRest(t, q, id, reading, cb);
    }

    /** Everything before the first interrupt enable. */
    method Prepare(ghost t: Tr, ghost q: Request, id: nat, addr: u8, len: nat)
      requires Sound(Setting(), t) && BufferOk(q.buf, q.len, ram.Length) && !q.buf.Null? && id == |t.owners|
      requires addr == q.addr && len == q.len
      requires Valid() && State() == Midway(t, q, 5)
      modifies this, i2c, ram
      ensures Valid() && masked == old(masked) && State() == Midway(t, q, STEPS)
      decreases if masked then 0 else 1, 6, 2
    {
      Activate(t, q, id);
      ClearOld(t, q, id);
      SetAddr(t, q, id, addr);
      SetSize(t, q, id, len);
    }

    /** A blank record. */
    method Reset(ghost t: Tr, ghost q: Request, id: nat, cb: Option<nat>)
      requires Sound(Setting(), t) && BufferOk(q.buf, q.len, ram.Length) && !q.buf.Null? && id == |t.owners|
      requires cb == q.cb
      requires Valid() && State() == Midway(t, q, 0)
      modifies this, i2c, ram
      ensures Valid() && masked == old(masked) && State() == Midway(t, q, 1)
      decreases if masked then 0 else 1, 6, 1
    {
      xfer := Xfer();
      owners, starts := owners + [cb], starts + 1;
      Passed(t, q, 0, id);
    }

    /** The two buffers, one of them null. */
    method SetBuffers(ghost t: Tr, ghost q: Request, id: nat, tx: Ptr, tn: nat, rx: Ptr, rn: nat)
      requires Sound(Setting(), t) && BufferOk(q.buf, q.len, ram.Length) && !q.buf.Null? && id == |t.owners|
      requires tx == (if q.reading then Null else q.buf) && tn == (if q.reading then 0 else q.len)
      requires rx == (if q.reading then q.buf else Null) && rn == (if q.reading then q.len else 0)
      requires Valid() && State() == Midway(t, q, 1)
      modifies this, i2c, ram
      ensures Valid() && masked == old(masked) && State() == Midway(t, q, 3)
      decreases if masked then 0 else 1, 6, 1
    {
      xfer := xfer.(tx := tx, tn := tn);
      Passed(t, q, 1, id);
      xfer := xfer.(rx := rx, rn := rn);
      Passed(t, q, 2, id);
    }

    /** The direction and the callback. */
    method SetRest(ghost t: Tr, ghost q: Request, id: nat, reading: bool, cb: Option<nat>)
      requires Sound(Setting(), t) && BufferOk(q.buf, q.len, ram.Length) && !q.buf.Null? && id == |t.owners|
      requires reading == q.reading && cb == q.cb
      requires Valid() && State() == Midway(t, q, 3)
      modifies this, i2c, ram
      ensures Valid() && masked == old(masked) && State() == Midway(t, q, 5)
      decreases if masked then 0 else 1, 6, 1
    {
      xfer := xfer.(reading := reading);
      Passed(t, q, 3, id);
      xfer := xfer.(cb := cb);
      Passed(t, q, 4, id);
    }

    /** From here on the transfer is in flight; the FIFO of the last one. */
    method Activate(ghost t: Tr, ghost q: Request, id: nat)
      requires Sound(Setting(), t) && BufferOk(q.buf, q.len, ram.Length) && !q.buf.Null? && id == |t.owners|
      requires Valid() && State() == Midway(t, q, 5)
      modifies this, i2c, ram
      ensures Valid() && masked == old(masked) && State() == Midway(t, q, 7)
      decreases if masked then 0 else 1, 6, 1
    {
      xfer := xfer.(active := true);
      Passed(t, q, 5, id);
      i2c.ClearTheFifo();
      Passed(t, q, 6, id);
    }

    /** The first two flags of the last one. */
    method ClearOld(ghost t: Tr, ghost q: Request, id: nat)
      requires Sound(Setting(), t) && BufferOk(q.buf, q.len, ram.Length) && !q.buf.Null? && id == |t.owners|
      requires Valid() && State() == Midway(t, q, 7)
      modifies this, i2c, ram
      ensures Valid() && masked == old(masked) && State() == Midway(t, q, 9)
      decreases if masked then 0 else 1, 6, 1
    {
      i2c.ClrStatusBit(DONE);
      Passed(t, q, 7, id);
      i2c.ClrStatusBit(ERR);
      Passed(t, q, 8, id);
    }

    /** The third, and the address. */
    method SetAddr(ghost t: Tr, ghost q: Request, id: nat, addr: u8)
      requires Sound(Setting(), t) && BufferOk(q.buf, q.len, ram.Length) && !q.buf.Null? && id == |t.owners|
      requires addr == q.addr
      requires Valid() && State() == Midway(t, q, 9)
      modifies this, i2c, ram
      ensures Valid() && masked == old(masked) && State() == Midway(t, q, 11)
      decreases if masked then 0 else 1, 6, 1
    {
      i2c.ClrStatusBit(CLKT_TO);
      Passed(t, q, 9, id);
      i2c.SlaveAddress(addr);
      Passed(t, q, 10, id);
    }

    /** The length. */
    method SetSize(ghost t: Tr, ghost q: Request, id: nat, len: nat)
      requires Sound(Setting(), t) && BufferOk(q.buf, q.len, ram.Length) && !q.buf.Null? && id == |t.owners|
      requires len == q.len
      requires Valid() && State() == Midway(t, q, 11)
      modifies this, i2c, ram
      ensures Valid() && masked == old(masked) && State() == Midway(t, q, STEPS)
      decreases if masked then 0 else 1, 6, 1
    {
      i2c.DataLength(len);
      Passed(t, q, 11, id);
    }

    /** The handler runs with interrupts masked. */
    method HandleIrq()
      requires Valid() && masked
      modifies this, i2c, ram
      ensures Valid() && masked && State() == IrqTransfers.HandleIrq(Setting(), old(State()))
      decreases 0, 11, 0
    {
      var verdict := MoveBytes();
      match verdict
      case None =>
      case Some(r) => Finalize(r);
    }

    /** One turn of the handler's loop. */
    method Turn() returns (d: Decision)
      requires XferOk(xfer, ram.Length)
      modifies this`xfer, i2c, ram
      ensures XferOk(xfer, ram.Length)
      ensures var b, job, i := old(State().bus), JobOf(old(xfer)), IndexOf(old(xfer));
              && d == Looking(i2c.world, b, job, i)
              && State().bus == Step(i2c.world, b, job, i)
              && xfer == WithIndex(old(xfer), StepIndex(i2c.world, b, job, i))
    {
      var s := i2c.ReadStatus();
      if s[8] { return Stop(Nack); }
      if s[9] { return Stop(ClockTimeout); }

      if xfer.reading {
        if s[5] && xfer.ri < xfer.rn {
          var b := i2c.ReadByte();
          ram[xfer.rx.addr + xfer.ri] := b;
          xfer := xfer.(ri := xfer.ri + 1);
          return Move;
        }
      } else {
        if s[4] && xfer.ti < xfer.tn {
          i2c.WriteByte(ram[xfer.tx.addr + xfer.ti]);
          xfer := xfer.(ti := xfer.ti + 1);
          return Move;
        }
      }

      if s[1] {
        var ok := if xfer.reading then xfer.ri == xfer.rn else true;
        return Stop(if ok then Ok else Timeout);
      }
      return Idle;  // nothing to move and not done: wait for the next interrupt
    }

    /** The handler's loop: it goes on as long as bytes move. */
    method MoveBytes() returns (verdict: Option<I2cResult>)
      requires Valid()
      modifies this`xfer, i2c, ram
      ensures Valid() && State() == Pumped(Setting(), old(State()))
      ensures verdict
           == IsrLoop(i2c.world, old(State()).bus, JobOf(old(xfer)), IndexOf(old(xfer))).verdict
    {
      ghost var job := JobOf(xfer);
      ghost var whole := IsrLoop(i2c.world, State().bus, job, IndexOf(xfer));
      while true
        invariant XferOk(xfer, ram.Length) && xfer == WithIndex(old(xfer), IndexOf(xfer))
        invariant IsrLoop(i2c.world, State().bus, job, IndexOf(xfer)) == whole
        decreases job.n - IndexOf(xfer)
      {
        ghost var b, i := State().bus, IndexOf(xfer);
        var d := Turn();
        match d
        case Move =>
          IsrAgain(i2c.world, b, job, i);
        case Stop(r) =>
          IsrEnds(i2c.world, b, job, i);
          return Some(r);
        case Idle =>
          IsrEnds(i2c.world, b, job, i);
          return None;
      }
    }

    method Finalize(r: I2cResult)
      requires Valid() && masked
      modifies this, i2c, ram
      ensures Valid() && masked && State() == IrqTransfers.Finalize(Setting(), old(State()), r)
      decreases 0, 10, 0
    {
      SettleTransfer(r);
      ghost var settled := State();
      assert settled == Settle(old(State()), r);
      if xfer.cb != None {
        var token := xfer.cb.value;
        ReleaseCallback(r);
        CallBack(token, r);
      }
    }

    /** The callback is taken out of the record before it is called. */
    method ReleaseCallback(r: I2cResult)
      requires xfer.cb != None
      modifies this`xfer, this`history
      ensures State()
           == old(State()).(x := old(xfer).(cb := None),
              history := old(history) + [Fired(|owners| - 1, old(xfer).cb.value, r)])
    {
      history := history + [Fired(|owners| - 1, xfer.cb.value, r)];
      xfer := xfer.(cb := None);
    }

    /** `finalize` up to the callback. */
    method SettleTransfer(r: I2cResult)
      modifies this`xfer, this`history, i2c
      ensures State() == Settle(old(State()), r)
    {
      SilencedIs(i2c.State());
      ClearStatus();
      InterruptsOff();
      history := history + [Finished(Charged(State()), r)];
      xfer := xfer.(result := r);
      xfer := xfer.(done := true);
      xfer := xfer.(active := false);
    }

    /** The client's callback: it starts the transfers it has in mind, one after the other. */
    method CallBack(token: nat, r: I2cResult)
      requires Valid() && masked
      modifies this, i2c, ram
      ensures Valid() && masked && State() == Issue(old(State()), client(token, r))
      decreases 0, 9, 0
    {
      var qs := client(token, r);
      ghost var whole := Issue(State(), qs);
      for k := 0 to |qs|
        invariant Valid() && masked && Issue(State(), qs[k..]) == whole
      {
        var q := qs[k];
        if q.reading {
          var _ := ReadAsync(q.addr, q.buf, q.len, q.cb);
        } else {
          var _ := WriteAsync(q.addr, q.buf, q.len, q.cb);
        }
        assert qs[k..][1..] == qs[k + 1..];
      }
    }

    method AbortTransfer()
      requires Valid()
      modifies this`xfer, i2c
      ensures Valid() && State() == Abort(old(State()))
    {
      InterruptsOff();
      i2c.ClearTheFifo();
      ClearStatus();
      xfer := xfer.(active := false);
    }

    /** Blocks until interrupts arrive; any number of them may. */
    method WaitForIrq()
      requires Valid() && !masked
      modifies this, i2c, ram
      ensures Valid() && !masked && State() == NextSlot(Setting(), old(State()))
    {
      slot := slot + 1;
      TakeInterrupts(arrivals(slot - 1));
    }

    /** Taking an interrupt masks further ones until the handler returns. */
    method TakeInterrupts(n: nat)
      requires Valid() && !masked
      modifies this, i2c, ram
      ensures Valid() && !masked && State() == Deliver(Setting(), old(State()), n)
      decreases 1, 4, n
    {
      if n > 0 && IntsOn(Decode(i2c.c)) {
        masked := true;
        HandleIrq();
        masked := false;
        TakeInterrupts(n - 1);
      }
    }

    method WaitComplete() returns (r: I2cResult)
      requires Valid() && !masked
      modifies this, i2c, ram
      ensures Valid() && !masked && Returned(State(), r) == WaitLoop(Setting(), old(State()), maxWaits)
    {
      ghost var whole := WaitLoop(Setting(), State(), maxWaits);
      for i := 0 to maxWaits
        invariant Valid() && !masked && WaitLoop(Setting(), State(), maxWaits - i) == whole
      {
        if xfer.done {
          return xfer.result;
        }
        WaitForIrq();
      }
      AbortTransfer();
      return Timeout;
    }

    method Write(addr: u8, buf: Ptr, len: nat) returns (r: I2cResult)
      requires Valid() && !masked && BufferOk(buf, len, ram.Length)
      modifies this, i2c, ram
      ensures Valid() && !masked && Returned(State(), r) == SyncTransfer(Setting(), old(State()), false, addr, buf, len)
    {
      if buf == Null || len == 0 || addr > ADDR_MAX {
        return BadArg;
      }
      var _ := Start(addr, buf, len, Null, 0, false, None);
      WaitForIrq();  // interrupts may arrive before the first look at `done`
      r := WaitComplete();
    }

    method Read(addr: u8, buf: Ptr, len: nat) returns (r: I2cResult)
      requires Valid() && !masked && BufferOk(buf, len, ram.Length)
      modifies this, i2c, ram
      ensures Valid() && !masked && Returned(State(), r) == SyncTransfer(Setting(), old(State()), true, addr, buf, len)
    {
      if buf == Null || len == 0 || addr > ADDR_MAX {
        return BadArg;
      }
      var _ := Start(addr, Null, 0, buf, len, true, None);
      WaitForIrq();  // interrupts may arrive before the first look at `done`
      r := WaitComplete();
    }

    method WriteRead(addr: u8, wbuf: Ptr, wlen: nat, rbuf: Ptr, rlen: nat) returns (r: I2cResult)
      requires Valid() && !masked && BufferOk(wbuf, wlen, ram.Length) && BufferOk(rbuf, rlen, ram.Length)
      modifies this, i2c, ram
      ensures Valid() && !masked
      ensures Returned(State(), r) == SyncWriteRead(Setting(), old(State()), addr, wbuf, wlen, rbuf, rlen)
    {
      r := Write(addr, wbuf, wlen);
      if r != Ok {
        return;
      }
      r := Read(addr, rbuf, rlen);
    }

    method WriteAsync(addr: u8, buf: Ptr, len: nat, cb: Option<nat>) returns (r: I2cResult)
      requires Valid() && BufferOk(buf, len, ram.Length)
      modifies this, i2c, ram
      ensures Valid() && masked == old(masked)
      ensures var q := Request(false, addr, buf, len, cb);
              && State() == (if masked then StartAsync(old(State()), q) else AsyncTransfer(Setting(), old(State()), q))
              && r == if Refused(old(State()), q) then BadArg else Ok
      decreases if masked then 0 else 1, 8, 0
    {
      if buf == Null || len == 0 || addr > ADDR_MAX || xfer.active {
        return BadArg;
      }
      r := Start(addr, buf, len, Null, 0, false, cb);
    }

    method ReadAsync(addr: u8, buf: Ptr, len: nat, cb: Option<nat>) returns (r: I2cResult)
      requires Valid() && BufferOk(buf, len, ram.Length)
      modifies this, i2c, ram
      ensures Valid() && masked == old(masked)
      ensures var q := Request(true, addr, buf, len, cb);
              && State() == (if masked then StartAsync(old(State()), q) else AsyncTransfer(Setting(), old(State()), q))
              && r == if Refused(old(State()), q) then BadArg else Ok
      decreases if masked then 0 else 1, 8, 0
    {
      if buf == Null || len == 0 || addr > ADDR_MAX || xfer.active {
        return BadArg;
      }
      r := Start(addr, Null, 0, buf, len, true, cb);
    }

    /** `local` is where the caller's stack keeps the register number while it is written. */
    method ReadReg(addr: u8, reg: u8, buf: Ptr, n: nat, local: nat) returns (r: I2cResult)
      requires Valid() && !masked && BufferOk(buf, n, ram.Length) && local < ram.Length
      modifies this, i2c, ram
      ensures !masked && Returned(State(), r) == SyncReadReg(Setting(), old(State()), addr, reg, buf, n, local)
    {
      ram[local] := reg;
      r := WriteRead(addr, At(local), 1, buf, n);
    }

    method WriteReg(addr: u8, reg: u8, value: u8, local: nat) returns (r: I2cResult)
      requires Valid() && !masked && local + 2 <= ram.Length
      modifies this, i2c, ram
      ensures Valid() && !masked
      ensures Returned(State(), r) == SyncWriteReg(Setting(), old(State()), addr, reg, value, local)
    {
      ram[local] := reg;
      ram[local + 1] := value;
      assert ram[..] == old(ram[..])[local := reg][local + 1 := value];
      r := Write(addr, At(local), 2);
    }
  }
}
