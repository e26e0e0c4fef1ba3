/** The polled transport (src/i2c/i2c_bus.cpp): prime, start, then look at S once per spin. */
module PolledTransport {
  import opened Common
  import opened Words
  import opened BscRegisters
  import opened Transfers
  import opened PolledLaws

  function PolledWriteRead(world: World, b: Bus, spins: nat, addr: u8, wbuf: Ptr, wlen: nat, rbuf: Ptr, rlen: nat)
    : (r: (Bus, I2cResult))
    requires BufferOk(wbuf, wlen, |b.ram|) && BufferOk(rbuf, rlen, |b.ram|)
  {
    var w := PolledTransfer(world, b, spins, false, addr, wbuf, wlen);
    if w.result != Ok then (w.bus, w.result)
    else
      TransferKeepsRam(world, b, spins, false, addr, wbuf, wlen);
      var r := PolledTransfer(world, w.bus, spins, true, addr, rbuf, rlen);
      (r.bus, r.result)
  }

  /** A loop writes at most the cells of its own read buffer that it advances over; a write changes no memory. */
  lemma {:induction false} LoopFrame(world: World, b: Bus, job: Job, i: nat, spins: nat)
    requires Fits(job, b.ram) && i <= job.n
    ensures var o := PolledLoop(world, b, job, i, spins);
            && |o.bus.ram| == |b.ram| && i <= o.i <= job.n
            && (!job.reading ==> o.bus.ram == b.ram)
            && forall k | 0 <= k < |b.ram| && !(job.at + i <= k < job.at + o.i) :: o.bus.ram[k] == b.ram[k]
    decreases spins
  {
    if spins > 0 && !Looking(world, b, job, i).Stop? {
      LoopFrame(world, Step(world, b, job, i), job, StepIndex(world, b, job, i), spins - 1);
    }
  }

  lemma TransferKeepsRam(world: World, b: Bus, spins: nat, reading: bool, addr: u8, buf: Ptr, len: nat)
    requires BufferOk(buf, len, |b.ram|)
    ensures var o := PolledTransfer(world, b, spins, reading, addr, buf, len);
            && |o.bus.ram| == |b.ram|
            && (!reading ==> o.bus.ram == b.ram)
            && forall k | 0 <= k < |b.ram| && !(buf.At? && buf.addr <= k < buf.addr + len) :: o.bus.ram[k] == b.ram[k]
  {
    if !Rejected(addr, buf, len) {
      var job := Job(reading, buf.addr, len);
      LoopFrame(world, b.(regs := Primed(b.regs, addr, job)), job, 0, spins);
    }
  }

  /** When the write phase fails the read phase never starts: no memory changes, and the transcript is the
      write's alone. */
  lemma FailedWriteStopsThere(world: World, b: Bus, spins: nat, addr: u8, wbuf: Ptr, wlen: nat, rbuf: Ptr, rlen: nat)
    requires BufferOk(wbuf, wlen, |b.ram|) && BufferOk(rbuf, rlen, |b.ram|)
    ensures var w := PolledTransfer(world, b, spins, false, addr, wbuf, wlen);
            w.result != Ok ==>
              PolledWriteRead(world, b, spins, addr, wbuf, wlen, rbuf, rlen) == (Bus(w.bus.regs, b.ram), w.result)
  {
    TransferKeepsRam(world, b, spins, false, addr, wbuf, wlen);
  }

  /** `read_reg`: the register number lives at `local` on the caller's stack while it is written. */
  function PolledReadReg(world: World, b: Bus, spins: nat, addr: u8, reg: u8, buf: Ptr, n: nat, local: nat)
    : (Bus, I2cResult)
    requires BufferOk(buf, n, |b.ram|) && local < |b.ram|
  {
    PolledWriteRead(world, b.(ram := b.ram[local := reg]), spins, addr, At(local), 1, buf, n)
  }

  function PolledWriteReg(world: World, b: Bus, spins: nat, addr: u8, reg: u8, value: u8, local: nat): Outcome
    requires local + 2 <= |b.ram|
  {
    PolledTransfer(world, b.(ram := b.ram[local := reg][local + 1 := value]), spins, false, addr, At(local), 2)
  }

  class Bcm2837I2cTransport {
    const i2c: I2c
    const ram: array<u8>
    const maxSpins: nat

    constructor (i2c: I2c, ram: array<u8>, maxSpins: nat)
      ensures this.i2c == i2c && this.ram == ram && this.maxSpins == maxSpins
    {
      this.i2c, this.ram, this.maxSpins := i2c, ram, maxSpins;
    }

    ghost function State(): Bus
      reads i2c, ram
    {
      Bus(i2c.State(), ram[..])
    }

    method Prime(addr: u8, len: nat)
      modifies i2c
      ensures i2c.State() == SetLength(SetAddress(ClearFlags(ClearFifo(old(i2c.State()))), addr), len)
    {
      i2c.ClearTheFifo();
      i2c.ClrStatusBit(DONE);
      i2c.ClrStatusBit(ERR);
      i2c.ClrStatusBit(CLKT_TO);
      i2c.SlaveAddress(addr);
      i2c.DataLength(len);
    }

    static function Classify(s: Word): I2cResult {
      if s[8] then Nack else if s[9] then ClockTimeout else Ok
    }

    method Write(addr: u8, buf: Ptr, len: nat) returns (r: I2cResult)
      requires BufferOk(buf, len, ram.Length)
      modifies i2c
      ensures var o := PolledTransfer(i2c.world, old(State()), maxSpins, false, addr, buf, len);
              State() == o.bus && r == o.result
    {
      if buf == Null || len == 0 || addr > ADDR_MAX {
        return BadArg;
      }
      Prime(addr, len);
      i2c.StartWrite();
      r := Feed(buf.addr, len);
    }

    /** The spin loop of `write`. */
    method Feed(at: nat, len: nat) returns (r: I2cResult)
      requires at + len <= ram.Length
      modifies i2c
      ensures var o := PolledLoop(i2c.world, old(State()), Job(false, at, len), 0, maxSpins);
              State() == o.bus && r == o.result
    {
      var i := 0;
      ghost var job := Job(false, at, len);
      ghost var whole := PolledLoop(i2c.world, State(), job, 0, maxSpins);
      ghost var left := maxSpins;
      for spin := 0 to maxSpins
        invariant i <= len
        invariant left == maxSpins - spin && PolledLoop(i2c.world, State(), job, i, left) == whole
      {
        ghost var before := State();
        var s := i2c.ReadStatus();
        if Looking(i2c.world, before, job, i).Stop? { PolledStops(i2c.world, before, job, i, left); }
        if s[8] { return Nack; }
        if s[9] { return ClockTimeout; }
        if s[4] && i < len {
          i2c.WriteByte(ram[at + i]);
          i := i + 1;
          PolledAgain(i2c.world, before, job, i - 1, left, State(), i);
          left := left - 1;
          continue;
        }
        if s[1] {
          return Classify(s);
        }
        PolledAgain(i2c.world, before, job, i, left, State(), i);
        left := left - 1;
      }
      return Timeout;
    }

    method Read(addr: u8, buf: Ptr, len: nat) returns (r: I2cResult)
      requires BufferOk(buf, len, ram.Length)
      modifies i2c, ram
      ensures var o := PolledTransfer(i2c.world, old(State()), maxSpins, true, addr, buf, len);
              State() == o.bus && r == o.result
    {
      if buf == Null || len == 0 || addr > ADDR_MAX {
        return BadArg;
      }
      Prime(addr, len);
      i2c.StartRead();
      r := Drain(buf.addr, len);
    }

    /** The spin loop of `read`: drain the FIFO before honouring DONE. */
    method Drain(at: nat, len: nat) returns (r: I2cResult)
      requires at + len <= ram.Length
      modifies i2c, ram
      ensures var o := PolledLoop(i2c.world, old(State()), Job(true, at, len), 0, maxSpins);
              State() == o.bus && r == o.result
    {
      var i := 0;
      ghost var job := Job(true, at, len);
      ghost var whole := PolledLoop(i2c.world, State(), job, 0, maxSpins);
      ghost var left := maxSpins;
      for spin := 0 to maxSpins
        invariant i <= len
        invariant left == maxSpins - spin && PolledLoop(i2c.world, State(), job, i, left) == whole
      {
        ghost var before := State();
        var s := i2c.ReadStatus();
        if Looking(i2c.world, before, job, i).Stop? { PolledStops(i2c.world, before, job, i, left); }
        if s[8] { return Nack; }
        if s[9] { return ClockTimeout; }
        if s[5] && i < len {
          var b := i2c.ReadByte();
          ram[at + i] := b;
          i := i + 1;
          PolledAgain(i2c.world, before, job, i - 1, left, State(), i);
          left := left - 1;
          continue;
        }
        if s[1] {
          return if i < len then Timeout else Classify(s);
        }
        PolledAgain(i2c.world, before, job, i, left, State(), i);
        left := left - 1;
      }
      return Timeout;
    }

    method WriteRead(addr: u8, wbuf: Ptr, wlen: nat, rbuf: Ptr, rlen: nat) returns (r: I2cResult)
      requires BufferOk(wbuf, wlen, ram.Length) && BufferOk(rbuf, rlen, ram.Length)
      modifies i2c, ram
      ensures (State(), r) == PolledWriteRead(i2c.world, old(State()), maxSpins, addr, wbuf, wlen, rbuf, rlen)
    {
      r := Write(addr, wbuf, wlen);
      if r != Ok {
        return;
      }
      r := Read(addr, rbuf, rlen);
    }

    /** `local` is where the caller's stack keeps the register number while it is written. */
    method ReadReg(addr: u8, reg: u8, buf: Ptr, n: nat, local: nat) returns (r: I2cResult)
      requires BufferOk(buf, n, ram.Length) && local < ram.Length
      modifies i2c, ram
      ensures (State(), r)
           == PolledReadReg(i2c.world, old(State()), maxSpins, addr, reg, buf, n, local)
    {
      ram[local] := reg;
      r := WriteRead(addr, At(local), 1, buf, n);
    }

    method WriteReg(addr: u8, reg: u8, value: u8, local: nat) returns (r: I2cResult)
      requires local + 2 <= ram.Length
      modifies i2c, ram
      ensures var o := PolledWriteReg(i2c.world, old(State()), maxSpins, addr, reg, value, local);
              State() == o.bus && r == o.result
    {
      ram[local] := reg;
      ram[local + 1] := value;
      assert ram[..] == old(ram[..])[local := reg][local + 1 := value];
      r := Write(addr, At(local), 2);
    }
  }
}
