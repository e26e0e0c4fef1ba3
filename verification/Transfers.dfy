/**
 The byte pump both I2C transports share, and what the polled transport makes of it.

 A transport looks at one status word at a time and decides, ERR before CLKT before data before DONE, to move one
 byte, to stop with a verdict, or to look again. `Advance` follows that for a given number of words; `DecidesAt` says
 which word carries the verdict. The polled loop (src/i2c/i2c_bus.cpp) and the interrupt handler
 (src/i2c/i2c_irq.cpp) are both proved against these.
 */
module Transfers {
  import opened Common
  import opened Words
  import opened BscRegisters

  datatype I2cResult = Ok | BadArg | Timeout | Nack | ClockTimeout

  const ADDR_MAX: nat := 0x7F

  /** The registers and the memory the callers' buffers live in. */
  datatype Bus = Bus(regs: Regs, ram: seq<u8>)

  /** A transfer as the pump sees it: direction, buffer address, number of bytes. */
  datatype Job = Job(reading: bool, at: nat, n: nat)

  predicate Fits(job: Job, ram: seq<u8>) {
    job.n > 0 ==> job.at + job.n <= |ram|
  }

  datatype Decision = Move | Idle | Stop(r: I2cResult)

  /** What a transport does about status word `s` when `i` of `n` bytes have been moved. */
  function Decide(s: Word, reading: bool, i: nat, n: nat): Decision {
    if s[8] then Stop(Nack)
    else if s[9] then Stop(ClockTimeout)
    else if (if reading then s[5] else s[4]) && i < n then Move
    else if s[1] then Stop(if reading && i != n then Timeout else Ok)
    else Idle
  }

  function Looking(world: World, b: Bus, job: Job, i: nat): Decision {
    Decide(world.status(b.regs.polls), job.reading, i, job.n)
  }

  /** The bus after one status word was read and acted on. */
  function Step(world: World, b: Bus, job: Job, i: nat): Bus
    requires Fits(job, b.ram)
  {
    var r := Poll(world, b.regs);
    if Looking(world, b, job, i) != Move then b.(regs := r)
    else if job.reading then
      Bus(PopByte(world, r), b.ram[job.at + i := NextByte(world, r)])
    else
      b.(regs := PushByte(r, b.ram[job.at + i]))
  }

  function StepIndex(world: World, b: Bus, job: Job, i: nat): nat {
    if Looking(world, b, job, i) == Move then i + 1 else i
  }

  datatype Progress = Progress(bus: Bus, i: nat)

  /** `m` status words read and acted on, whatever they say. */
  function Advance(world: World, b: Bus, job: Job, i: nat, m: nat): (r: Progress)
    requires Fits(job, b.ram) && i <= job.n
    ensures |r.bus.ram| == |b.ram| && i <= r.i <= job.n && r.i <= i + m
    ensures r.bus.regs.polls == b.regs.polls + m
    decreases m
  {
    if m == 0 then Progress(b, i)
    else Advance(world, Step(world, b, job, i), job, StepIndex(world, b, job, i), m - 1)
  }

  /** The first status word that ends the transfer is the one after `m` others. */
  predicate DecidesAt(world: World, b: Bus, job: Job, i: nat, m: nat)
    requires Fits(job, b.ram) && i <= job.n
    decreases m
  {
    match Looking(world, b, job, i)
    case Stop(_) => m == 0
    case _ => m > 0 && DecidesAt(world, Step(world, b, job, i), job, StepIndex(world, b, job, i), m - 1)
  }

  /** How many of the first `m` words neither move a byte nor end the transfer. */
  function IdleWords(world: World, b: Bus, job: Job, i: nat, m: nat): (k: nat)
    requires Fits(job, b.ram) && i <= job.n
    ensures k <= m
    decreases m
  {
    if m == 0 then 0
    else
      var rest := IdleWords(world, Step(world, b, job, i), job, StepIndex(world, b, job, i), m - 1);
      if Looking(world, b, job, i).Idle? then rest + 1 else rest
  }

  /** The verdict carried by the word after `m` others. */
  function VerdictAt(world: World, b: Bus, job: Job, i: nat, m: nat): I2cResult
    requires Fits(job, b.ram) && i <= job.n
    requires DecidesAt(world, b, job, i, m)
    decreases m
  {
    match Looking(world, b, job, i)
    case Stop(r) => r
    case _ => VerdictAt(world, Step(world, b, job, i), job, StepIndex(world, b, job, i), m - 1)
  }

  // ----- The polled transport

  /** How a transfer came out. `expired`: the budget ran out before a word decided it. */
  datatype Outcome = Outcome(bus: Bus, i: nat, result: I2cResult, expired: bool)

  function PolledLoop(world: World, b: Bus, job: Job, i: nat, spins: nat): Outcome
    requires Fits(job, b.ram) && i <= job.n
    decreases spins
  {
    if spins == 0 then Outcome(b, i, Timeout, true)
    else
      var b' := Step(world, b, job, i);
      match Looking(world, b, job, i)
      case Stop(r) => Outcome(b', i, r, false)
      case _ => PolledLoop(world, b', job, StepIndex(world, b, job, i), spins - 1)
  }

  /** The register writes before a polled transfer, up to and including the start. */
  function Primed(r: Regs, addr: nat, job: Job): Regs {
    Start(SetLength(SetAddress(ClearFlags(ClearFifo(r)), addr), job.n), job.reading)
  }

  predicate Rejected(addr: u8, buf: Ptr, len: nat) {
    buf.Null? || len == 0 || addr > ADDR_MAX
  }

  /** What a caller owes: a buffer that is really there. */
  predicate BufferOk(buf: Ptr, len: nat, ramSize: nat) {
    buf.At? ==> buf.addr + len <= ramSize
  }

  /** One `write` or `read` of the polled transport. */
  function PolledTransfer(world: World, b: Bus, spins: nat, reading: bool, addr: u8, buf: Ptr, len: nat): Outcome
    requires BufferOk(buf, len, |b.ram|)
  {
    if Rejected(addr, buf, len) then Outcome(b, 0, BadArg, false)
    else
      var job := Job(reading, buf.addr, len);
      PolledLoop(world, b.(regs := Primed(b.regs, addr, job)), job, 0, spins)
  }
}
