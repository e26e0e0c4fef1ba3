/**
 What both transports make of each status word they read, bit by bit: ERR (8) before CLKT (9) before data (TXD, 4, for a
 write; RXD, 5, for a read; while bytes are owed) before DONE (1). And what a whole transfer, or a whole interrupt, says
 about the words it read: only the last one can show an error, and its bits are the result.
 */
module StatusWords {
  import opened Common
  import opened Words
  import opened BscRegisters
  import opened Transfers
  import opened IrqTransfers
  import opened IrqRuns

  /** The bus after S was read once, and showed `s`. */
  predicate Read(b: Bus, b': Bus, s: Word) {
    b' == b.(regs := b.regs.(polls := b.regs.polls + 1, log := b.regs.log + [ReadS(s)]))
  }

  /** The word offers to move a byte that is still owed. */
  predicate Offers(s: Word, job: Job, i: nat) {
    i < job.n && if job.reading then s[5] else s[4]
  }

  /** The bus after the offered byte was moved, too. */
  predicate Shifted(world: World, b: Bus, b': Bus, job: Job, i: nat)
    requires Fits(job, b.ram) && i < job.n
  {
    if job.reading then
      var x: u8 := world.fifo(b.regs.pops) % 0x100;
      b' == Bus(b.regs.(pops := b.regs.pops + 1, log := b.regs.log + [Pop(x)]), b.ram[job.at + i := x])
    else b' == b.(regs := b.regs.(log := b.regs.log + [Push(b.ram[job.at + i])]))
  }

  // ----- One word

  /** A word that ends the transfer, and with what. */
  predicate Ends(s: Word, job: Job, i: nat, r: I2cResult) {
    if s[8] then r == Nack
    else if s[9] then r == ClockTimeout
    else !Offers(s, job, i) && s[1] && r == if job.reading && i < job.n then Timeout else Ok
  }

  /** The polled loop ends at such a word: nothing is moved. */
  lemma PolledEnds(world: World, b: Bus, job: Job, i: nat, spins: nat, b': Bus, r: I2cResult)
    requires Fits(job, b.ram) && i <= job.n && spins > 0 && Read(b, b', world.status(b.regs.polls))
    requires Ends(world.status(b.regs.polls), job, i, r)
    ensures PolledLoop(world, b, job, i, spins) == Outcome(b', i, r, false)
  {
  }

  /** At any other it goes on, having moved the byte if one was offered. */
  lemma PolledGoesOn(world: World, b: Bus, job: Job, i: nat, spins: nat, b1: Bus, b2: Bus)
    requires Fits(job, b.ram) && i <= job.n && spins > 0 && Read(b, b1, world.status(b.regs.polls))
    requires var s := world.status(b.regs.polls); !s[8] && !s[9] && (Offers(s, job, i) || !s[1])
    requires if Offers(world.status(b.regs.polls), job, i) then Shifted(world, b1, b2, job, i) else b2 == b1
    ensures PolledLoop(world, b, job, i, spins) ==
            PolledLoop(world, b2, job, if Offers(world.status(b.regs.polls), job, i) then i + 1 else i, spins - 1)
  {
  }

  /** The handler's loop ends at a word that ends the transfer, at one that offers nothing without a verdict, ... */
  lemma IsrEndsAt(world: World, b: Bus, job: Job, i: nat, b': Bus, r: I2cResult)
    requires Fits(job, b.ram) && i <= job.n && Read(b, b', world.status(b.regs.polls))
    ensures Ends(world.status(b.regs.polls), job, i, r) ==> IsrLoop(world, b, job, i) == IsrOutcome(b', i, Some(r))
    ensures var s := world.status(b.regs.polls);
            !s[8] && !s[9] && !Offers(s, job, i) && !s[1] ==> IsrLoop(world, b, job, i) == IsrOutcome(b', i, None)
  {
  }

  /** ... and goes on at one that offers a byte. */
  lemma IsrGoesOn(world: World, b: Bus, job: Job, i: nat, b1: Bus, b2: Bus)
    requires Fits(job, b.ram) && i < job.n && Read(b, b1, world.status(b.regs.polls))
    requires var s := world.status(b.regs.polls); !s[8] && !s[9] && Offers(s, job, i)
    requires Shifted(world, b1, b2, job, i)
    ensures IsrLoop(world, b, job, i) == IsrLoop(world, b2, job, i + 1)
  {
  }

  // ----- All the words of a transfer

  predicate Clean(s: Word) {
    !s[8] && !s[9]
  }

  function Failure(s: Word): I2cResult {
    if s[8] then Nack else ClockTimeout
  }

  predicate EndsIn(log: seq<Op>, op: Op) {
    log != [] && log[|log| - 1] == op
  }

  /** A step of the pump reads one word. */
  lemma StepReads(world: World, b: Bus, job: Job, i: nat)
    requires Fits(job, b.ram) && i <= job.n
    ensures Step(world, b, job, i).regs.polls == b.regs.polls + 1
    ensures Looking(world, b, job, i) != Move ==> Read(b, Step(world, b, job, i), world.status(b.regs.polls))
    ensures !Looking(world, b, job, i).Stop? ==> Clean(world.status(b.regs.polls))
  {
  }

  /** Of the words a polled loop reads only the last can show an error; an expired one has seen none. */
  lemma {:induction false} PolledWords(world: World, b: Bus, job: Job, i: nat, spins: nat)
    requires Fits(job, b.ram) && i <= job.n
    ensures var o := PolledLoop(world, b, job, i, spins);
            var last := o.bus.regs.polls - 1;
            && b.regs.polls <= o.bus.regs.polls <= b.regs.polls + spins
            && (forall k | b.regs.polls <= k < last :: Clean(world.status(k)))
            && (o.expired ==> o.result == Timeout && last - b.regs.polls + 1 == spins)
            && (o.expired && spins > 0 ==> Clean(world.status(last)))
            && (!o.expired ==>
                  && last >= b.regs.polls && o.i <= job.n && Ends(world.status(last), job, o.i, o.result)
                  && EndsIn(o.bus.regs.log, ReadS(world.status(last))))
    decreases spins
  {
    if spins > 0 {
      StepReads(world, b, job, i);
      if !Looking(world, b, job, i).Stop? {
        PolledWords(world, Step(world, b, job, i), job, StepIndex(world, b, job, i), spins - 1);
      }
    }
  }

  /** One interrupt: every word but the last moves a byte; the last carries the verdict if there is one. */
  lemma {:induction false} IsrWords(world: World, b: Bus, job: Job, i: nat)
    requires Fits(job, b.ram) && i <= job.n
    ensures var o := IsrLoop(world, b, job, i);
            var last := o.bus.regs.polls - 1;
            && last - b.regs.polls == o.i - i && i <= o.i <= job.n
            && (forall k | b.regs.polls <= k < last :: Clean(world.status(k)))
            && EndsIn(o.bus.regs.log, ReadS(world.status(last)))
            && match o.verdict
               case Some(r) => Ends(world.status(last), job, o.i, r)
               case None => !exists r :: Ends(world.status(last), job, o.i, r)
    decreases job.n - i
  {
    StepReads(world, b, job, i);
    if Looking(world, b, job, i) == Move {
      IsrWords(world, Step(world, b, job, i), job, i + 1);
    }
  }

  /** Everything a polled transfer that is not rejected says about its words: a word with an error is the last one read,
      and its error is the result. */
  lemma PolledTransferWords(world: World, b: Bus, spins: nat, reading: bool, addr: u8, buf: Ptr, len: nat)
    requires BufferOk(buf, len, |b.ram|) && buf.At? && 0 < len && addr < 0x80
    ensures var o := PolledTransfer(world, b, spins, reading, addr, buf, len);
            var last := o.bus.regs.polls - 1;
            && b.regs.polls <= o.bus.regs.polls <= b.regs.polls + spins
            && (forall k | b.regs.polls <= k <= last && !Clean(world.status(k)) ::
                  k == last && !o.expired && o.result == Failure(world.status(k)))
            && (o.expired ==> o.result == Timeout && last - b.regs.polls + 1 == spins)
            && (!o.expired ==>
                  && last >= b.regs.polls && o.i <= len
                  && Ends(world.status(last), Job(reading, buf.addr, len), o.i, o.result)
                  && EndsIn(o.bus.regs.log, ReadS(world.status(last))))
  {
    var job := Job(reading, buf.addr, len);
    PrimedKeeps(b.regs, addr, job);
    PolledWords(world, b.(regs := Primed(b.regs, addr, job)), job, 0, spins);
  }

  lemma PrimedKeeps(r: Regs, addr: nat, job: Job)
    ensures Primed(r, addr, job).polls == r.polls && Primed(r, addr, job).pops == r.pops
  {
  }

  /** With an error in the first word: that word is all the transfer reads, no byte is moved, no memory changed. */
  lemma PolledFailsAtOnce(world: World, b: Bus, spins: nat, reading: bool, addr: u8, buf: Ptr, len: nat, b': Bus)
    requires BufferOk(buf, len, |b.ram|) && buf.At? && 0 < len && addr < 0x80 && spins > 0
    requires !Clean(world.status(b.regs.polls))
    requires Read(b.(regs := Primed(b.regs, addr, Job(reading, buf.addr, len))), b', world.status(b.regs.polls))
    ensures PolledTransfer(world, b, spins, reading, addr, buf, len) ==
            Outcome(b', 0, Failure(world.status(b.regs.polls)), false)
    ensures b'.ram == b.ram
  {
    var job, s := Job(reading, buf.addr, len), world.status(b.regs.polls);
    PrimedKeeps(b.regs, addr, job);
    PolledEnds(world, b.(regs := Primed(b.regs, addr, job)), job, 0, spins, b', Failure(s));
  }

  // ----- All the words of an interrupt

  /** From `log` on, registers are written and nothing is read, pushed or popped. */
  predicate OnlyWrites(log: seq<Op>, log': seq<Op>) {
    && |log| <= |log'| && log'[..|log|] == log
    && forall k | |log| <= k < |log'| :: !log'[k].ReadS? && !log'[k].Push? && !log'[k].Pop?
  }

  lemma WritesOn(log: seq<Op>, log1: seq<Op>, log2: seq<Op>)
    requires OnlyWrites(log, log1) && OnlyWrites(log1, log2)
    ensures OnlyWrites(log, log2)
  {
    assert log2[..|log|] == log2[..|log1|][..|log|];
    forall k | |log| <= k < |log2| ensures !log2[k].ReadS? && !log2[k].Push? && !log2[k].Pop? {
      if k < |log1| { assert log2[..|log1|][k] == log1[k]; }
    }
  }

  lemma SetWrites(r: Regs, f: Control, value: Word)
    ensures OnlyWrites(r.log, ClrControl(r, f).log) && ClrControl(r, f).polls == r.polls
    ensures OnlyWrites(r.log, SetControl(r, f, value).log) && SetControl(r, f, value).polls == r.polls
  {
  }

  lemma CallWrites(r: Regs, c: Call)
    ensures OnlyWrites(r.log, Called(r, c).log) && Called(r, c).polls == r.polls
  {
    match c
    case FifoCleared => ClearFifoSets(r); SetWrites(r, CLEAR, One());
    case Switched(f) => SetWrites(r, f, One());
    case SwitchedOff(f) => SetWrites(r, f, One());
    case Started(reading) =>
      var direction := if reading then One() else Zero();
      var r1 := SetControl(r, I2CEN, One());
      var r2 := SetControl(r1, READ, direction);
      StartIs(r, reading);
      SetWrites(r, I2CEN, One());
      SetWrites(r1, READ, direction);
      SetWrites(r2, ST, One());
      WritesOn(r.log, r1.log, r2.log);
      WritesOn(r.log, r2.log, SetControl(r2, ST, One()).log);
    case _ =>
  }

  lemma {:induction false} CallsWrite(r: Regs, calls: seq<Call>)
    ensures OnlyWrites(r.log, AllCalled(r, calls).log) && AllCalled(r, calls).polls == r.polls
    decreases |calls|
  {
    if calls != [] {
      var before := AllCalled(r, calls[..|calls| - 1]);
      CallsWrite(r, calls[..|calls| - 1]);
      CallWrites(before, calls[|calls| - 1]);
      WritesOn(r.log, before.log, AllCalled(r, calls).log);
    }
  }

  lemma {:induction false} IssueWrites(t: Tr, qs: seq<Request>)
    ensures OnlyWrites(t.bus.regs.log, Issue(t, qs).bus.regs.log) && Issue(t, qs).bus.regs.polls == t.bus.regs.polls
    decreases |qs|
  {
    if qs != [] {
      var t1 := StartAsync(t, qs[0]);
      CallsWrite(t.bus.regs, StartCalls(qs[0].addr, Job(qs[0].reading, 0, qs[0].len)));
      IssueWrites(t1, qs[1..]);
      WritesOn(t.bus.regs.log, t1.bus.regs.log, Issue(t, qs).bus.regs.log);
    }
  }

  lemma FinalizeWrites(e: Env, t: Tr, r: I2cResult)
    requires Sound(e, t)
    ensures var t' := Finalize(e, t, r);
            && OnlyWrites(t.bus.regs.log, t'.bus.regs.log) && t'.bus.regs.polls == t.bus.regs.polls
            && t'.history == t.history + Settlement(Charged(t), |t.owners| - 1, t.x.cb, r)
  {
    var s := Settled(t, r);
    FinalizeIs(e, t, r);
    CallsWrite(t.bus.regs, SettleCalls());
    if t.x.cb.Some? {
      IssueWrites(s, e.client(t.x.cb.value, r));
      WritesOn(t.bus.regs.log, s.bus.regs.log, Finalize(e, t, r).bus.regs.log);
    }
  }

  /** An interrupt, by the words it reads: all but the last are free of errors; the transfer is finalized iff the last
      one ends it, with the result its bits stand for; and after that word nothing is read, pushed or popped any
      more. */
  lemma InterruptWords(e: Env, t: Tr) returns (i: nat, log: seq<Op>)
    requires Sound(e, t)
    ensures var t' := HandleIrq(e, t);
            var last := t'.bus.regs.polls - 1;
            var job := JobOf(t.x);
            && t.bus.regs.polls <= last && i == IndexOf(t.x) + (last - t.bus.regs.polls) <= job.n
            && (forall k | t.bus.regs.polls <= k < last :: Clean(e.world.status(k)))
            && var s := e.world.status(last);
            && EndsIn(log, ReadS(s)) && OnlyWrites(log, t'.bus.regs.log)
            && (forall r | Ends(s, job, i, r) ::
                  t'.history == t.history + Settlement(Charged(t), |t.owners| - 1, t.x.cb, r))
            && ((forall r :: !Ends(s, job, i, r)) ==> t'.history == t.history)
  {
    var o := IsrLoop(e.world, t.bus, JobOf(t.x), IndexOf(t.x));
    i, log := o.i, o.bus.regs.log;
    IsrWords(e.world, t.bus, JobOf(t.x), IndexOf(t.x));
    if o.verdict.Some? { FinalizeWrites(e, Pumped(e, t), o.verdict.value); }
  }

  /** With an error in its first word: the interrupt reads that word and no other, moves no byte, changes no memory, and
      finalizes the transfer with that error. */
  lemma InterruptFailsAtOnce(e: Env, t: Tr)
    requires Sound(e, t) && !Clean(e.world.status(t.bus.regs.polls))
    ensures var t', s := HandleIrq(e, t), e.world.status(t.bus.regs.polls);
            && t'.bus.ram == t.bus.ram && t'.bus.regs.pops == t.bus.regs.pops
            && t'.bus.regs.polls == t.bus.regs.polls + 1
            && OnlyWrites(t.bus.regs.log + [ReadS(s)], t'.bus.regs.log)
            && t'.history == t.history + Settlement(Charged(t), |t.owners| - 1, t.x.cb, Failure(s))
  {
    var s := e.world.status(t.bus.regs.polls);
    var b' := t.bus.(regs := t.bus.regs.(polls := t.bus.regs.polls + 1, log := t.bus.regs.log + [ReadS(s)]));
    IsrEndsAt(e.world, t.bus, JobOf(t.x), IndexOf(t.x), b', Failure(s));
    FinalizeWrites(e, Pumped(e, t), Failure(s));
  }
}
