/**
 Laws of the interrupt-driven transport: how much one interrupt may do, how interrupts follow the stream of status
 words, exactly when the watchdog fires, and what memory a transfer may change.
 */
module IrqLaws {
  import opened Common
  import opened BscRegisters
  import opened Transfers
  import opened IrqTransfers
  import opened IrqStarts

  // ----- One interrupt

  /** A word that moves a byte keeps the handler's loop going; any other ends it. */
  lemma IsrAgain(world: World, b: Bus, job: Job, i: nat)
    requires Fits(job, b.ram) && i < job.n && Looking(world, b, job, i) == Move
    ensures IsrLoop(world, b, job, i) == IsrLoop(world, Step(world, b, job, i), job, i + 1)
  {
  }

  lemma IsrEnds(world: World, b: Bus, job: Job, i: nat)
    requires Fits(job, b.ram) && i <= job.n && Looking(world, b, job, i) != Move
    ensures IsrLoop(world, b, job, i).bus == Step(world, b, job, i) && IsrLoop(world, b, job, i).i == i
    ensures Looking(world, b, job, i) == Idle ==> IsrLoop(world, b, job, i).verdict == None
    ensures Looking(world, b, job, i).Stop? ==> IsrLoop(world, b, job, i).verdict == Some(Looking(world, b, job, i).r)
  {
  }

  /** Reading `m` words and then `k` more is reading `m + k`. */
  lemma {:induction false} AdvanceSplit(world: World, b: Bus, job: Job, i: nat, m: nat, k: nat)
    requires Fits(job, b.ram) && i <= job.n
    ensures var Progress(b', i') := Advance(world, b, job, i, m);
            && Advance(world, b, job, i, m + k) == Advance(world, b', job, i', k)
            && IdleWords(world, b, job, i, m + k)
               == IdleWords(world, b, job, i, m) + IdleWords(world, b', job, i', k)
    decreases m
  {
    if m > 0 {
      AdvanceSplit(world, Step(world, b, job, i), job, StepIndex(world, b, job, i), m - 1, k);
    }
  }

  /** One run of the handler reads some words, at most one more than the bytes still owed: bytes move until a word
      is idle, or decides. */
  lemma {:induction false} IsrFollows(world: World, b: Bus, job: Job, i: nat) returns (m: nat)
    requires Fits(job, b.ram) && i <= job.n
    ensures 1 <= m <= job.n - i + 1
    ensures var o := IsrLoop(world, b, job, i);
            && Progress(o.bus, o.i) == Advance(world, b, job, i, m)
            && match o.verdict
               case Some(r) =>
                 && DecidesAt(world, b, job, i, m - 1) && VerdictAt(world, b, job, i, m - 1) == r
                 && IdleWords(world, b, job, i, m - 1) == 0
               case None => IdleWords(world, b, job, i, m) == 1
    decreases job.n - i
  {
    if Looking(world, b, job, i) == Move {
      var m' := IsrFollows(world, Step(world, b, job, i), job, i + 1);
      m := m' + 1;
    } else {
      m := 1;
      assert Advance(world, b, job, i, 1) == Progress(Step(world, b, job, i), i);
      assert IdleWords(world, Step(world, b, job, i), job, i, 0) == 0;
    }
  }

  /** If the handler returns without a verdict, no word it read was the deciding one. */
  lemma {:induction false} IsrUndecided(world: World, b: Bus, job: Job, i: nat, m: nat, k: nat)
    requires Fits(job, b.ram) && i <= job.n
    requires IsrLoop(world, b, job, i).verdict.None?
    requires m == IsrLoop(world, b, job, i).bus.regs.polls - b.regs.polls
    requires DecidesAt(world, b, job, i, k)
    ensures m <= k
    decreases job.n - i
  {
    if Looking(world, b, job, i) == Move {
      IsrBound(world, Step(world, b, job, i), job, i + 1);
      IsrUndecided(world, Step(world, b, job, i), job, i + 1, m - 1, k - 1);
    }
  }

  /** Work bound of one interrupt: at most one status read more than the bytes owed, no more bytes than that, and
      only the buffer cells it advances over are written. */
  lemma {:induction false} IsrBound(world: World, b: Bus, job: Job, i: nat)
    requires Fits(job, b.ram) && i <= job.n
    ensures var o := IsrLoop(world, b, job, i);
            && i <= o.i <= job.n
            && 1 <= o.bus.regs.polls - b.regs.polls <= job.n - i + 1
            && o.i - i <= o.bus.regs.polls - b.regs.polls <= o.i - i + 1
            && (forall k | 0 <= k < |b.ram| && !(job.reading && job.at + i <= k < job.at + o.i) ::
                  o.bus.ram[k] == b.ram[k])
            && o.bus.regs.c == b.regs.c && o.bus.regs.a == b.regs.a && o.bus.regs.dlen == b.regs.dlen
    decreases job.n - i
  {
    if Looking(world, b, job, i) == Move {
      IsrBound(world, Step(world, b, job, i), job, i + 1);
    }
  }

  // ----- Several interrupts, on the bytes alone

  /** What `n` interrupts do to the bytes of a transfer, if none arrives once a word has decided it. */
  function Interrupts(world: World, b: Bus, job: Job, i: nat, n: nat): (o: IsrOutcome)
    requires Fits(job, b.ram) && i <= job.n
    ensures |o.bus.ram| == |b.ram| && i <= o.i <= job.n
    decreases n
  {
    if n == 0 then IsrOutcome(b, i, None)
    else
      var o := IsrLoop(world, b, job, i);
      if o.verdict.Some? then o else Interrupts(world, o.bus, job, o.i, n - 1)
  }

  lemma {:induction false} InterruptsSplit(world: World, b: Bus, job: Job, i: nat, n: nat, k: nat)
    requires Fits(job, b.ram) && i <= job.n
    ensures var o := Interrupts(world, b, job, i, n);
            Interrupts(world, b, job, i, n + k) ==
            if o.verdict.Some? then o else Interrupts(world, o.bus, job, o.i, k)
    decreases n
  {
    if n > 0 {
      var o := IsrLoop(world, b, job, i);
      InterruptsSplit(world, o.bus, job, o.i, n - 1, k);
    }
  }

  /** Skipping words that do not decide brings the deciding word nearer and changes nothing else about it. */
  lemma {:induction false} DecidesLater(world: World, b: Bus, job: Job, i: nat, m: nat, j: nat)
    requires Fits(job, b.ram) && i <= job.n
    requires DecidesAt(world, b, job, i, m) && j <= m
    ensures var Progress(b', i') := Advance(world, b, job, i, j);
            && DecidesAt(world, b', job, i', m - j)
            && VerdictAt(world, b', job, i', m - j) == VerdictAt(world, b, job, i, m)
    decreases j
  {
    if j > 0 {
      DecidesLater(world, Step(world, b, job, i), job, StepIndex(world, b, job, i), m - 1, j - 1);
    }
  }

  /** A transfer is decided by one word only. */
  lemma {:induction false} DecidesOnce(world: World, b: Bus, job: Job, i: nat, m: nat, k: nat)
    requires Fits(job, b.ram) && i <= job.n
    requires DecidesAt(world, b, job, i, m) && DecidesAt(world, b, job, i, k)
    ensures m == k
    decreases m
  {
    if m > 0 && k > 0 {
      DecidesOnce(world, Step(world, b, job, i), job, StepIndex(world, b, job, i), m - 1, k - 1);
    }
  }

  /** The bytes after the deciding word, which is the one after `m` others. */
  function Ended(world: World, b: Bus, job: Job, i: nat, m: nat): IsrOutcome
    requires Fits(job, b.ram) && i <= job.n
    requires DecidesAt(world, b, job, i, m)
  {
    var Progress(b', i') := Advance(world, b, job, i, m + 1);
    IsrOutcome(b', i', Some(VerdictAt(world, b, job, i, m)))
  }

  lemma EndedLater(world: World, b: Bus, job: Job, i: nat, m: nat, j: nat)
    requires Fits(job, b.ram) && i <= job.n
    requires DecidesAt(world, b, job, i, m) && j <= m
    ensures var Progress(b', i') := Advance(world, b, job, i, j);
            && DecidesAt(world, b', job, i', m - j)
            && Ended(world, b', job, i', m - j) == Ended(world, b, job, i, m)
  {
    DecidesLater(world, b, job, i, m, j);
    AdvanceSplit(world, b, job, i, j, m - j + 1);
  }

  /** Each interrupt uses up one idle word; the one after the last idle word reaches the deciding word. */
  lemma {:induction false} InterruptsLaw(world: World, b: Bus, job: Job, i: nat, n: nat, m: nat)
    requires Fits(job, b.ram) && i <= job.n
    requires DecidesAt(world, b, job, i, m)
    ensures if n > IdleWords(world, b, job, i, m)
            then Interrupts(world, b, job, i, n) == Ended(world, b, job, i, m)
            else Interrupts(world, b, job, i, n).verdict.None?
    decreases n
  {
    if n > 0 {
      var j := IsrFollows(world, b, job, i);
      var o := IsrLoop(world, b, job, i);
      if o.verdict.Some? {
        DecidesOnce(world, b, job, i, m, j - 1);
      } else {
        IsrUndecided(world, b, job, i, j, m);
        EndedLater(world, b, job, i, m, j);
        AdvanceSplit(world, b, job, i, j, m - j);
        InterruptsLaw(world, o.bus, job, o.i, n - 1, m - j);
      }
    }
  }

  /** Interrupts that end a transfer met a deciding word. */
  lemma {:induction false} InterruptsDecide(world: World, b: Bus, job: Job, i: nat, n: nat) returns (m: nat)
    requires Fits(job, b.ram) && i <= job.n
    requires Interrupts(world, b, job, i, n).verdict.Some?
    ensures DecidesAt(world, b, job, i, m)
    decreases n
  {
    var j := IsrFollows(world, b, job, i);
    var o := IsrLoop(world, b, job, i);
    if o.verdict.Some? {
      m := j - 1;
    } else {
      var m' := InterruptsDecide(world, o.bus, job, o.i, n - 1);
      forall h: nat | h < j ensures !DecidesAt(world, b, job, i, h) {
        if DecidesAt(world, b, job, i, h) { IsrUndecided(world, b, job, i, j, h); }
      }
      DecidesFrom(world, b, job, i, j, m');
      m := j + m';
    }
  }

  lemma {:induction false} DecidesFrom(world: World, b: Bus, job: Job, i: nat, j: nat, k: nat)
    requires Fits(job, b.ram) && i <= job.n
    requires forall h: nat | h < j :: !DecidesAt(world, b, job, i, h)
    requires var Progress(b', i') := Advance(world, b, job, i, j); DecidesAt(world, b', job, i', k)
    ensures DecidesAt(world, b, job, i, j + k)
    decreases j
  {
    if j > 0 {
      assert !DecidesAt(world, b, job, i, 0);
      var b', i' := Step(world, b, job, i), StepIndex(world, b, job, i);
      forall h: nat | h < j - 1 ensures !DecidesAt(world, b', job, i', h) {
        assert !DecidesAt(world, b, job, i, h + 1);
      }
      DecidesFrom(world, b', job, i', j - 1, k);
    }
  }

  // ----- Waiting

  /** A synchronous transfer under way. */
  ghost predicate Flying(e: Env, t: Tr) {
    Sound(e, t) && t.x.active && !t.x.done && t.x.cb.None? && IntsOn(t.bus.regs.c)
  }

  /** `t` once its bytes have come as far as `o`: finalized if a word decided, still under way if not. */
  function Reached(t: Tr, o: IsrOutcome): Tr {
    var t' := t.(bus := o.bus, x := WithIndex(t.x, o.i));
    match o.verdict
    case None => t'
    case Some(r) => Settle(t', r)
  }

  function Taken(e: Env, t: Tr, n: nat): IsrOutcome
    requires Sound(e, t)
  {
    Interrupts(e.world, t.bus, JobOf(t.x), IndexOf(t.x), n)
  }

  lemma SettledIsQuiet(t: Tr, r: I2cResult)
    ensures !IntsOn(Settle(t, r).bus.regs.c)
  {
  }

  lemma HandleIrqReaches(e: Env, t: Tr)
    requires Flying(e, t)
    ensures var o := IsrLoop(e.world, t.bus, JobOf(t.x), IndexOf(t.x));
            && HandleIrq(e, t) == Reached(t, o)
            && (if o.verdict.Some? then !IntsOn(HandleIrq(e, t).bus.regs.c) else Flying(e, HandleIrq(e, t)))
  {
    IsrBound(e.world, t.bus, JobOf(t.x), IndexOf(t.x));
    var o := IsrLoop(e.world, t.bus, JobOf(t.x), IndexOf(t.x));
    if o.verdict.Some? {
      SettledIsQuiet(Pumped(e, t), o.verdict.value);
    }
  }

  lemma {:induction false} DeliverReaches(e: Env, t: Tr, n: nat)
    requires Flying(e, t)
    ensures Deliver(e, t, n) == Reached(t, Taken(e, t, n))
    ensures if Taken(e, t, n).verdict.Some? then !IntsOn(Deliver(e, t, n).bus.regs.c) else Flying(e, Deliver(e, t, n))
    decreases n
  {
    if n > 0 {
      HandleIrqReaches(e, t);
      if IsrLoop(e.world, t.bus, JobOf(t.x), IndexOf(t.x)).verdict.None? {
        DeliverReaches(e, HandleIrq(e, t), n - 1);
      }
    }
  }

  /** Interrupts that arrive during `count` moments from moment `from` on. */
  function Sum(arrivals: nat -> nat, from: nat, count: nat): nat
    decreases count
  {
    if count == 0 then 0 else arrivals(from) + Sum(arrivals, from + 1, count - 1)
  }

  /** Where `n` interrupts lead, observed at moment `slot`. */
  function After(e: Env, t: Tr, n: nat, slot: nat): Tr
    requires Sound(e, t)
  {
    Reached(t, Taken(e, t, n)).(slot := slot)
  }

  lemma AfterFlies(e: Env, t: Tr, n: nat, slot: nat)
    requires Flying(e, t) && Taken(e, t, n).verdict.None?
    ensures Flying(e, After(e, t, n, slot))
  {
    DeliverReaches(e, t, n);
  }

  /** One more moment of waiting. */
  lemma NextSlotReaches(e: Env, t: Tr, n: nat, slot: nat)
    requires Flying(e, t) && Taken(e, t, n).verdict.None?
    ensures Flying(e, After(e, t, n, slot))
    ensures NextSlot(e, After(e, t, n, slot)) == After(e, t, n + e.arrivals(slot), slot + 1)
  {
    AfterFlies(e, t, n, slot);
    AfterFlies(e, t, n, slot + 1);
    var t1 := After(e, t, n, slot + 1);
    DeliverReaches(e, t1, e.arrivals(slot));
    TakenOn(e, t, t1, n, slot + 1, e.arrivals(slot));
  }

  /** Taking `k` more interrupts from where `n` have led. */
  lemma TakenOn(e: Env, t: Tr, t1: Tr, n: nat, slot: nat, k: nat)
    requires Sound(e, t) && Sound(e, t1) && Taken(e, t, n).verdict.None? && t1 == After(e, t, n, slot)
    ensures Reached(t1, Taken(e, t1, k)) == After(e, t, n + k, slot)
  {
    InterruptsSplit(e.world, t.bus, JobOf(t.x), IndexOf(t.x), n, k);
  }

  lemma AfterStays(e: Env, t: Tr, n: nat, k: nat)
    requires Flying(e, t) && n <= k && Taken(e, t, n).verdict.Some?
    ensures Taken(e, t, k) == Taken(e, t, n)
  {
    InterruptsSplit(e.world, t.bus, JobOf(t.x), IndexOf(t.x), n, k - n);
  }

  /** What a look at `done` sees. */
  lemma AfterShows(e: Env, t: Tr, n: nat, slot: nat)
    requires Flying(e, t)
    ensures Sound(e, After(e, t, n, slot))
    ensures After(e, t, n, slot).x.done <==> Taken(e, t, n).verdict.Some?
    ensures Taken(e, t, n).verdict.Some? ==> After(e, t, n, slot).x.result == Taken(e, t, n).verdict.value
  {
    DeliverReaches(e, t, n);
  }

  lemma LookAgain(e: Env, t: Tr, n: nat, slot: nat, checks: nat)
    requires Flying(e, t) && Taken(e, t, n).verdict.None? && checks > 0
    ensures Sound(e, After(e, t, n, slot)) && Sound(e, After(e, t, n + e.arrivals(slot), slot + 1))
    ensures WaitLoop(e, After(e, t, n, slot), checks) ==
            WaitLoop(e, After(e, t, n + e.arrivals(slot), slot + 1), checks - 1)
  {
    AfterShows(e, t, n, slot);
    NextSlotReaches(e, t, n, slot);
  }

  /** Where a watchdog loop stops that looks `checks` times: after how many interrupts, at what moment, and whether it
      saw the end. */
  datatype Stopped = Stopped(n: nat, slot: nat, seen: bool)

  function StopsAt(e: Env, t: Tr, n: nat, slot: nat, checks: nat): Stopped
    requires Sound(e, t)
    decreases checks
  {
    if checks == 0 then Stopped(n, slot, false)
    else if Taken(e, t, n).verdict.Some? then Stopped(n, slot, true)
    else StopsAt(e, t, n + e.arrivals(slot), slot + 1, checks - 1)
  }

  /** It sees the end iff the interrupts before its last look have brought it about; no look is taken after the last
      wait. */
  lemma {:induction false} StopsLaw(e: Env, t: Tr, n: nat, slot: nat, checks: nat)
    requires Flying(e, t)
    ensures var s := StopsAt(e, t, n, slot, checks);
            && (s.seen <==> checks > 0 && Taken(e, t, n + Sum(e.arrivals, slot, checks - 1)).verdict.Some?)
            && (s.seen ==> Taken(e, t, s.n) == Taken(e, t, n + Sum(e.arrivals, slot, checks - 1)))
            && (!s.seen ==> s.n == n + Sum(e.arrivals, slot, checks))
    decreases checks
  {
    if checks > 0 && Taken(e, t, n).verdict.Some? {
      AfterStays(e, t, n, n + Sum(e.arrivals, slot, checks - 1));
    } else if checks > 0 {
      StopsLaw(e, t, n + e.arrivals(slot), slot + 1, checks - 1);
    }
  }

  /** What it returns. */
  function Ending(e: Env, t: Tr, s: Stopped): Returned
    requires Sound(e, t)
    requires s.seen ==> Taken(e, t, s.n).verdict.Some?
  {
    if s.seen then Returned(After(e, t, s.n, s.slot), Taken(e, t, s.n).verdict.value)
    else Returned(Abort(After(e, t, s.n, s.slot)), Timeout)
  }

  lemma LookEnds(e: Env, t: Tr, n: nat, slot: nat, checks: nat, s: Stopped)
    requires Flying(e, t) && s == StopsAt(e, t, n, slot, checks)
    requires checks == 0 || Taken(e, t, n).verdict.Some?
    ensures Watched(e, t, n, slot, checks, s)
  {
    AfterShows(e, t, n, slot);
  }

  lemma StopsNext(e: Env, t: Tr, n: nat, slot: nat, checks: nat)
    requires Sound(e, t) && checks > 0 && Taken(e, t, n).verdict.None?
    ensures StopsAt(e, t, n, slot, checks) == StopsAt(e, t, n + e.arrivals(slot), slot + 1, checks - 1)
  {
  }

  /** What a watchdog returns from here, said of its looks. */
  ghost predicate Watched(e: Env, t: Tr, n: nat, slot: nat, checks: nat, s: Stopped)
    requires Sound(e, t)
  {
    && Sound(e, After(e, t, n, slot)) && (s.seen ==> Taken(e, t, s.n).verdict.Some?)
    && WaitLoop(e, After(e, t, n, slot), checks) == Ending(e, t, s)
  }

  /** One look more. */
  lemma LookBack(e: Env, t: Tr, n: nat, slot: nat, checks: nat, s: Stopped)
    requires Flying(e, t) && Taken(e, t, n).verdict.None? && checks > 0
    requires Watched(e, t, n + e.arrivals(slot), slot + 1, checks - 1, s)
    ensures Watched(e, t, n, slot, checks, s)
  {
    LookAgain(e, t, n, slot, checks);
  }

  lemma {:induction false} WaitStops(e: Env, t: Tr, n: nat, slot: nat, checks: nat, s: Stopped)
    requires Flying(e, t) && s == StopsAt(e, t, n, slot, checks)
    ensures Watched(e, t, n, slot, checks, s)
    decreases checks
  {
    if checks == 0 || Taken(e, t, n).verdict.Some? {
      LookEnds(e, t, n, slot, checks, s);
    } else {
      assert s == StopsAt(e, t, n + e.arrivals(slot), slot + 1, checks - 1) by { StopsNext(e, t, n, slot, checks); }
      WaitStops(e, t, n + e.arrivals(slot), slot + 1, checks - 1, s);
      LookBack(e, t, n, slot, checks, s);
    }
  }

  // ----- Synchronous transfers

  /** A started synchronous transfer is under way: `start` has switched its interrupts on. */
  lemma StartFlies(e: Env, t: Tr, q: Request)
    requires Sound(e, t) && !Rejected(q.addr, q.buf, q.len) && BufferOk(q.buf, q.len, e.ramSize) && q.cb.None?
    ensures Flying(e, StartTransfer(t, q))
  {
  }

  lemma FirstMoment(e: Env, t: Tr)
    requires Flying(e, t)
    ensures NextSlot(e, t) == After(e, t, e.arrivals(t.slot), t.slot + 1)
  {
    assert t == After(e, t, 0, t.slot);
    NextSlotReaches(e, t, 0, t.slot);
  }

  lemma FlightStops(e: Env, t: Tr) returns (s: Stopped)
    requires Flying(e, t)
    ensures s == StopsAt(e, t, e.arrivals(t.slot), t.slot + 1, e.maxWaits)
    ensures s.seen ==> Taken(e, t, s.n).verdict.Some?
    ensures WaitLoop(e, NextSlot(e, t), e.maxWaits) == Ending(e, t, s)
  {
    s := StopsAt(e, t, e.arrivals(t.slot), t.slot + 1, e.maxWaits);
    FirstMoment(e, t);
    WaitStops(e, t, e.arrivals(t.slot), t.slot + 1, e.maxWaits, s);
  }

  lemma StopsByTotal(e: Env, t: Tr, s: Stopped, total: nat)
    requires Flying(e, t) && total == Sum(e.arrivals, t.slot, e.maxWaits)
    requires s == StopsAt(e, t, e.arrivals(t.slot), t.slot + 1, e.maxWaits)
    ensures s.seen <==> Taken(e, t, total).verdict.Some?
    ensures s.seen ==> Taken(e, t, s.n) == Taken(e, t, total)
  {
    StopsLaw(e, t, e.arrivals(t.slot), t.slot + 1, e.maxWaits);
  }

  /** How a transfer under way comes out: `total` interrupts arrive before the watchdog's last look at `done`. If they
      reach the deciding word its verdict is returned; otherwise the transfer is aborted, `n` interrupts on. */
  lemma FlightLaw(e: Env, t: Tr, total: nat) returns (end: nat, n: nat)
    requires Flying(e, t) && total == Sum(e.arrivals, t.slot, e.maxWaits)
    ensures Taken(e, t, total).verdict.Some? ==>
              WaitLoop(e, NextSlot(e, t), e.maxWaits) ==
              Returned(Reached(t, Taken(e, t, total)).(slot := end), Taken(e, t, total).verdict.value)
    ensures Taken(e, t, total).verdict.None? ==>
              WaitLoop(e, NextSlot(e, t), e.maxWaits) == Returned(Abort(After(e, t, n, end)), Timeout)
  {
    var s := FlightStops(e, t);
    n, end := s.n, s.slot;
    StopsByTotal(e, t, s, total);
  }

  /** The same for a synchronous transfer that is not rejected and whose `start` is not interrupted. */
  lemma SyncLaw(e: Env, t: Tr, reading: bool, addr: u8, buf: Ptr, len: nat, total: nat) returns (end: nat, n: nat)
    requires Sound(e, t) && BufferOk(buf, len, e.ramSize) && !Rejected(addr, buf, len) && Undisturbed(e, t)
    requires total == Sum(e.arrivals, t.slot, e.maxWaits)
    ensures var started := StartTransfer(t, Request(reading, addr, buf, len, None));
            && Flying(e, started)
            && SyncTransfer(e, t, reading, addr, buf, len)
               == match Taken(e, started, total).verdict
                  case Some(r) => Returned(Reached(started, Taken(e, started, total)).(slot := end), r)
                  case None => Returned(Abort(After(e, started, n, end)), Timeout)
  {
    var q := Request(reading, addr, buf, len, None);
    StartFlies(e, t, q);
    SyncIsWait(e, t, reading, addr, buf, len);
    end, n := FlightLaw(e, StartTransfer(t, q), total);
  }

  lemma SyncIsWait(e: Env, t: Tr, reading: bool, addr: u8, buf: Ptr, len: nat)
    requires Sound(e, t) && BufferOk(buf, len, e.ramSize) && !Rejected(addr, buf, len) && Undisturbed(e, t)
    ensures var started := StartTransfer(t, Request(reading, addr, buf, len, None));
            && Sound(e, started)
            && SyncTransfer(e, t, reading, addr, buf, len) == WaitLoop(e, NextSlot(e, started), e.maxWaits)
  {
    BegunIsStart(e, t, Request(reading, addr, buf, len, None));
  }

  /** The interrupts before the watchdog's last look at `done` are enough for the transfer. */
  ghost predicate InTime(e: Env, t: Tr, reading: bool, addr: u8, buf: Ptr, len: nat)
    requires Sound(e, t) && BufferOk(buf, len, e.ramSize)
  {
    Rejected(addr, buf, len) ||
    Taken(e, StartTransfer(t, Request(reading, addr, buf, len, None)),
          Sum(e.arrivals, t.slot, e.maxWaits)).verdict.Some?
  }

  // ----- Memory

  /** What a transfer of `job.n` bytes may do to memory: a write nothing, a read only to those cells. */
  predicate Within(ram: seq<u8>, ram': seq<u8>, job: Job) {
    && |ram'| == |ram|
    && (!job.reading ==> ram' == ram)
    && forall k | 0 <= k < |ram| && !(job.at <= k < job.at + job.n) :: ram'[k] == ram[k]
  }

  lemma {:induction false} InterruptsWithin(world: World, b: Bus, job: Job, i: nat, n: nat)
    requires Fits(job, b.ram) && i <= job.n
    ensures var o := Interrupts(world, b, job, i, n); Within(b.ram, o.bus.ram, job.(n := o.i))
    decreases n
  {
    if n > 0 {
      IsrBound(world, b, job, i);
      var o := IsrLoop(world, b, job, i);
      if o.verdict.None? { InterruptsWithin(world, o.bus, job, o.i, n - 1); }
    }
  }

  lemma WithinOn(ram: seq<u8>, ram1: seq<u8>, ram2: seq<u8>, job: Job)
    requires Within(ram, ram1, job) && Within(ram1, ram2, job)
    ensures Within(ram, ram2, job)
  {
  }

  /** The memory a record lets a handler store into is the job's, and no callback is called. */
  predicate Confined(x: Xfer, job: Job) {
    x.cb.None? && (x.rn == 0 || (job.reading && x.rx == At(job.at) && x.rn == job.n))
  }

  lemma HandleIrqWithin(e: Env, t: Tr, job: Job)
    requires Sound(e, t) && Confined(t.x, job)
    ensures Confined(HandleIrq(e, t).x, job) && Within(t.bus.ram, HandleIrq(e, t).bus.ram, job)
  {
    IsrBound(e.world, t.bus, JobOf(t.x), IndexOf(t.x));
  }

  lemma {:induction false} DeliverWithin(e: Env, t: Tr, n: nat, job: Job)
    requires Sound(e, t) && Confined(t.x, job)
    ensures Confined(Deliver(e, t, n).x, job) && Within(t.bus.ram, Deliver(e, t, n).bus.ram, job)
    decreases n
  {
    if n > 0 && IntsOn(t.bus.regs.c) {
      HandleIrqWithin(e, t, job);
      DeliverWithin(e, HandleIrq(e, t), n - 1, job);
      WithinOn(t.bus.ram, HandleIrq(e, t).bus.ram, Deliver(e, t, n).bus.ram, job);
    }
  }

  lemma NextSlotWithin(e: Env, t: Tr, job: Job)
    requires Sound(e, t) && Confined(t.x, job)
    ensures Confined(NextSlot(e, t).x, job) && Within(t.bus.ram, NextSlot(e, t).bus.ram, job)
  {
    DeliverWithin(e, t.(slot := t.slot + 1), e.arrivals(t.slot), job);
  }

  lemma {:induction false} WaitWithin(e: Env, t: Tr, checks: nat, job: Job)
    requires Sound(e, t) && Confined(t.x, job)
    ensures Within(t.bus.ram, WaitLoop(e, t, checks).t.bus.ram, job)
    decreases checks
  {
    if checks > 0 && !t.x.done {
      NextSlotWithin(e, t, job);
      WaitWithin(e, NextSlot(e, t), checks - 1, job);
      WithinOn(t.bus.ram, NextSlot(e, t).bus.ram, WaitLoop(e, t, checks).t.bus.ram, job);
    }
  }

  lemma StepConfined(t: Tr, q: Request, k: nat)
    requires k < STEPS && q.cb.None? && q.buf.At? && (k > 0 ==> Confined(t.x, Job(q.reading, q.buf.addr, q.len)))
    ensures Confined(StartStep(t, q, k).x, Job(q.reading, q.buf.addr, q.len)) && StartStep(t, q, k).bus.ram == t.bus.ram
  {
  }

  lemma {:induction false} PrologueWithin(e: Env, t: Tr, q: Request, n: nat)
    requires Sound(e, t) && BufferOk(q.buf, q.len, e.ramSize) && q.buf.At? && n <= STEPS && q.cb.None?
    ensures var job := Job(q.reading, q.buf.addr, q.len);
            && Within(t.bus.ram, Prologue(e, t, q, n).bus.ram, job)
            && (n > 0 ==> Confined(Prologue(e, t, q, n).x, job))
    decreases n
  {
    if n > 0 {
      var job := Job(q.reading, q.buf.addr, q.len);
      var before := Prologue(e, t, q, n - 1);
      var p := StartStep(before, q, n - 1);
      PrologueWithin(e, t, q, n - 1);
      PrologueNext(e, t, q, n, p);
      StepConfined(before, q, n - 1);
      DeliverWithin(e, p, e.inside(|t.owners|, n - 1), job);
      WithinOn(t.bus.ram, p.bus.ram, Prologue(e, t, q, n).bus.ram, job);
    }
  }

  /** A synchronous transfer changes no memory but its own read buffer, whatever was in flight before and however it is
      interrupted. */
  lemma SyncWithin(e: Env, t: Tr, reading: bool, addr: u8, buf: Ptr, len: nat)
    requires Sound(e, t) && BufferOk(buf, len, e.ramSize)
    ensures Within(t.bus.ram, SyncTransfer(e, t, reading, addr, buf, len).t.bus.ram,
                   Job(reading, if buf.At? then buf.addr else 0, len))
  {
    if !Rejected(addr, buf, len) {
      var q, job := Request(reading, addr, buf, len, None), Job(reading, buf.addr, len);
      var begun := Begun(e, t, q);
      PrologueWithin(e, t, q, STEPS);
      NextSlotWithin(e, begun, job);
      WaitWithin(e, NextSlot(e, begun), e.maxWaits, job);
      WithinOn(t.bus.ram, begun.bus.ram, NextSlot(e, begun).bus.ram, job);
      WithinOn(t.bus.ram, NextSlot(e, begun).bus.ram, SyncTransfer(e, t, reading, addr, buf, len).t.bus.ram, job);
    }
  }

  /** When the write phase of `write_read` fails the read phase never starts: the result is the write's and no memory
      has changed. */
  lemma FailedWriteStopsThere(e: Env, t: Tr, addr: u8, wbuf: Ptr, wlen: nat, rbuf: Ptr, rlen: nat)
    requires Sound(e, t) && BufferOk(wbuf, wlen, e.ramSize) && BufferOk(rbuf, rlen, e.ramSize)
    requires SyncTransfer(e, t, false, addr, wbuf, wlen).r != Ok
    ensures SyncWriteRead(e, t, addr, wbuf, wlen, rbuf, rlen) == SyncTransfer(e, t, false, addr, wbuf, wlen)
    ensures SyncWriteRead(e, t, addr, wbuf, wlen, rbuf, rlen).t.bus.ram == t.bus.ram
  {
    SyncWithin(e, t, false, addr, wbuf, wlen);
  }
}
