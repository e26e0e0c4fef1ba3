/** How the polled loop follows the stream of status words, and exactly when its budget is enough. */
module PolledLaws {
  import opened BscRegisters
  import opened Transfers

  /** A word that does not end the transfer costs one spin. */
  lemma PolledAgain(world: World, b: Bus, job: Job, i: nat, spins: nat, b': Bus, i': nat)
    requires Fits(job, b.ram) && i <= job.n && spins > 0
    requires !Looking(world, b, job, i).Stop?
    requires b' == Step(world, b, job, i) && i' == StepIndex(world, b, job, i)
    ensures PolledLoop(world, b, job, i, spins) == PolledLoop(world, b', job, i', spins - 1)
  {
  }

  /** One that does is the last. */
  lemma PolledStops(world: World, b: Bus, job: Job, i: nat, spins: nat)
    requires Fits(job, b.ram) && i <= job.n && spins > 0 && Looking(world, b, job, i).Stop?
    ensures PolledLoop(world, b, job, i, spins) ==
            Outcome(b.(regs := Poll(world, b.regs)), i, Looking(world, b, job, i).r, false)
  {
  }

  /** Exact budget law of the polled loop: the verdict is returned iff its word is among the `spins` looked at. */
  lemma {:induction false} PolledBudget(world: World, b: Bus, job: Job, i: nat, spins: nat, m: nat)
    requires Fits(job, b.ram) && i <= job.n
    requires DecidesAt(world, b, job, i, m)
    ensures PolledLoop(world, b, job, i, spins)
         == if m < spins then
              var w := Advance(world, b, job, i, m + 1);
              Outcome(w.bus, w.i, VerdictAt(world, b, job, i, m), false)
            else
              var w := Advance(world, b, job, i, spins);
              Outcome(w.bus, w.i, Timeout, true)
    decreases spins
  {
    if spins > 0 && m > 0 {
      PolledBudget(world, Step(world, b, job, i), job, StepIndex(world, b, job, i), spins - 1, m - 1);
    } else if spins > 0 {
      assert Advance(world, b, job, i, 1) == Progress(Step(world, b, job, i), i);
    }
  }

  /** A loop that did not run out of budget met a deciding word. */
  lemma {:induction false} PolledDecides(world: World, b: Bus, job: Job, i: nat, spins: nat) returns (m: nat)
    requires Fits(job, b.ram) && i <= job.n
    requires !PolledLoop(world, b, job, i, spins).expired
    ensures m < spins && DecidesAt(world, b, job, i, m)
    decreases spins
  {
    if Looking(world, b, job, i).Stop? {
      m := 0;
    } else {
      var m' := PolledDecides(world, Step(world, b, job, i), job, StepIndex(world, b, job, i), spins - 1);
      m := m' + 1;
    }
  }

  /** Every word before the deciding one either moved a byte or was idle. */
  lemma {:induction false} MovedPlusIdle(world: World, b: Bus, job: Job, i: nat, m: nat)
    requires Fits(job, b.ram) && i <= job.n
    requires DecidesAt(world, b, job, i, m)
    ensures Advance(world, b, job, i, m).i - i + IdleWords(world, b, job, i, m) == m
    ensures Advance(world, b, job, i, m).i == Advance(world, b, job, i, m + 1).i
    decreases m
  {
    if m > 0 {
      MovedPlusIdle(world, Step(world, b, job, i), job, StepIndex(world, b, job, i), m - 1);
    } else {
      assert Advance(world, b, job, i, 1) == Progress(Step(world, b, job, i), i);
    }
  }

  /** Ok means that the read moved every byte it was asked for. */
  lemma {:induction false} OkMovesAll(world: World, b: Bus, job: Job, i: nat, m: nat)
    requires Fits(job, b.ram) && i <= job.n
    requires DecidesAt(world, b, job, i, m)
    ensures job.reading && VerdictAt(world, b, job, i, m) == Ok ==> Advance(world, b, job, i, m + 1).i == job.n
    ensures job.reading && VerdictAt(world, b, job, i, m) == Timeout ==> Advance(world, b, job, i, m + 1).i < job.n
    ensures !job.reading ==> VerdictAt(world, b, job, i, m) != Timeout
    ensures VerdictAt(world, b, job, i, m) != BadArg
    decreases m
  {
    if m > 0 {
      OkMovesAll(world, Step(world, b, job, i), job, StepIndex(world, b, job, i), m - 1);
    } else {
      assert Advance(world, b, job, i, 1) == Progress(Step(world, b, job, i), i);
    }
  }

  /** The budget law in the caller's terms: with T byte-moving words and I idle words before the deciding one,
      T + I + 1 spins are needed and enough; and a read can only return Ok with more spins than bytes. */
  lemma PolledSpinsNeeded(world: World, b: Bus, job: Job, spins: nat, m: nat)
    requires Fits(job, b.ram)
    requires DecidesAt(world, b, job, 0, m)
    ensures var o := PolledLoop(world, b, job, 0, spins);
            && (!o.expired <==> Advance(world, b, job, 0, m).i + IdleWords(world, b, job, 0, m) + 1 <= spins)
            && (o.expired ==> o.result == Timeout)
            && (!o.expired ==> o.result == VerdictAt(world, b, job, 0, m))
            && (job.reading && o.result == Ok ==> spins > job.n)
  {
    PolledBudget(world, b, job, 0, spins, m);
    MovedPlusIdle(world, b, job, 0, m);
    OkMovesAll(world, b, job, 0, m);
  }
}
