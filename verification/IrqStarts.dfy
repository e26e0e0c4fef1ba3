/**
 `start` step by step: when no interrupt can come in between, because none is enabled or none arrives, it is the one
 step `StartTransfer`.
 */
module IrqStarts {
  import opened Common
  import opened BscRegisters
  import opened Transfers
  import opened IrqTransfers

  /** No interrupt arrives inside the `id`-th start. */
  ghost predicate Calm(e: Env, id: nat) {
    forall k: nat | k < STEPS :: e.inside(id, k) == 0
  }

  /** The next start is not interrupted. */
  ghost predicate Undisturbed(e: Env, t: Tr) {
    !IntsOn(t.bus.regs.c) || Calm(e, |t.owners|)
  }

  /** The first `n` steps, one after the other. */
  function Plain(t: Tr, q: Request, n: nat): Tr
    requires n <= STEPS
    decreases q.len + n
  {
    if n == 0 then t else StartStep(Plain(t, q, n - 1), q, n - 1)
  }

  lemma StepKeepsInts(t: Tr, q: Request, k: nat)
    requires k < STEPS
    ensures IntsOn(StartStep(t, q, k).bus.regs.c) == IntsOn(t.bus.regs.c)
  {
    if k >= 6 { CallKeepsInts(t.bus.regs, q, k - 6); }
  }

  lemma CallKeepsInts(r: Regs, q: Request, k: nat)
    requires k < 6
    ensures IntsOn(Called(r, SetUpCalls(q.addr, q.len)[k]).c) == IntsOn(r.c)
  {
  }

  lemma NothingArrives(e: Env, t: Tr, n: nat)
    requires Sound(e, t) && (n == 0 || !IntsOn(t.bus.regs.c))
    ensures Deliver(e, t, n) == t
  {
  }

  lemma PrologueNext(e: Env, t: Tr, q: Request, n: nat, p: Tr)
    requires Sound(e, t) && BufferOk(q.buf, q.len, e.ramSize) && !q.buf.Null? && 0 < n <= STEPS
    requires p == StartStep(Prologue(e, t, q, n - 1), q, n - 1)
    ensures Sound(e, p) && Prologue(e, t, q, n) == Deliver(e, p, e.inside(|t.owners|, n - 1))
  {
    var _ := Prologue(e, t, q, n);
  }

  lemma PlainNext(e: Env, t: Tr, q: Request, n: nat, p: Tr)
    requires Sound(e, t) && BufferOk(q.buf, q.len, e.ramSize) && !q.buf.Null? && 0 < n <= STEPS
    requires p == StartStep(Prologue(e, t, q, n - 1), q, n - 1)
    requires e.inside(|t.owners|, n - 1) == 0 || !IntsOn(p.bus.regs.c)
    ensures Prologue(e, t, q, n) == p
  {
    PrologueNext(e, t, q, n, p);
    NothingArrives(e, p, e.inside(|t.owners|, n - 1));
  }

  lemma {:induction false} PlainKeepsInts(t: Tr, q: Request, n: nat)
    requires n <= STEPS
    ensures IntsOn(Plain(t, q, n).bus.regs.c) == IntsOn(t.bus.regs.c)
    decreases n
  {
    if n > 0 {
      PlainKeepsInts(t, q, n - 1);
      StepKeepsInts(Plain(t, q, n - 1), q, n - 1);
    }
  }

  /** No interrupt gets through after the steps from `from` on, the first of which finds `p`. */
  ghost predicate NoneBetween(e: Env, t: Tr, p: Tr, from: nat, n: nat) {
    !IntsOn(p.bus.regs.c) || forall k: nat | from <= k < n :: e.inside(|t.owners|, k) == 0
  }

  lemma {:induction false} PrologueIsPlain(e: Env, t: Tr, q: Request, n: nat)
    requires Sound(e, t) && BufferOk(q.buf, q.len, e.ramSize) && !q.buf.Null?
    requires n <= STEPS && NoneBetween(e, t, t, 0, n)
    ensures Prologue(e, t, q, n) == Plain(t, q, n)
    decreases n
  {
    if n > 0 {
      PrologueIsPlain(e, t, q, n - 1);
      PlainKeepsInts(t, q, n);
      PlainNext(e, t, q, n, Plain(t, q, n));
    }
  }

  lemma PlainRecord(t: Tr, q: Request)
    ensures Plain(t, q, 5) == t.(x := StartXfer(q).(active := false), owners := t.owners + [q.cb])
    ensures Plain(t, q, 6) == t.(x := StartXfer(q), owners := t.owners + [q.cb])
  {
    assert Plain(t, q, 1) == t.(x := Xfer(), owners := t.owners + [q.cb]);
    assert Plain(t, q, 2) == StartStep(Plain(t, q, 1), q, 1);
    assert Plain(t, q, 3) == StartStep(Plain(t, q, 2), q, 2);
    assert Plain(t, q, 4) == StartStep(Plain(t, q, 3), q, 3);
    assert Plain(t, q, 5) == StartStep(Plain(t, q, 4), q, 4);
  }

  // ----- From the first register access on

  function WithCalls(p: Tr, calls: seq<Call>): Tr {
    p.(bus := p.bus.(regs := AllCalled(p.bus.regs, calls)))
  }

  lemma {:induction false} CallsKeepInts(r: Regs, q: Request, n: nat)
    requires n <= 6
    ensures IntsOn(AllCalled(r, SetUpCalls(q.addr, q.len)[..n]).c) == IntsOn(r.c)
    decreases n
  {
    var calls := SetUpCalls(q.addr, q.len);
    if n > 0 {
      CallsKeepInts(r, q, n - 1);
      assert calls[..n] == calls[..n - 1] + [calls[n - 1]];
      NextCall(r, calls[..n - 1], calls[n - 1]);
      CallKeepsInts(AllCalled(r, calls[..n - 1]), q, n - 1);
    }
  }

  /** One access more. */
  lemma CallStep(p: Tr, q: Request, n: nat, r: Tr)
    requires 0 < n <= 6 && r == StartStep(WithCalls(p, SetUpCalls(q.addr, q.len)[..n - 1]), q, n + 5)
    ensures r == WithCalls(p, SetUpCalls(q.addr, q.len)[..n]) && IntsOn(r.bus.regs.c) == IntsOn(p.bus.regs.c)
  {
    var calls := SetUpCalls(q.addr, q.len);
    assert calls[..n] == calls[..n - 1] + [calls[n - 1]];
    NextCall(p.bus.regs, calls[..n - 1], calls[n - 1]);
    CallsKeepInts(p.bus.regs, q, n);
  }

  lemma {:induction false} OnlyCalls(e: Env, t: Tr, q: Request, p: Tr, n: nat)
    requires Sound(e, t) && BufferOk(q.buf, q.len, e.ramSize) && !q.buf.Null? && n <= 6
    requires p == Prologue(e, t, q, 6) && NoneBetween(e, t, p, 6, n + 6)
    ensures Prologue(e, t, q, n + 6) == WithCalls(p, SetUpCalls(q.addr, q.len)[..n])
    decreases n
  {
    if n == 0 {
      assert SetUpCalls(q.addr, q.len)[..0] == [];
    } else {
      OnlyCalls(e, t, q, p, n - 1);
      var r := StartStep(WithCalls(p, SetUpCalls(q.addr, q.len)[..n - 1]), q, n + 5);
      CallStep(p, q, n, r);
      PlainNext(e, t, q, n + 6, r);
    }
  }

  lemma LaunchedIsArmed(r: Regs, addr: nat, job: Job)
    ensures AllCalled(AllCalled(r, SetUpCalls(addr, job.n)), LaunchCalls(job.reading)) == Armed(r, addr, job)
  {
    var setUp, transfer := SetUpCalls(addr, job.n), TransferCalls(job.reading);
    MoreCalls(r, setUp, transfer + [Fenced]);
    assert setUp + (transfer + [Fenced]) == StartCalls(addr, job);
  }

  lemma {:induction false} PlainCalls(t: Tr, q: Request, n: nat)
    requires n <= 6
    ensures Plain(t, q, n + 6) == WithCalls(Plain(t, q, 6), SetUpCalls(q.addr, q.len)[..n])
    decreases n
  {
    if n == 0 {
      assert SetUpCalls(q.addr, q.len)[..0] == [];
    } else {
      PlainCalls(t, q, n - 1);
      CallStep(Plain(t, q, 6), q, n, StartStep(Plain(t, q, n + 5), q, n + 5));
    }
  }

  /** With no interrupts at all, the steps are the one step. */
  lemma LaunchedIsStart(t: Tr, q: Request)
    ensures Launched(Plain(t, q, STEPS), q.reading) == StartTransfer(t, q)
  {
    PlainCalls(t, q, 6);
    PlainRecord(t, q);
    assert SetUpCalls(q.addr, q.len)[..6] == SetUpCalls(q.addr, q.len);
    LaunchedIsArmed(t.bus.regs, q.addr, Job(q.reading, 0, q.len));
  }

  /** If none gets through once the record is complete, the rest of `start` is its register accesses. */
  lemma BegunFrom(e: Env, t: Tr, q: Request, p: Tr)
    requires Sound(e, t) && BufferOk(q.buf, q.len, e.ramSize) && !q.buf.Null?
    requires p == Prologue(e, t, q, 6) && NoneBetween(e, t, p, 6, STEPS)
    ensures Begun(e, t, q) == p.(bus := p.bus.(regs := Armed(p.bus.regs, q.addr, Job(q.reading, 0, q.len))))
  {
    OnlyCalls(e, t, q, p, 6);
    assert SetUpCalls(q.addr, q.len)[..6] == SetUpCalls(q.addr, q.len);
    LaunchedIsArmed(p.bus.regs, q.addr, Job(q.reading, 0, q.len));
  }

  /** A start that is not interrupted is one step. */
  lemma BegunIsStart(e: Env, t: Tr, q: Request)
    requires Sound(e, t) && BufferOk(q.buf, q.len, e.ramSize) && !q.buf.Null? && Undisturbed(e, t)
    ensures Begun(e, t, q) == StartTransfer(t, q)
  {
    PrologueIsPlain(e, t, q, 6);
    PlainRecord(t, q);
    BegunFrom(e, t, q, Plain(t, q, 6));
  }
}
