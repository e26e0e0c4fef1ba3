/**
 The callbacks of the interrupt-driven transport over whole runs: who is called, with what, how often, and exactly when
 a callback is lost. Nothing here depends on where the interrupts come, inside a `start` or not.
 */
module IrqBooks {
  import opened Common
  import opened BscRegisters
  import opened Transfers
  import opened IrqTransfers
  import opened IrqStarts
  import opened IrqRuns

  // ----- History

  /** The results transfer `id` was finalized with, in order. */
  function Finishes(h: seq<Event>, id: int): seq<I2cResult> {
    if h == [] then []
    else
      var rest, last := Finishes(h[..|h| - 1], id), h[|h| - 1];
      if last.Finished? && last.id == id then rest + [last.r] else rest
  }

  /** The calls made to the callback of transfer `id`. */
  function Firings(h: seq<Event>, id: int): seq<(nat, I2cResult)> {
    if h == [] then []
    else
      var rest, last := Firings(h[..|h| - 1], id), h[|h| - 1];
      if last.Fired? && last.id == id then rest + [(last.token, last.r)] else rest
  }

  lemma HistoryAppend(h: seq<Event>, ev: Event, id: int)
    ensures Finishes(h + [ev], id)
         == if ev.Finished? && ev.id == id then Finishes(h, id) + [ev.r] else Finishes(h, id)
    ensures Firings(h + [ev], id)
         == if ev.Fired? && ev.id == id then Firings(h, id) + [(ev.token, ev.r)] else Firings(h, id)
  {
    assert (h + [ev])[..|h|] == h;
  }

  /** What the client is owed for one transfer: its callback once, with the result it was first finalized with. */
  function Owed(owner: Option<nat>, finishes: seq<I2cResult>): seq<(nat, I2cResult)> {
    if owner.None? || finishes == [] then [] else [(owner.value, finishes[0])]
  }

  // ----- The books

  ghost predicate Paid(t: Tr, id: int)
    requires 0 <= id < |t.owners|
  {
    Firings(t.history, id) == Owed(t.owners[id], Finishes(t.history, id))
  }

  /** The accounts balance: the record holds a callback only if it is that of the last transfer, which has not been
      finalized yet; no started transfer has been called otherwise than it was owed, and none beyond them at all. */
  ghost predicate Accounts(t: Tr) {
    var last := |t.owners| - 1;
    && (t.x.cb.Some? ==> last >= 0 && t.x.cb == t.owners[last] && Finishes(t.history, last) == [])
    && (t.x.active ==> last >= 0 && (t.x.cb == t.owners[last] || Finishes(t.history, last) != []))
    && (forall id | 0 <= id < |t.owners| :: Paid(t, id))
    && (forall id | id >= |t.owners| :: Finishes(t.history, id) == [] && Firings(t.history, id) == [])
  }

  /** The last transfer's callback, if it is still owed a call, is where the handler finds it. */
  predicate Due(t: Tr) {
    var last := |t.owners| - 1;
    last >= 0 && t.owners[last].Some? && Finishes(t.history, last) == [] ==> t.x.cb == t.owners[last]
  }

  ghost predicate Books(t: Tr) {
    Accounts(t) && Due(t) && (t.x.cb.Some? ==> t.x.active)
  }

  /** Books that differ in nothing they look at. */
  lemma SameAccounts(t: Tr, t': Tr)
    requires Accounts(t) && t'.owners == t.owners && t'.history == t.history
    requires t'.x.cb == t.x.cb && t'.x.active == t.x.active
    ensures Accounts(t') && (Due(t) ==> Due(t')) && (Books(t) ==> Books(t'))
  {
    forall id | 0 <= id < |t'.owners| ensures Paid(t', id) { assert Paid(t, id); }
  }

  /** A transfer more, with nothing recorded about it yet. */
  lemma OneMoreOwner(t: Tr, t': Tr, cb: Option<nat>)
    requires Accounts(t) && t'.owners == t.owners + [cb] && t'.history == t.history
    requires (t'.x.cb.Some? ==> t'.x.cb == cb) && (t'.x.active ==> t'.x.cb == cb)
    ensures Accounts(t') && Finishes(t'.history, |t.owners|) == []
  {
    forall id | 0 <= id < |t'.owners| ensures Paid(t', id) {
      if id < |t.owners| { assert Paid(t, id); }
    }
  }

  lemma StartKeepsBooks(t: Tr, q: Request)
    requires Accounts(t)
    ensures Books(StartTransfer(t, q))
  {
    OneMoreOwner(t, StartTransfer(t, q), q.cb);
  }

  lemma {:induction false} IssueKeepsBooks(t: Tr, qs: seq<Request>)
    requires Books(t)
    ensures Books(Issue(t, qs)) && |t.owners| <= |Issue(t, qs).owners|
    decreases |qs|
  {
    if qs != [] {
      if !Refused(t, qs[0]) { StartKeepsBooks(t, qs[0]); }
      IssueKeepsBooks(StartAsync(t, qs[0]), qs[1..]);
    }
  }

  lemma SettlementPays(h: seq<Event>, h': seq<Event>, charged: int, last: int, cb: Option<nat>, r: I2cResult, k: int)
    requires h' == h + Settlement(charged, last, cb, r)
    ensures Finishes(h', k) == if k == charged then Finishes(h, k) + [r] else Finishes(h, k)
    ensures Firings(h', k) == if cb.Some? && k == last then Firings(h, k) + [(cb.value, r)] else Firings(h, k)
  {
    var h1 := h + [Finished(charged, r)];
    HistoryAppend(h, Finished(charged, r), k);
    if cb.Some? {
      assert h' == h1 + [Fired(last, cb.value, r)];
      HistoryAppend(h1, Fired(last, cb.value, r), k);
    }
  }

  lemma SettledPaid(t: Tr, t': Tr, r: I2cResult, id: int)
    requires Accounts(t) && t'.owners == t.owners && 0 <= id < |t.owners|
    requires t'.history == t.history + Settlement(Charged(t), |t.owners| - 1, t.x.cb, r)
    ensures Paid(t', id)
  {
    assert Paid(t, id);
    SettlementPays(t.history, t'.history, Charged(t), |t.owners| - 1, t.x.cb, r, id);
  }

  /** Finalizing keeps the accounts; if it makes a call, all that is due has been paid. */
  lemma SettledAccounts(t: Tr, t': Tr, r: I2cResult)
    requires Accounts(t) && t'.owners == t.owners && !t'.x.active && t'.x.cb.None?
    requires t'.history == t.history + Settlement(Charged(t), |t.owners| - 1, t.x.cb, r)
    ensures Accounts(t') && (Due(t) || t.x.cb.Some? ==> Books(t'))
  {
    var last := |t.owners| - 1;
    SettlementPays(t.history, t'.history, Charged(t), last, t.x.cb, r, last);
    forall id | 0 <= id < |t'.owners| ensures Paid(t', id) {
      SettledPaid(t, t', r, id);
    }
    forall id | id >= |t'.owners| ensures Finishes(t'.history, id) == [] && Firings(t'.history, id) == [] {
      SettlementPays(t.history, t'.history, Charged(t), last, t.x.cb, r, id);
    }
  }

  /** An interrupt keeps the accounts at any moment, and the books. */
  lemma HandleIrqKeepsBooks(e: Env, t: Tr)
    requires Sound(e, t) && Accounts(t)
    ensures var t' := HandleIrq(e, t);
            && Accounts(t') && (Due(t) ==> Due(t')) && (Books(t) ==> Books(t')) && |t.owners| <= |t'.owners|
  {
    var p := Pumped(e, t);
    SameAccounts(t, p);
    match IsrLoop(e.world, t.bus, JobOf(t.x), IndexOf(t.x)).verdict
    case None =>
    case Some(r) =>
      FinalizeIs(e, p, r);
      SettledAccounts(p, Settled(p, r), r);
      if p.x.cb.Some? { IssueKeepsBooks(Settled(p, r), e.client(p.x.cb.value, r)); }
  }

  lemma {:induction false} DeliverKeepsBooks(e: Env, t: Tr, n: nat)
    requires Sound(e, t) && Accounts(t)
    ensures var t' := Deliver(e, t, n);
            && Accounts(t') && (Due(t) ==> Due(t')) && (Books(t) ==> Books(t')) && |t.owners| <= |t'.owners|
    decreases n
  {
    if n > 0 && IntsOn(t.bus.regs.c) {
      HandleIrqKeepsBooks(e, t);
      DeliverKeepsBooks(e, HandleIrq(e, t), n - 1);
    }
  }

  // ----- The books inside `start`

  /** While the record is being filled in: the new transfer is on the books, and nothing can be recorded about it. */
  ghost predicate Filling(t0: Tr, q: Request, t: Tr) {
    && Accounts(t) && !t.x.active && t.x.cb.None? && t.owners == t0.owners + [q.cb]
    && Finishes(t.history, |t0.owners|) == []
  }

  lemma HandleIrqKeepsFilling(e: Env, t0: Tr, q: Request, t: Tr)
    requires Sound(e, t) && Filling(t0, q, t)
    ensures Filling(t0, q, HandleIrq(e, t))
  {
    var p := Pumped(e, t);
    SameAccounts(t, p);
    match IsrLoop(e.world, t.bus, JobOf(t.x), IndexOf(t.x)).verdict
    case None =>
    case Some(r) =>
      FinalizeIs(e, p, r);
      SettledAccounts(p, Settled(p, r), r);
      SettlementPays(p.history, Settled(p, r).history, Charged(p), |p.owners| - 1, p.x.cb, r, |t0.owners|);
  }

  lemma {:induction false} DeliverKeepsFilling(e: Env, t0: Tr, q: Request, t: Tr, n: nat)
    requires Sound(e, t) && Filling(t0, q, t)
    ensures Filling(t0, q, Deliver(e, t, n))
    decreases n
  {
    if n > 0 && IntsOn(t.bus.regs.c) {
      HandleIrqKeepsFilling(e, t0, q, t);
      DeliverKeepsFilling(e, t0, q, HandleIrq(e, t), n - 1);
    }
  }

  /** How the books stand after `n` steps of `start`. */
  ghost predicate Standing(t0: Tr, q: Request, t: Tr, n: nat) {
    if n == 0 then Accounts(t) && t == t0
    else if n <= 4 then Filling(t0, q, t)
    else if n == 5 then Accounts(t) && Due(t) && t.owners != []
    else Books(t)
  }

  lemma StepStands(t0: Tr, q: Request, t: Tr, n: nat)
    requires n < STEPS && Standing(t0, q, t, n)
    ensures Standing(t0, q, StartStep(t, q, n), n + 1)
  {
    var t' := StartStep(t, q, n);
    if n == 0 {
      OneMoreOwner(t, t', q.cb);
    } else if n == 4 {
      assert t.owners[|t.owners| - 1] == q.cb;
      forall id | 0 <= id < |t'.owners| ensures Paid(t', id) { assert Paid(t, id); }
    } else if n == 5 {
      forall id | 0 <= id < |t'.owners| ensures Paid(t', id) { assert Paid(t, id); }
    } else {
      SameAccounts(t, t');
    }
  }

  lemma {:induction false} PrologueStands(e: Env, t: Tr, q: Request, n: nat)
    requires Sound(e, t) && BufferOk(q.buf, q.len, e.ramSize) && !q.buf.Null? && n <= STEPS && Accounts(t)
    ensures Standing(t, q, Prologue(e, t, q, n), n)
    decreases n
  {
    if n > 0 {
      var p := StartStep(Prologue(e, t, q, n - 1), q, n - 1);
      PrologueStands(e, t, q, n - 1);
      StepStands(t, q, Prologue(e, t, q, n - 1), n - 1);
      PrologueNext(e, t, q, n, p);
      if n <= 4 {
        DeliverKeepsFilling(e, t, q, p, e.inside(|t.owners|, n - 1));
      } else {
        DeliverKeepsBooks(e, p, e.inside(|t.owners|, n - 1));
      }
    }
  }

  /** `start` keeps the books, wherever interrupts come, even if it displaces a transfer in flight. */
  lemma BegunKeepsBooks(e: Env, t: Tr, q: Request)
    requires Sound(e, t) && BufferOk(q.buf, q.len, e.ramSize) && !q.buf.Null? && Accounts(t)
    ensures Books(Begun(e, t, q))
  {
    PrologueStands(e, t, q, STEPS);
    SameAccounts(Prologue(e, t, q, STEPS), Begun(e, t, q));
  }

  // ----- Growth: what is recorded from `t` to `t'`

  predicate SameRecord(t: Tr, t': Tr, id: int) {
    Finishes(t'.history, id) == Finishes(t.history, id) && Firings(t'.history, id) == Firings(t.history, id)
  }

  predicate Unpaid(t: Tr, id: int) {
    0 <= id < |t.owners| && t.owners[id].Some? && Finishes(t.history, id) == []
  }

  ghost predicate UnpaidBetween(t: Tr, n: int, m: int) {
    exists id :: Unpaid(t, id) && n <= id < m
  }

  /** Nothing more is recorded about the transfers before the last one, and those that have been followed by another
      since have been finalized. */
  ghost predicate Grows(t: Tr, t': Tr) {
    && |t.owners| <= |t'.owners| && t'.owners[..|t.owners|] == t.owners
    && (forall id | 0 <= id < |t.owners| - 1 :: SameRecord(t, t', id))
    && !UnpaidBetween(t', |t.owners| - 1, |t'.owners| - 1)
  }

  lemma GrowsOn(t: Tr, t1: Tr, t2: Tr)
    requires Grows(t, t1) && Grows(t1, t2)
    ensures Grows(t, t2)
  {
    assert t2.owners[..|t.owners|] == t2.owners[..|t1.owners|][..|t.owners|];
    forall id | 0 <= id < |t.owners| - 1 ensures SameRecord(t, t2, id) {
      assert SameRecord(t, t1, id) && SameRecord(t1, t2, id);
    }
    forall id | |t.owners| - 1 <= id < |t2.owners| - 1 ensures !Unpaid(t2, id) {
      if 0 <= id < |t1.owners| - 1 {
        assert SameRecord(t1, t2, id) && t2.owners[..|t1.owners|][id] == t2.owners[id];
        if Unpaid(t1, id) { assert UnpaidBetween(t1, |t.owners| - 1, |t1.owners| - 1); }
      } else if Unpaid(t2, id) {
        assert UnpaidBetween(t2, |t1.owners| - 1, |t2.owners| - 1);
      }
    }
  }

  lemma Unrecorded(t: Tr, t': Tr)
    requires t'.owners == t.owners && t'.history == t.history
    ensures Grows(t, t')
  {
    assert t'.owners[..|t.owners|] == t.owners;
  }

  /** Finalizing concerns the last transfer only. */
  lemma SettledGrows(t: Tr, r: I2cResult)
    ensures Grows(t, Settled(t, r))
    ensures t.x.cb.Some? ==> Finishes(Settled(t, r).history, |t.owners| - 1) != []
  {
    var t', last := Settled(t, r), |t.owners| - 1;
    assert t'.owners[..|t.owners|] == t.owners;
    forall id | 0 <= id < last ensures SameRecord(t, t', id) {
      SettlementPays(t.history, t'.history, Charged(t), last, t.x.cb, r, id);
    }
    SettlementPays(t.history, t'.history, Charged(t), last, t.x.cb, r, last);
  }

  lemma StartGrows(t: Tr, q: Request)
    requires !Unpaid(t, |t.owners| - 1)
    ensures Grows(t, StartTransfer(t, q))
  {
    assert StartTransfer(t, q).owners[..|t.owners|] == t.owners;
  }

  lemma FinalizeGrows(e: Env, t: Tr, r: I2cResult)
    requires Sound(e, t)
    ensures Grows(t, Finalize(e, t, r)) && (t.x.cb.None? ==> Finalize(e, t, r).owners == t.owners)
  {
    FinalizeIs(e, t, r);
    SettledGrows(t, r);
    if t.x.cb.Some? {
      var s, qs := Settled(t, r), e.client(t.x.cb.value, r);
      IssueStartsOne(s, qs);
      if Issue(s, qs) != s {
        var k :| 0 <= k < |qs| && Issue(s, qs) == StartTransfer(s, qs[k]);
        StartGrows(s, qs[k]);
        GrowsOn(t, s, Issue(s, qs));
      }
    }
  }

  /** An interrupt starts a transfer only after finalizing the last one. */
  lemma HandleIrqGrows(e: Env, t: Tr)
    requires Sound(e, t)
    ensures Grows(t, HandleIrq(e, t))
    ensures t.x.cb.None? ==> HandleIrq(e, t).owners == t.owners && HandleIrq(e, t).x.cb.None?
  {
    var p := Pumped(e, t);
    Unrecorded(t, p);
    match IsrLoop(e.world, t.bus, JobOf(t.x), IndexOf(t.x)).verdict
    case None =>
    case Some(r) =>
      FinalizeGrows(e, p, r);
      GrowsOn(t, p, HandleIrq(e, t));
      FinalizeIs(e, p, r);
  }

  lemma {:induction false} DeliverGrows(e: Env, t: Tr, n: nat)
    requires Sound(e, t)
    ensures Grows(t, Deliver(e, t, n))
    ensures t.x.cb.None? ==> Deliver(e, t, n).owners == t.owners && Deliver(e, t, n).x.cb.None?
    decreases n
  {
    Unrecorded(t, t);
    if n > 0 && IntsOn(t.bus.regs.c) {
      HandleIrqGrows(e, t);
      DeliverGrows(e, HandleIrq(e, t), n - 1);
      GrowsOn(t, HandleIrq(e, t), Deliver(e, t, n));
    }
  }

  /** `t` has come from `s`, where its transfer was put on the books. */
  ghost predicate GrownFrom(s: Tr, q: Request, t: Tr) {
    Grows(s, t) && (q.cb.None? ==> t.x.cb.None? && t.owners == s.owners)
  }

  lemma StepGrows(s: Tr, q: Request, t: Tr, n: nat)
    requires 0 < n < STEPS && GrownFrom(s, q, t)
    ensures GrownFrom(s, q, StartStep(t, q, n))
  {
    Unrecorded(t, StartStep(t, q, n));
    GrowsOn(s, t, StartStep(t, q, n));
  }

  lemma DeliverGrowsOn(e: Env, s: Tr, q: Request, t: Tr, n: nat)
    requires Sound(e, t) && GrownFrom(s, q, t)
    ensures GrownFrom(s, q, Deliver(e, t, n))
  {
    DeliverGrows(e, t, n);
    GrowsOn(s, t, Deliver(e, t, n));
  }

  lemma {:induction false} PrologueGrows(e: Env, t: Tr, q: Request, n: nat)
    requires Sound(e, t) && BufferOk(q.buf, q.len, e.ramSize) && !q.buf.Null? && 0 < n <= STEPS
    ensures GrownFrom(StartStep(t, q, 0), q, Prologue(e, t, q, n))
    decreases n
  {
    var s := StartStep(t, q, 0);
    var p := StartStep(Prologue(e, t, q, n - 1), q, n - 1);
    PrologueNext(e, t, q, n, p);
    if n == 1 {
      Unrecorded(s, p);
    } else {
      PrologueGrows(e, t, q, n - 1);
      StepGrows(s, q, Prologue(e, t, q, n - 1), n - 1);
    }
    DeliverGrowsOn(e, s, q, p, e.inside(|t.owners|, n - 1));
  }

  lemma BegunGrows(e: Env, t: Tr, q: Request)
    requires Sound(e, t) && BufferOk(q.buf, q.len, e.ramSize) && !q.buf.Null?
    ensures GrownFrom(StartStep(t, q, 0), q, Begun(e, t, q))
  {
    var p := Prologue(e, t, q, STEPS);
    PrologueGrows(e, t, q, STEPS);
    Unrecorded(p, Begun(e, t, q));
    GrowsOn(StartStep(t, q, 0), p, Begun(e, t, q));
  }

  // ----- Synchronous calls

  /** A synchronous call under way: its own transfer, which has no callback, is the last one. */
  ghost predicate Bare(s: Tr, q: Request, t: Tr) {
    && q.cb.None? && GrownFrom(s, q, t) && Books(t)
    && s.owners != [] && s.owners[|s.owners| - 1].None?
  }

  lemma NextSlotKeepsBare(e: Env, s: Tr, q: Request, t: Tr)
    requires Sound(e, t) && Bare(s, q, t)
    ensures Bare(s, q, NextSlot(e, t))
  {
    var t1 := t.(slot := t.slot + 1);
    SameAccounts(t, t1);
    DeliverKeepsBooks(e, t1, e.arrivals(t.slot));
    Unrecorded(t, t1);
    GrowsOn(s, t, t1);
    DeliverGrowsOn(e, s, q, t1, e.arrivals(t.slot));
  }

  lemma AbortKeepsBare(s: Tr, q: Request, t: Tr)
    requires Bare(s, q, t)
    ensures Bare(s, q, Abort(t))
  {
    var t' := Abort(t);
    forall id | 0 <= id < |t'.owners| ensures Paid(t', id) { assert Paid(t, id); }
    Unrecorded(t, t');
    GrowsOn(s, t, t');
  }

  lemma {:induction false} WaitKeepsBare(e: Env, s: Tr, q: Request, t: Tr, checks: nat)
    requires Sound(e, t) && Bare(s, q, t)
    ensures Bare(s, q, WaitLoop(e, t, checks).t)
    decreases checks
  {
    if checks == 0 {
      AbortKeepsBare(s, q, t);
    } else if !t.x.done {
      NextSlotKeepsBare(e, s, q, t);
      WaitKeepsBare(e, s, q, NextSlot(e, t), checks - 1);
    }
  }

  lemma SyncIsBare(e: Env, t: Tr, q: Request, t': Tr, r: I2cResult)
    requires Sound(e, t) && Books(t) && BufferOk(q.buf, q.len, e.ramSize) && !Rejected(q.addr, q.buf, q.len)
    requires q.cb.None? && SyncTransfer(e, t, q.reading, q.addr, q.buf, q.len) == Returned(t', r)
    ensures Bare(StartStep(t, q, 0), q, t')
  {
    var s, b := StartStep(t, q, 0), Begun(e, t, q);
    BegunKeepsBooks(e, t, q);
    BegunGrows(e, t, q);
    NextSlotKeepsBare(e, s, q, b);
    WaitKeepsBare(e, s, q, NextSlot(e, b), e.maxWaits);
  }

  // ----- Runs

  /** A synchronous call that displaces a transfer whose callback has not been called. */
  predicate Displaces(t: Tr, a: Act) {
    Displacing(t, a) && t.x.cb.Some?
  }

  predicate Displaced(e: Env, t: Tr, acts: seq<Act>)
    requires Sound(e, t) && LegalRun(e, acts)
    decreases |acts|
  {
    acts != [] && (Displaces(t, acts[0]) || Displaced(e, Do(e, t, acts[0]), acts[1..]))
  }

  /** What one operation from `t` to `t'` does to the books: it leaves a callback unpaid iff it displaces it. */
  ghost predicate Moves(t: Tr, t': Tr, displaces: bool) {
    && Books(t') && |t.owners| <= |t'.owners| && t'.owners[..|t.owners|] == t.owners
    && (forall id | 0 <= id < |t.owners| - 1 :: SameRecord(t, t', id))
    && (UnpaidBetween(t', |t.owners| - 1, |t'.owners| - 1) <==> displaces)
  }

  /** By the books the last transfer's callback is still to be called iff it is in flight and has one. */
  lemma DueIs(t: Tr)
    requires Books(t)
    ensures Unpaid(t, |t.owners| - 1) <==> t.x.cb.Some?
    ensures t.x.cb.Some? ==> t.x.active
  {
  }

  lemma StartMoves(t: Tr, q: Request, t': Tr)
    requires Books(t) && Books(t') && Grows(StartStep(t, q, 0), t')
    ensures Moves(t, t', t.x.cb.Some?)
  {
    var s, last := StartStep(t, q, 0), |t.owners| - 1;
    DueIs(t);
    assert t'.owners[..|t.owners|] == t'.owners[..|s.owners|][..|t.owners|];
    forall id | 0 <= id < |t.owners| ensures SameRecord(t, t', id) && t'.owners[id] == t.owners[id] {
      assert SameRecord(s, t', id) && t'.owners[..|t.owners|][id] == t'.owners[id];
    }
    assert Unpaid(t', last) <==> Unpaid(t, last);
    if Unpaid(t, last) { assert UnpaidBetween(t', last, |t'.owners| - 1); }
    if UnpaidBetween(t', last, |t'.owners| - 1) {
      var id :| Unpaid(t', id) && last <= id < |t'.owners| - 1;
      if id > last { assert UnpaidBetween(t', |s.owners| - 1, |t'.owners| - 1); }
    }
  }

  lemma DoMoves(e: Env, t: Tr, a: Act)
    requires Sound(e, t) && Books(t) && Legal(e, a)
    ensures Moves(t, Do(e, t, a), Displaces(t, a))
  {
    Unrecorded(t, t);
    match a
    case Async(q) =>
      if !Refused(t, q) {
        BegunKeepsBooks(e, t, q);
        BegunGrows(e, t, q);
        StartMoves(t, q, Begun(e, t, q));
      }
    case Interrupt =>
      HandleIrqKeepsBooks(e, t);
      HandleIrqGrows(e, t);
    case Sync(reading, addr, buf, len) =>
      if !Rejected(addr, buf, len) {
        var q := Request(reading, addr, buf, len, None);
        var Returned(t', r) := SyncTransfer(e, t, reading, addr, buf, len);
        SyncIsBare(e, t, q, t', r);
        StartMoves(t, q, t');
      }
  }

  lemma {:induction false} RunKeepsBooks(e: Env, t: Tr, acts: seq<Act>)
    requires Sound(e, t) && Books(t) && LegalRun(e, acts)
    ensures Books(Run(e, t, acts))
    decreases |acts|
  {
    if acts != [] {
      DoMoves(e, t, acts[0]);
      RunKeepsBooks(e, Do(e, t, acts[0]), acts[1..]);
    }
  }

  /** Callback discipline over every run, synchronous calls at any time and interrupts
      inside them included: each accepted transfer's callback has
      been called at most once; exactly once, with the result the transfer was first finalized with, if it was
      finalized; and never if it was not. */
  lemma CallbacksOverRuns(e: Env, t: Tr, acts: seq<Act>, id: nat)
    requires Initial(t) && Sound(e, t) && LegalRun(e, acts)
    requires id < |Run(e, t, acts).owners|
    ensures var t' := Run(e, t, acts);
            var calls, ends := Firings(t'.history, id), Finishes(t'.history, id);
            && |calls| <= 1
            && (t'.owners[id].None? ==> calls == [])
            && (t'.owners[id].Some? && ends != [] ==> calls == [(t'.owners[id].value, ends[0])])
            && (t'.owners[id].Some? && ends == [] ==> calls == [])
  {
    RunKeepsBooks(e, t, acts);
    assert Paid(Run(e, t, acts), id);
  }

  // ----- Lost callbacks

  /** A callback the client will wait for in vain: its transfer has neither been finalized nor is it in flight. */
  ghost predicate Lost(t: Tr) {
    exists id :: Unpaid(t, id) && !(t.x.active && id == |t.owners| - 1)
  }

  /** By the books, every transfer but the last started is past. */
  lemma LostIsPast(t: Tr)
    requires Books(t)
    ensures Lost(t) <==> UnpaidBetween(t, 0, |t.owners| - 1)
  {
    DueIs(t);
  }

  lemma PastStays(t: Tr, t': Tr, displaces: bool)
    requires Moves(t, t', displaces)
    ensures UnpaidBetween(t, 0, |t.owners| - 1) <==> UnpaidBetween(t', 0, |t.owners| - 1)
  {
    forall id | 0 <= id < |t.owners| - 1 ensures Unpaid(t, id) <==> Unpaid(t', id) {
      assert SameRecord(t, t', id) && t'.owners[..|t.owners|][id] == t'.owners[id];
    }
  }

  lemma UnpaidParts(t: Tr, n: int, m: int)
    requires n <= m
    ensures UnpaidBetween(t, 0, m) <==> UnpaidBetween(t, 0, n) || UnpaidBetween(t, n, m)
  {
    forall id | Unpaid(t, id) && id < m ensures id < n || n <= id < m { }
  }

  /** One operation loses a callback iff it displaces its transfer. */
  lemma DoLoses(e: Env, t: Tr, a: Act)
    requires Sound(e, t) && Books(t) && Legal(e, a)
    ensures Books(Do(e, t, a)) && (Lost(Do(e, t, a)) <==> Lost(t) || Displaces(t, a))
  {
    var t' := Do(e, t, a);
    DoMoves(e, t, a);
    LostIsPast(t);
    LostIsPast(t');
    PastStays(t, t', Displaces(t, a));
    UnpaidParts(t', |t.owners| - 1, |t'.owners| - 1);
  }

  lemma {:induction false} LostFromThere(e: Env, t: Tr, acts: seq<Act>)
    requires Sound(e, t) && Books(t) && LegalRun(e, acts)
    ensures Lost(Run(e, t, acts)) <==> Lost(t) || Displaced(e, t, acts)
    decreases |acts|
  {
    if acts != [] {
      DoLoses(e, t, acts[0]);
      LostFromThere(e, Do(e, t, acts[0]), acts[1..]);
    }
  }

  /** Exactly when a callback is lost. In every run, some accepted transfer with a callback is neither in flight nor
      finalized, so that its callback will never be called, iff somewhere in the run a synchronous call that was not
      rejected came while a transfer with a callback was in flight. */
  lemma CallbackLostIff(e: Env, t: Tr, acts: seq<Act>)
    requires Initial(t) && Sound(e, t) && LegalRun(e, acts)
    ensures Lost(Run(e, t, acts)) <==> Displaced(e, t, acts)
  {
    LostFromThere(e, t, acts);
  }

  /** A lost callback is not called later either, whatever else the client does. */
  lemma {:induction false} LostForEver(e: Env, t: Tr, acts: seq<Act>, id: int)
    requires Sound(e, t) && Books(t) && LegalRun(e, acts)
    requires Unpaid(t, id) && id < |t.owners| - 1
    ensures var t' := Run(e, t, acts); Unpaid(t', id) && id < |t'.owners| - 1 && Firings(t'.history, id) == []
    decreases |acts|
  {
    if acts == [] {
      assert Paid(t, id);
    } else {
      var t1 := Do(e, t, acts[0]);
      DoMoves(e, t, acts[0]);
      assert SameRecord(t, t1, id) && t1.owners[..|t.owners|][id] == t1.owners[id];
      LostForEver(e, t1, acts[1..], id);
    }
  }

  // ----- Callbacks that start transfers

  /** A callback that starts a transfer finds the controller free, and the new transfer is untouched when the handler
      returns: its record is as `start` left it and its interrupts are on. */
  lemma CallbackMayStart(e: Env, t: Tr, r: I2cResult, k: nat)
    requires Sound(e, t) && Gates(t) && t.x.cb.Some?
    requires IsrLoop(e.world, t.bus, JobOf(t.x), IndexOf(t.x)).verdict == Some(r)
    requires k < |e.client(t.x.cb.value, r)|
    requires var qs := e.client(t.x.cb.value, r);
             && (forall j | 0 <= j < k :: Rejected(qs[j].addr, qs[j].buf, qs[j].len))
             && !Rejected(qs[k].addr, qs[k].buf, qs[k].len)
    ensures var q, t' := e.client(t.x.cb.value, r)[k], HandleIrq(e, t);
            && t'.x == StartXfer(q) && t'.x.active && t'.owners == t.owners + [q.cb]
            && t'.history == t.history + [Finished(|t.owners| - 1, r), Fired(|t.owners| - 1, t.x.cb.value, r)]
            && Gates(t')
  {
    var p := Pumped(e, t);
    FinalizeIs(e, p, r);
    IssueFirst(Settled(p, r), e.client(t.x.cb.value, r), k);
    HandleIrqKeepsGates(e, t);
  }
}
