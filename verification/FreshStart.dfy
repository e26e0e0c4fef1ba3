/**
 Starting a transfer, access by access, with the controller free to act before each access. Whatever an earlier
 transfer left behind, finished or aborted, the new one starts on an empty FIFO with no flag set, and no interrupt can
 be taken on the way: nothing stale can complete it.
 */
module FreshStart {
  import opened Words
  import opened BscRegisters
  import opened Transfers
  import opened IrqTransfers
  import opened BscDevice

  /** The driver's view of C, A and DLEN is what the registers hold. */
  ghost predicate Synced(h: Honest, r: Regs) {
    && !r.c.st && !r.c.clear
    && match Seen(h, r.log)
       case None => true
       case Some(d) => d.c == r.c && d.a == r.a && d.dlen == r.dlen
  }

  /** How far the set-up has come: whether the controller is idle with this wire, whether its FIFO is empty, and
      which flags are clear. */
  datatype Stage = Stage(idle: bool, wire: seq<Txn>, empty: bool, done: bool, err: bool, clkt: bool)

  predicate Clear(st: Stage) {
    st.idle && st.done && st.err && st.clkt
  }

  ghost predicate Staged(h: Honest, r: Regs, st: Stage) {
    && Synced(h, r)
    && (st.empty || st.done || st.err || st.clkt ==> st.idle)
    && match Seen(h, r.log)
       case None => true
       case Some(d) =>
         && (st.idle ==> !d.ta && d.wire == st.wire) && (st.empty ==> d.fifo == [])
         && (st.done ==> !d.done) && (st.err ==> !d.err) && (st.clkt ==> !d.clkt)
  }

  /** What the next access finds. */
  lemma Next(h: Honest, r: Regs, st: Stage, op: Op)
    requires Staged(h, r, st)
    ensures Seen(h, r.log).None? ==> Seen(h, r.log + [op]).None?
    ensures Seen(h, r.log).Some? ==>
              var d := Events(h.depth, Seen(h, r.log).value, h.before(|r.log|));
              && Seen(h, r.log + [op]) == Access(h.depth, d, op)
              && d.c == r.c && d.a == r.a && d.dlen == r.dlen
              && (st.idle ==> d == Seen(h, r.log).value)
  {
    SeenAppend(h, r.log, op);
    if Seen(h, r.log).Some? {
      EventsKeepC(h.depth, Seen(h, r.log).value, h.before(|r.log|));
      if st.idle { IdleStays(h.depth, Seen(h, r.log).value, h.before(|r.log|)); }
    }
  }

  lemma StoreStaged(h: Honest, r: Regs, st: Stage, v: Ctl)
    requires Staged(h, r, st) && !v.st && !v.clear
    ensures Staged(h, StoreC(r, v), st)
  {
    Next(h, r, st, WriteC(v));
  }

  lemma SetStaged(h: Honest, r: Regs, st: Stage, f: Control, value: Word)
    requires Staged(h, r, st) && f != ST && f != CLEAR && f != C_ALL
    ensures Staged(h, SetControl(r, f, value), st)
  {
    StoreStaged(h, r, st, Dropped(r.c, f));
    StoreStaged(h, ClrControl(r, f), st, Raised(ClrControl(r, f).c, f, value));
  }

  /** CLEAR leaves the controller idle with an empty FIFO. If it was idle, its wire is as it was. */
  lemma ClearStaged(h: Honest, r: Regs, st: Stage) returns (st': Stage)
    requires Staged(h, r, st)
    ensures Staged(h, ClearFifo(r), st') && st'.idle && st'.empty && (st.idle ==> st'.wire == st.wire)
  {
    var r1 := ClrControl(r, CLEAR);
    StoreStaged(h, r, st, Dropped(r.c, CLEAR));
    var v := Raised(r1.c, CLEAR, One());
    ClearFifoSets(r);
    Next(h, r1, st, WriteC(v));
    st' := match Seen(h, r1.log + [WriteC(v)])
      case None => Stage(true, st.wire, true, false, false, false)
      case Some(d) => Stage(true, d.wire, true, false, false, false);
  }

  lemma FlagStaged(h: Honest, r: Regs, st: Stage, f: Status)
    requires Staged(h, r, st) && st.idle
    ensures f == DONE ==> Staged(h, ClrStatus(r, f), st.(done := true))
    ensures f == ERR ==> Staged(h, ClrStatus(r, f), st.(err := true))
    ensures f == CLKT_TO ==> Staged(h, ClrStatus(r, f), st.(clkt := true))
  {
    Next(h, r, st, WriteS(Bit(StatusShift(f))));
  }

  lemma FlagsStaged(h: Honest, r: Regs, st: Stage) returns (st': Stage)
    requires Staged(h, r, st) && st.idle
    ensures st' == st.(done := true, err := true, clkt := true) && Staged(h, ClearFlags(r), st')
  {
    ClearFlagsIs(r);
    FlagStaged(h, r, st, DONE);
    FlagStaged(h, ClrStatus(r, DONE), st.(done := true), ERR);
    FlagStaged(h, ClrStatus(ClrStatus(r, DONE), ERR), st.(done := true, err := true), CLKT_TO);
    st' := st.(done := true, err := true, clkt := true);
  }

  lemma AddressStaged(h: Honest, r: Regs, st: Stage, addr: nat, len: nat)
    requires Staged(h, r, st)
    ensures Staged(h, SetLength(SetAddress(r, addr), len), st)
  {
    Next(h, r, st, WriteA(addr % 0x80));
    assert Staged(h, SetAddress(r, addr), st);
    Next(h, SetAddress(r, addr), st, WriteDlen(len % 0x1_0000));
  }

  /** The registers set up for a transfer, not started yet. */
  function SetUp(r: Regs, addr: nat, len: nat): Regs {
    SetLength(SetAddress(ClearFlags(ClearFifo(r)), addr), len)
  }

  lemma SetUpStaged(h: Honest, r: Regs, st: Stage, addr: nat, len: nat) returns (st': Stage)
    requires Staged(h, r, st)
    ensures Staged(h, SetUp(r, addr, len), st') && Clear(st') && st'.empty && (st.idle ==> st'.wire == st.wire)
  {
    var st1 := ClearStaged(h, r, st);
    st' := FlagsStaged(h, ClearFifo(r), st1);
    AddressStaged(h, ClearFlags(ClearFifo(r)), st', addr, len);
  }

  /** A transfer that has just begun: empty FIFO, all of DLEN to go, no flag set, nothing on the wire yet. */
  predicate Fresh(d: Dev, wire: seq<Txn>, addr: nat, job: Job) {
    && d.ta && d.fifo == [] && !d.done && !d.err && !d.clkt
    && d.dlen == job.n % 0x1_0000 && d.rem == d.dlen
    && d.wire == wire + [Txn(job.reading, addr % 0x80, [])]
  }

  ghost predicate StartsFresh(h: Honest, r: Regs, wire: seq<Txn>, addr: nat, job: Job) {
    && Synced(h, r)
    && (Seen(h, r.log).Some? ==> Fresh(Seen(h, r.log).value, wire, addr, job))
  }

  /** The registers just before the store that sets ST. */
  function BeforeStart(r: Regs, reading: bool): Regs {
    ClrControl(SetControl(SetControl(r, I2CEN, One()), READ, if reading then One() else Zero()), ST)
  }

  lemma StartEnds(r: Regs, reading: bool)
    ensures Start(r, reading) ==
            StoreC(BeforeStart(r, reading), Raised(BeforeStart(r, reading).c, ST, One()))
  {
    StartIs(r, reading);
  }

  lemma StartFresh(h: Honest, r: Regs, st: Stage, addr: nat, job: Job)
    requires Staged(h, r, st) && Clear(st) && st.empty
    requires r.a == addr % 0x80 && r.dlen == job.n % 0x1_0000
    ensures StartsFresh(h, Start(r, job.reading), st.wire, addr, job)
  {
    var direction := if job.reading then One() else Zero();
    var r1 := SetControl(r, I2CEN, One());
    var r2 := SetControl(r1, READ, direction);
    SetStaged(h, r, st, I2CEN, One());
    SetStaged(h, r1, st, READ, direction);
    StoreStaged(h, r2, st, Dropped(r2.c, ST));
    StartEnds(r, job.reading);
    var r3 := BeforeStart(r, job.reading);
    Next(h, r3, st, WriteC(Raised(r3.c, ST, One())));
  }

  /** The stage before any set-up. */
  function Before(h: Honest, r: Regs): Stage {
    match Seen(h, r.log)
    case None => Stage(true, [], false, false, false, false)
    case Some(d) => Stage(!d.ta, d.wire, false, false, false, false)
  }

  /** Where the new transaction goes on the wire: from an idle controller, right after what is already there. */
  ghost predicate Continues(h: Honest, r: Regs, wire: seq<Txn>) {
    Seen(h, r.log).Some? && !Seen(h, r.log).value.ta ==> wire == Seen(h, r.log).value.wire
  }

  /** A polled transfer starts fresh, whatever the controller was doing. */
  lemma PrimedIsFresh(h: Honest, r: Regs, addr: nat, job: Job) returns (wire: seq<Txn>)
    requires Synced(h, r)
    ensures StartsFresh(h, Primed(r, addr, job), wire, addr, job) && Continues(h, r, wire)
  {
    var st := SetUpStaged(h, r, Before(h, r), addr, job.n);
    StartFresh(h, SetUp(r, addr, job.n), st, addr, job);
    wire := st.wire;
  }

  // ----- The interrupt line while a transfer is being started

  /** The interrupt output cannot rise before the next access: no interrupt is enabled, or the controller is idle and no
      flag is set. */
  ghost predicate Quiet(h: Honest, r: Regs, st: Stage) {
    Staged(h, r, st) && (IntsOn(r.c) ==> Clear(st))
  }

  lemma QuietIsSilent(h: Honest, r: Regs, st: Stage)
    requires Quiet(h, r, st)
    ensures SilentNext(h, r.log)
  {
    if Seen(h, r.log).Some? {
      var d, evs := Seen(h, r.log).value, h.before(|r.log|);
      forall j | 0 <= j <= |evs| ensures !MayInterrupt(Events(h.depth, d, evs[..j])) {
        EventsKeepC(h.depth, d, evs[..j]);
        if IntsOn(r.c) { IdleStays(h.depth, d, evs[..j]); }
      }
    }
  }

  /** One quiet access more. */
  lemma SilentOp(h: Honest, r: Regs, st: Stage, from: nat, op: Op)
    requires Quiet(h, r, st) && from <= |r.log| && SilentFrom(h, r.log, from)
    ensures SilentFrom(h, r.log + [op], from)
  {
    QuietIsSilent(h, r, st);
    SilentAppend(h, r.log, from, op);
  }

  lemma SetSilent(h: Honest, r: Regs, st: Stage, from: nat, f: Control, value: Word)
    requires Quiet(h, r, st) && from <= |r.log| && SilentFrom(h, r.log, from) && f != C_ALL
    requires (f == INTD || f == INTT || f == INTR ==> Clear(st))
    ensures from <= |SetControl(r, f, value).log| && SilentFrom(h, SetControl(r, f, value).log, from)
    ensures f != ST && f != CLEAR ==> Quiet(h, SetControl(r, f, value), st)
  {
    var r1 := ClrControl(r, f);
    SilentOp(h, r, st, from, WriteC(Dropped(r.c, f)));
    StoreStaged(h, r, st, Dropped(r.c, f));
    SilentOp(h, r1, st, from, WriteC(Raised(r1.c, f, value)));
    if f != ST && f != CLEAR { SetStaged(h, r, st, f, value); }
  }

  lemma FlagSilent(h: Honest, r: Regs, st: Stage, from: nat, f: Status)
    requires Quiet(h, r, st) && from <= |r.log| && SilentFrom(h, r.log, from)
    ensures from <= |ClrStatus(r, f).log| && SilentFrom(h, ClrStatus(r, f).log, from)
  {
    SilentOp(h, r, st, from, WriteS(Bit(StatusShift(f))));
  }

  lemma FlagsSilent(h: Honest, r: Regs, st: Stage, from: nat)
    requires Quiet(h, r, st) && st.idle && from <= |r.log| && SilentFrom(h, r.log, from)
    ensures from <= |ClearFlags(r).log| && SilentFrom(h, ClearFlags(r).log, from)
  {
    var r1 := ClrStatus(r, DONE);
    var r2 := ClrStatus(r1, ERR);
    ClearFlagsIs(r);
    FlagStaged(h, r, st, DONE);
    FlagSilent(h, r, st, from, DONE);
    FlagStaged(h, r1, st.(done := true), ERR);
    FlagSilent(h, r1, st.(done := true), from, ERR);
    FlagSilent(h, r2, st.(done := true, err := true), from, CLKT_TO);
  }

  lemma AddressSilent(h: Honest, r: Regs, st: Stage, from: nat, addr: nat, len: nat)
    requires Quiet(h, r, st) && from <= |r.log| && SilentFrom(h, r.log, from)
    ensures var r' := SetLength(SetAddress(r, addr), len);
            from <= |r'.log| && SilentFrom(h, r'.log, from)
  {
    SilentOp(h, r, st, from, WriteA(addr % 0x80));
    Next(h, r, st, WriteA(addr % 0x80));
    assert Staged(h, SetAddress(r, addr), st);
    SilentOp(h, SetAddress(r, addr), st, from, WriteDlen(len % 0x1_0000));
  }

  lemma SetUpSilent(h: Honest, r: Regs, st: Stage, from: nat, addr: nat, len: nat)
    requires Staged(h, r, st) && !IntsOn(r.c) && from <= |r.log| && SilentFrom(h, r.log, from)
    ensures from <= |SetUp(r, addr, len).log| && SilentFrom(h, SetUp(r, addr, len).log, from)
  {
    ClearFifoSets(r);
    SetSilent(h, r, st, from, CLEAR, One());
    var st1 := ClearStaged(h, r, st);
    FlagsSilent(h, ClearFifo(r), st1, from);
    var st2 := FlagsStaged(h, ClearFifo(r), st1);
    AddressSilent(h, ClearFlags(ClearFifo(r)), st2, from, addr, len);
  }

  /** From the cleared flags on to the store that sets ST, whichever interrupts are enabled. */
  lemma TransferSilent(h: Honest, r: Regs, st: Stage, from: nat, reading: bool)
    requires Staged(h, r, st) && Clear(st) && from <= |r.log| && SilentFrom(h, r.log, from)
    ensures from <= |StartedFor(r, reading).log| && SilentFrom(h, StartedFor(r, reading).log, from)
  {
    var f, direction := if reading then INTR else INTT, if reading then One() else Zero();
    var r1 := SetControl(r, f, One());
    var r2 := SetControl(r1, INTD, One());
    var r3 := SetControl(r2, I2CEN, One());
    SetSilent(h, r, st, from, f, One());
    SetSilent(h, r1, st, from, INTD, One());
    SetSilent(h, r2, st, from, I2CEN, One());
    SetSilent(h, r3, st, from, READ, direction);
    SetSilent(h, SetControl(r3, READ, direction), st, from, ST, One());
    StartIs(r2, reading);
  }

  lemma TransferStaged(h: Honest, r: Regs, st: Stage, addr: nat, job: Job)
    requires Staged(h, r, st) && Clear(st) && st.empty && r.a == addr % 0x80 && r.dlen == job.n % 0x1_0000
    ensures StartsFresh(h, StartedFor(r, job.reading), st.wire, addr, job)
  {
    var f := if job.reading then INTR else INTT;
    var r1 := SetControl(r, f, One());
    SetStaged(h, r, st, f, One());
    SetStaged(h, r1, st, INTD, One());
    StartFresh(h, SetControl(r1, INTD, One()), st, addr, job);
  }

  /** No stale completion. An interrupt-driven transfer starts fresh too, whatever an earlier transfer left in the
      FIFO, in the flags or under way. If no interrupt was enabled before, then from the first access of `start` to its
      last, the one that sets ST, the interrupt output stays low: no interrupt is taken before the controller has
      forgotten the earlier transfer. */
  lemma ArmedIsFresh(h: Honest, r: Regs, addr: nat, job: Job) returns (wire: seq<Txn>)
    requires Synced(h, r)
    ensures StartsFresh(h, Armed(r, addr, job), wire, addr, job) && Continues(h, r, wire)
    ensures !IntsOn(r.c) ==> |r.log| <= |Armed(r, addr, job).log| && SilentFrom(h, Armed(r, addr, job).log, |r.log|)
  {
    ArmedIs(r, addr, job);
    var r1 := SetUp(r, addr, job.n);
    var st := SetUpStaged(h, r, Before(h, r), addr, job.n);
    TransferStaged(h, r1, st, addr, job);
    if !IntsOn(r.c) {
      SetUpSilent(h, r, Before(h, r), |r.log|, addr, job.n);
      TransferSilent(h, r1, st, |r.log|, job.reading);
    }
    wire := st.wire;
  }

  // ----- How long a start takes

  lemma OpAnswered(h: Honest, log: seq<Op>, op: Op)
    requires !op.ReadS? && !op.Pop?
    ensures Seen(h, log + [op]).Some? <==> Seen(h, log).Some?
  {
    SeenAppend(h, log, op);
  }

  lemma SetAnswered(h: Honest, r: Regs, f: Control, value: Word)
    ensures Seen(h, SetControl(r, f, value).log).Some? <==> Seen(h, r.log).Some?
    ensures |SetControl(r, f, value).log| == |r.log| + 2
  {
    OpAnswered(h, r.log, WriteC(Dropped(r.c, f)));
    var r1 := ClrControl(r, f);
    OpAnswered(h, r1.log, WriteC(Raised(r1.c, f, value)));
  }

  lemma FlagsAnswered(h: Honest, r: Regs)
    ensures Seen(h, ClearFlags(r).log).Some? <==> Seen(h, r.log).Some?
    ensures |ClearFlags(r).log| == |r.log| + 3
  {
    OpAnswered(h, r.log, WriteS(Bit(1)));
    OpAnswered(h, r.log + [WriteS(Bit(1))], WriteS(Bit(8)));
    OpAnswered(h, r.log + [WriteS(Bit(1))] + [WriteS(Bit(8))], WriteS(Bit(9)));
  }

  lemma SetUpAnswered(h: Honest, r: Regs, addr: nat, len: nat)
    ensures Seen(h, SetUp(r, addr, len).log).Some? <==> Seen(h, r.log).Some?
    ensures |SetUp(r, addr, len).log| == |r.log| + 7
  {
    SetAnswered(h, r, CLEAR, One());
    FlagsAnswered(h, ClearFifo(r));
    var r' := ClearFlags(ClearFifo(r));
    OpAnswered(h, r'.log, WriteA(addr % 0x80));
    OpAnswered(h, SetAddress(r', addr).log, WriteDlen(len % 0x1_0000));
  }

  lemma StartAnswered(h: Honest, r: Regs, reading: bool)
    ensures Seen(h, Start(r, reading).log).Some? <==> Seen(h, r.log).Some?
    ensures |Start(r, reading).log| == |r.log| + 6
  {
    StartIs(r, reading);
    SetAnswered(h, r, I2CEN, One());
    var r1 := SetControl(r, I2CEN, One());
    SetAnswered(h, r1, READ, if reading then One() else Zero());
    SetAnswered(h, SetControl(r1, READ, if reading then One() else Zero()), ST, One());
  }

  /** Up to its start a polled transfer only writes registers, which any controller takes: 13 accesses. */
  lemma PrimedAnswered(h: Honest, r: Regs, addr: nat, job: Job)
    ensures Seen(h, Primed(r, addr, job).log).Some? <==> Seen(h, r.log).Some?
    ensures |Primed(r, addr, job).log| == |r.log| + 13 && Primed(r, addr, job).polls == r.polls
  {
    SetUpAnswered(h, r, addr, job.n);
    StartAnswered(h, SetUp(r, addr, job.n), job.reading);
  }

  /** So does an interrupt-driven one: 17 accesses. */
  lemma ArmedAnswered(h: Honest, r: Regs, addr: nat, job: Job)
    ensures Seen(h, Armed(r, addr, job).log).Some? <==> Seen(h, r.log).Some?
    ensures |Armed(r, addr, job).log| == |r.log| + 17
  {
    SetUpAnswered(h, r, addr, job.n);
    var r0, f := SetUp(r, addr, job.n), if job.reading then INTR else INTT;
    ArmedIs(r, addr, job);
    SetAnswered(h, r0, f, One());
    SetAnswered(h, SetControl(r0, f, One()), INTD, One());
    StartAnswered(h, SetControl(SetControl(r0, f, One()), INTD, One()), job.reading);
  }

  lemma ClrAnswered(h: Honest, r: Regs, f: Control)
    ensures Seen(h, ClrControl(r, f).log).Some? <==> Seen(h, r.log).Some?
  {
    OpAnswered(h, r.log, WriteC(Dropped(r.c, f)));
  }

  /** So are the writes of `finalize`. */
  lemma SilencedAnswered(h: Honest, r: Regs)
    ensures Seen(h, Silenced(r).log).Some? <==> Seen(h, r.log).Some?
  {
    var r1 := ClearFlags(r);
    SilencedIs(r);
    IntsOffIs(r1);
    FlagsAnswered(h, r);
    ClrAnswered(h, r1, INTD);
    ClrAnswered(h, ClrControl(r1, INTD), INTT);
    ClrAnswered(h, ClrControl(ClrControl(r1, INTD), INTT), INTR);
  }
}
