/**
 An honest BSC controller and the bus behind it, as a state machine over the register accesses it sees and the
 things it does by itself in between. `Seen` replays a driver's transcript against it: the transcript is one such a
 controller could have produced iff every status word and every FIFO byte read is what the controller shows.
 */
module BscDevice {
  import opened Common
  import opened Words
  import opened BscRegisters

  /** One transaction on the wire: direction, slave address, and the bytes that went over so far. */
  datatype Txn = Txn(reading: bool, addr: nat, bytes: seq<u8>)

  /** `rem` counts DLEN down. `wire` holds every transaction ever started; the last one is the current one. */
  datatype Dev = Dev(
    c: Ctl, a: nat, dlen: nat, fifo: seq<u8>,
    ta: bool, rem: nat, done: bool, err: bool, clkt: bool,
    wire: seq<Txn>)

  /** What the controller does on its own while a transfer is active. */
  datatype DevEvent =
    | Shift                                    // send the oldest FIFO byte to the slave
    | Fetch(byte: u8)                          // receive a byte from the slave into the FIFO
    | Finish                                   // all DLEN bytes are over: DONE
    | NoAck(alsoDone: bool)                    // the slave did not acknowledge: ERR
    | Stretch(stop: bool, alsoDone: bool)      // the slave held the clock too long: CLKT

  /** The FIFO's depth, the state at the beginning of the transcript, and what happens before each access. */
  datatype Honest = Honest(depth: nat, d0: Dev, before: nat -> seq<DevEvent>)

  function Last(d: Dev): Txn
    requires d.wire != []
  {
    d.wire[|d.wire| - 1]
  }

  function OnWire(d: Dev, b: u8): Dev
    requires d.wire != []
  {
    d.(wire := d.wire[..|d.wire| - 1] + [Last(d).(bytes := Last(d).bytes + [b])])
  }

  /** An event that cannot happen in this state does nothing. */
  function AfterEvent(depth: nat, d: Dev, ev: DevEvent): Dev {
    if !d.ta || d.wire == [] then d
    else
      match ev
      case Shift =>
        if Last(d).reading || d.rem == 0 || d.fifo == [] then d
        else OnWire(d, d.fifo[0]).(fifo := d.fifo[1..], rem := d.rem - 1)
      case Fetch(b) =>
        if !Last(d).reading || d.rem == 0 || |d.fifo| >= depth then d
        else OnWire(d, b).(fifo := d.fifo + [b], rem := d.rem - 1)
      case Finish =>
        if d.rem == 0 then d.(ta := false, done := true) else d
      case NoAck(alsoDone) =>
        d.(ta := false, err := true, done := d.done || alsoDone)
      case Stretch(stop, alsoDone) =>
        d.(ta := d.ta && !stop, clkt := true, done := d.done || alsoDone)
  }

  function Events(depth: nat, d: Dev, evs: seq<DevEvent>): Dev {
    if evs == [] then d else AfterEvent(depth, Events(depth, d, evs[..|evs| - 1]), evs[|evs| - 1])
  }

  /** The bits of S a transport looks at; the others may be anything. */
  predicate Shows(depth: nat, d: Dev, s: Word) {
    && s[1] == d.done && s[4] == (|d.fifo| < depth) && s[5] == (d.fifo != [])
    && s[8] == d.err && s[9] == d.clkt
  }

  /** A store to C. CLEAR empties the FIFO and aborts a transfer; ST starts one if the controller is enabled. */
  function OnControl(d: Dev, v: Ctl): Dev {
    var d1 := d.(c := v.(clear := false, st := false));
    var d2 := if v.clear then d1.(fifo := [], ta := false) else d1;
    if v.st && v.en then d2.(ta := true, rem := d2.dlen, wire := d2.wire + [Txn(v.read, d2.a, [])]) else d2
  }

  /** The controller after one access, or nothing if it would not have answered that. */
  function Access(depth: nat, d: Dev, op: Op): Option<Dev> {
    match op
    case WriteC(v) => Some(OnControl(d, v))
    case WriteS(w) => Some(d.(done := d.done && !w[1], err := d.err && !w[8], clkt := d.clkt && !w[9]))
    case WriteA(addr) => Some(d.(a := addr))
    case WriteDlen(len) => Some(d.(dlen := len))
    case WriteDiv(_) => Some(d)
    case ReadS(s) => if Shows(depth, d, s) then Some(d) else None
    case Push(b) => Some(if |d.fifo| < depth then d.(fifo := d.fifo + [b]) else d)
    case Pop(b) =>
      if d.fifo == [] then Some(d)
      else if d.fifo[0] == b then Some(d.(fifo := d.fifo[1..]))
      else None
  }

  /** The controller after a transcript, if it is one it could have produced. */
  function Seen(h: Honest, log: seq<Op>): Option<Dev> {
    if log == [] then Some(h.d0)
    else
      var n := |log| - 1;
      match Seen(h, log[..n])
      case None => None
      case Some(d) => Access(h.depth, Events(h.depth, d, h.before(n)), log[n])
  }

  lemma SeenAppend(h: Honest, log: seq<Op>, op: Op)
    ensures Seen(h, log + [op])
         == match Seen(h, log)
            case None => None
            case Some(d) => Access(h.depth, Events(h.depth, d, h.before(|log|)), op)
  {
    assert (log + [op])[..|log|] == log;
  }

  /** The state in which the next access finds the controller. */
  ghost predicate Finds(h: Honest, log: seq<Op>, d: Dev) {
    Seen(h, log).Some? && Events(h.depth, Seen(h, log).value, h.before(|log|)) == d
  }

  /** It answers, acts, and is found by the access after that. */
  lemma FindsNext(h: Honest, log: seq<Op>, d: Dev, op: Op, d': Dev)
    requires Finds(h, log, d) && Access(h.depth, d, op) == Some(d')
    ensures Seen(h, log + [op]) == Some(d')
    ensures Finds(h, log + [op], Events(h.depth, d', h.before(|log| + 1)))
  {
    SeenAppend(h, log, op);
  }

  /** ... or, having nothing to do meanwhile, is found as it was left. */
  lemma FindsNextIdle(h: Honest, log: seq<Op>, d: Dev, op: Op, d': Dev)
    requires Finds(h, log, d) && Access(h.depth, d, op) == Some(d') && h.before(|log| + 1) == []
    ensures Finds(h, log + [op], d')
  {
    FindsNext(h, log, d, op, d');
    assert Events(h.depth, d', []) == d';
  }

  // ----- The interrupt line

  /** The interrupt output can be high: INTD and DONE, or a FIFO interrupt of a transfer going that way. (TXW and RXR
      have thresholds that only make this rarer.) */
  predicate MayInterrupt(d: Dev) {
    || (d.c.intd && d.done)
    || (d.ta && d.wire != [] && !Last(d).reading && d.c.intt)
    || (d.ta && d.wire != [] && Last(d).reading && d.c.intr)
  }

  /** The interrupt output stays low throughout the time between the transcript so far and the next access. */
  ghost predicate SilentNext(h: Honest, log: seq<Op>) {
    Seen(h, log).Some? ==>
      forall j | 0 <= j <= |h.before(|log|)| ::
        !MayInterrupt(Events(h.depth, Seen(h, log).value, h.before(|log|)[..j]))
  }

  /** ... and between any two accesses of the transcript from the `from`-th on. */
  ghost predicate SilentFrom(h: Honest, log: seq<Op>, from: nat) {
    forall k | from <= k < |log| :: SilentNext(h, log[..k])
  }

  lemma SilentAppend(h: Honest, log: seq<Op>, from: nat, op: Op)
    requires from <= |log| && SilentFrom(h, log, from) && SilentNext(h, log)
    ensures SilentFrom(h, log + [op], from)
  {
    forall k | from <= k < |log + [op]| ensures SilentNext(h, (log + [op])[..k]) {
      assert (log + [op])[..k] == log[..k];
      assert log[..|log|] == log;
    }
  }

  // ----- An idle controller does nothing

  lemma {:induction false} IdleStays(depth: nat, d: Dev, evs: seq<DevEvent>)
    requires !d.ta
    ensures Events(depth, d, evs) == d
    decreases |evs|
  {
    if evs != [] { IdleStays(depth, d, evs[..|evs| - 1]); }
  }

  lemma {:induction false} EventsKeepC(depth: nat, d: Dev, evs: seq<DevEvent>)
    ensures Events(depth, d, evs).c == d.c && Events(depth, d, evs).a == d.a && Events(depth, d, evs).dlen == d.dlen
    decreases |evs|
  {
    if evs != [] { EventsKeepC(depth, d, evs[..|evs| - 1]); }
  }
}
