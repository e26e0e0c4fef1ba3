/**
 From the caller's buffer to the slave and back: both transports against an honest BSC controller, whatever it does
 between two accesses.
 */
module EndToEnd {
  import opened Common
  import opened Words
  import opened BscRegisters
  import opened Transfers
  import opened BscDevice
  import opened FreshStart

  /** A transfer on the device's side: the wire before it, the slave's address, the job. */
  datatype Flight = Flight(wire: seq<Txn>, addr: nat, job: Job)

  /** The bytes of the caller's buffer that have been moved. */
  function Moved(f: Flight, ram: seq<u8>, i: nat): seq<u8>
    requires i <= f.job.n && Fits(f.job, ram)
  {
    if i == 0 then [] else ram[f.job.at..f.job.at + i]
  }

  predicate OnTheWire(d: Dev, f: Flight) {
    d.wire != [] && d.wire == f.wire + [Txn(f.job.reading, f.addr, Last(d).bytes)]
  }

  /** Nothing is lost, nothing invented: a write has sent the bytes it moved except those still in the FIFO, a read
      has moved the bytes it received except those; DLEN counts them; DONE without an error means all of them; and a
      controller that was not acknowledged has stopped. */
  predicate Flow(d: Dev, f: Flight, moved: seq<u8>) {
    && OnTheWire(d, f)
    && (if f.job.reading then Last(d).bytes == moved + d.fifo else Last(d).bytes + d.fifo == moved)
    && d.dlen == f.job.n % 0x1_0000 && |Last(d).bytes| + d.rem == d.dlen
    && (d.done && !d.err && !d.clkt ==> d.rem == 0 && !d.ta) && (d.err ==> !d.ta)
  }

  lemma EventFlow(depth: nat, d: Dev, ev: DevEvent, f: Flight, moved: seq<u8>)
    requires Flow(d, f, moved)
    ensures var d' := AfterEvent(depth, d, ev);
            && Flow(d', f, moved)
            && (f.job.reading ==> d.fifo <= d'.fifo) && (!f.job.reading ==> |d'.fifo| <= |d.fifo|)
  {
    var d' := AfterEvent(depth, d, ev);
    if d'.wire != d.wire {
      assert d.wire[..|d.wire| - 1] == f.wire;
      if ev.Shift? {
        assert d.fifo == [d.fifo[0]] + d.fifo[1..];
        assert Last(d).bytes + d.fifo == Last(d).bytes + [d.fifo[0]] + d.fifo[1..];
      }
    }
  }

  lemma {:induction false} EventsFlow(depth: nat, d: Dev, evs: seq<DevEvent>, f: Flight, moved: seq<u8>)
    requires Flow(d, f, moved)
    ensures var d' := Events(depth, d, evs);
            && Flow(d', f, moved)
            && (f.job.reading ==> d.fifo <= d'.fifo) && (!f.job.reading ==> |d'.fifo| <= |d.fifo|)
    decreases |evs|
  {
    if evs != [] {
      EventsFlow(depth, d, evs[..|evs| - 1], f, moved);
      EventFlow(depth, Events(depth, d, evs[..|evs| - 1]), evs[|evs| - 1], f, moved);
    }
  }

  /** The transcript so far, if an honest controller produced it, has kept the flow. */
  ghost predicate Tracks(h: Honest, b: Bus, f: Flight, i: nat)
    requires i <= f.job.n && Fits(f.job, b.ram)
  {
    && Synced(h, b.regs)
    && (Seen(h, b.regs.log).Some? ==> Flow(Seen(h, b.regs.log).value, f, Moved(f, b.ram, i)))
  }

  lemma FreshTracks(h: Honest, b: Bus, f: Flight)
    requires Fits(f.job, b.ram) && f.addr < 0x80
    requires StartsFresh(h, b.regs, f.wire, f.addr, f.job)
    ensures Tracks(h, b, f, 0)
  {
  }

  /** The controller as the next access finds it. */
  lemma Found(h: Honest, b: Bus, f: Flight, i: nat, op: Op) returns (d: Dev)
    requires i <= f.job.n && Fits(f.job, b.ram) && Tracks(h, b, f, i) && Seen(h, b.regs.log).Some?
    ensures Seen(h, b.regs.log + [op]) == Access(h.depth, d, op) && Flow(d, f, Moved(f, b.ram, i))
    ensures d.c == b.regs.c && d.a == b.regs.a && d.dlen == b.regs.dlen
    ensures f.job.reading ==> Seen(h, b.regs.log).value.fifo <= d.fifo
    ensures !f.job.reading ==> |d.fifo| <= |Seen(h, b.regs.log).value.fifo|
  {
    SeenAppend(h, b.regs.log, op);
    var d0, evs := Seen(h, b.regs.log).value, h.before(|b.regs.log|);
    d := Events(h.depth, d0, evs);
    EventsFlow(h.depth, d0, evs, f, Moved(f, b.ram, i));
    EventsKeepC(h.depth, d0, evs);
  }

  lemma StaysSilent(h: Honest, log: seq<Op>, op: Op)
    requires Seen(h, log).None?
    ensures Seen(h, log + [op]).None?
  {
    SeenAppend(h, log, op);
  }

  /** Reading the status word. */
  lemma PollTracks(h: Honest, world: World, b: Bus, f: Flight, i: nat)
    requires i <= f.job.n && Fits(f.job, b.ram) && Tracks(h, b, f, i)
    ensures Tracks(h, b.(regs := Poll(world, b.regs)), f, i)
  {
    var op := ReadS(world.status(b.regs.polls));
    if Seen(h, b.regs.log).Some? {
      var d := Found(h, b, f, i, op);
      assert Seen(h, b.regs.log + [op]).Some? ==> Seen(h, b.regs.log + [op]).value == d;
    } else {
      StaysSilent(h, b.regs.log, op);
    }
  }

  /** An honest controller shows its state. */
  lemma PollShows(h: Honest, log: seq<Op>, s: Word)
    ensures Seen(h, log + [ReadS(s)]).Some? ==> Shows(h.depth, Seen(h, log + [ReadS(s)]).value, s)
  {
    SeenAppend(h, log, ReadS(s));
  }

  lemma PushFlow(d: Dev, f: Flight, moved: seq<u8>, byte: u8)
    requires Flow(d, f, moved) && !f.job.reading
    ensures Flow(d.(fifo := d.fifo + [byte]), f, moved + [byte])
  {
    assert Last(d).bytes + (d.fifo + [byte]) == (Last(d).bytes + d.fifo) + [byte];
  }

  lemma PopFlow(d: Dev, f: Flight, moved: seq<u8>)
    requires Flow(d, f, moved) && f.job.reading && d.fifo != []
    ensures Flow(d.(fifo := d.fifo[1..]), f, moved + [d.fifo[0]])
  {
    assert d.fifo == [d.fifo[0]] + d.fifo[1..];
    assert moved + d.fifo == (moved + [d.fifo[0]]) + d.fifo[1..];
  }

  lemma MovedMore(f: Flight, ram: seq<u8>, ram': seq<u8>, i: nat)
    requires i < f.job.n && Fits(f.job, ram) && |ram'| == |ram|
    requires forall k | 0 <= k < |ram| && k != f.job.at + i :: ram'[k] == ram[k]
    ensures Moved(f, ram', i + 1) == Moved(f, ram, i) + [ram'[f.job.at + i]]
  {
  }

  /** Feeding one byte after TXD was seen: there is still room for it. */
  lemma PushTracks(h: Honest, b: Bus, f: Flight, i: nat)
    requires i < f.job.n && Fits(f.job, b.ram) && Tracks(h, b, f, i) && !f.job.reading
    requires Seen(h, b.regs.log).Some? ==> |Seen(h, b.regs.log).value.fifo| < h.depth
    ensures Tracks(h, b.(regs := PushByte(b.regs, b.ram[f.job.at + i])), f, i + 1)
  {
    var byte := b.ram[f.job.at + i];
    if Seen(h, b.regs.log).Some? {
      var d := Found(h, b, f, i, Push(byte));
      PushFlow(d, f, Moved(f, b.ram, i), byte);
      MovedMore(f, b.ram, b.ram, i);
    } else {
      StaysSilent(h, b.regs.log, Push(byte));
    }
  }

  /** Draining one byte after RXD was seen: it is the oldest one, whatever has arrived since. */
  lemma PopTracks(h: Honest, world: World, b: Bus, f: Flight, i: nat)
    requires i < f.job.n && Fits(f.job, b.ram) && Tracks(h, b, f, i) && f.job.reading
    requires Seen(h, b.regs.log).Some? ==> Seen(h, b.regs.log).value.fifo != []
    ensures Tracks(h, Bus(PopByte(world, b.regs), b.ram[f.job.at + i := NextByte(world, b.regs)]), f, i + 1)
  {
    var byte := NextByte(world, b.regs);
    if Seen(h, b.regs.log).Some? {
      var d := Found(h, b, f, i, Pop(byte));
      if d.fifo[0] == byte {
        PopFlow(d, f, Moved(f, b.ram, i));
        MovedMore(f, b.ram, b.ram[f.job.at + i := byte], i);
      }
    } else {
      StaysSilent(h, b.regs.log, Pop(byte));
    }
  }

  /** TXD seen is room in the FIFO, RXD seen is a byte in it. */
  lemma RoomSeen(h: Honest, b: Bus, f: Flight, i: nat, s: Word)
    requires Decide(s, f.job.reading, i, f.job.n) == Move
    requires Seen(h, b.regs.log).Some? ==> Shows(h.depth, Seen(h, b.regs.log).value, s)
    ensures i < f.job.n
    ensures Seen(h, b.regs.log).Some? && f.job.reading ==> Seen(h, b.regs.log).value.fifo != []
    ensures Seen(h, b.regs.log).Some? && !f.job.reading ==> |Seen(h, b.regs.log).value.fifo| < h.depth
  {
  }

  lemma MoveTracks(h: Honest, world: World, b: Bus, f: Flight, i: nat, polled: Bus)
    requires i < f.job.n && Fits(f.job, b.ram) && polled == b.(regs := Poll(world, b.regs))
    requires Looking(world, b, f.job, i) == Move && Tracks(h, polled, f, i)
    requires Seen(h, polled.regs.log).Some? && f.job.reading ==> Seen(h, polled.regs.log).value.fifo != []
    requires Seen(h, polled.regs.log).Some? && !f.job.reading ==> |Seen(h, polled.regs.log).value.fifo| < h.depth
    ensures Tracks(h, Step(world, b, f.job, i), f, i + 1)
  {
    if f.job.reading {
      PopTracks(h, world, polled, f, i);
    } else {
      PushTracks(h, polled, f, i);
    }
  }

  lemma StepTracks(h: Honest, world: World, b: Bus, f: Flight, i: nat)
    requires i <= f.job.n && Fits(f.job, b.ram) && Tracks(h, b, f, i)
    ensures Tracks(h, Step(world, b, f.job, i), f, StepIndex(world, b, f.job, i))
  {
    var polled := b.(regs := Poll(world, b.regs));
    PollTracks(h, world, b, f, i);
    if Looking(world, b, f.job, i) == Move {
      PollShows(h, b.regs.log, world.status(b.regs.polls));
      RoomSeen(h, polled, f, i, world.status(b.regs.polls));
      MoveTracks(h, world, b, f, i, polled);
    }
  }

  /** Conservation at every step: after any number of status words, the flow is kept. */
  lemma {:induction false} AdvanceTracks(h: Honest, world: World, b: Bus, f: Flight, i: nat, m: nat)
    requires i <= f.job.n && Fits(f.job, b.ram) && Tracks(h, b, f, i)
    ensures var Progress(b', i') := Advance(world, b, f.job, i, m); Tracks(h, b', f, i')
    decreases m
  {
    if m > 0 {
      StepTracks(h, world, b, f, i);
      AdvanceTracks(h, world, Step(world, b, f.job, i), f, StepIndex(world, b, f.job, i), m - 1);
    }
  }

  /** What a verdict means to the slave. */
  predicate Meaning(d: Dev, f: Flight, moved: seq<u8>, r: I2cResult) {
    && d.wire != []
    // Ok: the controller is idle and DLEN bytes went over; up to 65535 of them, these are all bytes of the buffer
    && (r == Ok ==> !d.ta && |Last(d).bytes| == f.job.n % 0x1_0000)
    && (r == Ok && f.job.n <= 0xFFFF ==> |moved| == f.job.n && Last(d).bytes == moved && d.fifo == [])
    // a longer read never returns Ok
    && (r == Ok && f.job.reading ==> f.job.n <= 0xFFFF)
    // and the short-read verdict is met by no other
    && (r == Timeout ==> f.job.reading && f.job.n > 0xFFFF)
    // and the flags are what it says: any but ClockTimeout is the verdict on a controller that has stopped
    && (r == Nack <==> d.err) && (r == ClockTimeout <==> !d.err && d.clkt) && (r != ClockTimeout ==> !d.ta)
    && (r == Ok || r == Timeout ==> d.done)
  }

  lemma FlowMeans(depth: nat, d: Dev, f: Flight, moved: seq<u8>, s: Word, r: I2cResult)
    requires Flow(d, f, moved) && |moved| <= f.job.n && Shows(depth, d, s)
    requires Decide(s, f.job.reading, |moved|, f.job.n) == Stop(r)
    ensures Meaning(d, f, moved, r)
  {
    if r == Ok || r == Timeout {
      assert d.rem == 0 && |Last(d).bytes| == f.job.n % 0x1_0000;
      if f.job.reading {
        assert Last(d).bytes == moved + d.fifo;
      } else {
        assert Last(d).bytes + d.fifo == moved;
      }
    }
  }

  lemma StopMeans(h: Honest, world: World, b: Bus, f: Flight, i: nat, r: I2cResult)
    requires i <= f.job.n && Fits(f.job, b.ram) && Tracks(h, b, f, i)
    requires Looking(world, b, f.job, i) == Stop(r)
    ensures var b' := Step(world, b, f.job, i);
            Seen(h, b'.regs.log).Some? ==> Meaning(Seen(h, b'.regs.log).value, f, Moved(f, b'.ram, i), r)
  {
    PollTracks(h, world, b, f, i);
    PollShows(h, b.regs.log, world.status(b.regs.polls));
    var b' := Step(world, b, f.job, i);
    if Seen(h, b'.regs.log).Some? {
      FlowMeans(h.depth, Seen(h, b'.regs.log).value, f, Moved(f, b.ram, i), world.status(b.regs.polls), r);
    }
  }

  /** The deciding word, however many words came before it. */
  lemma {:induction false} VerdictMeans(h: Honest, world: World, b: Bus, f: Flight, i: nat, m: nat)
    requires i <= f.job.n && Fits(f.job, b.ram) && Tracks(h, b, f, i)
    requires DecidesAt(world, b, f.job, i, m)
    ensures var Progress(b', i') := Advance(world, b, f.job, i, m + 1);
            && Tracks(h, b', f, i')
            && (Seen(h, b'.regs.log).Some? ==>
                  Meaning(Seen(h, b'.regs.log).value, f, Moved(f, b'.ram, i'), VerdictAt(world, b, f.job, i, m)))
    decreases m
  {
    StepTracks(h, world, b, f, i);
    if m > 0 {
      VerdictMeans(h, world, Step(world, b, f.job, i), f, StepIndex(world, b, f.job, i), m - 1);
    } else {
      StopMeans(h, world, b, f, i, VerdictAt(world, b, f.job, i, 0));
      assert Advance(world, b, f.job, i, 1) == Progress(Step(world, b, f.job, i), i);
    }
  }
}
