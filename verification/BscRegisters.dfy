/**
 The BSC register driver (src/i2c/i2c.cpp) over the register block of the BCM2837's I2C master.

 The block is hardware, not memory. A store to S clears the bits it names; the fields CLEAR and ST of C act once
 and read back as zero; reads of S and FIFO return whatever the outside world shows, here an arbitrary `World`.
 Every access that the device can notice is kept, in order, in a transcript.
 */
module BscRegisters {
  import opened Common
  import opened Words

  datatype Control = READ | CLEAR | ST | INTD | INTT | INTR | I2CEN | C_ALL

  datatype Status = TA | DONE | TXW | RXR | TXD | RXD | TXE | RXF | ERR | CLKT_TO | S_ALL

  datatype Field = Field(shift: nat, width: nat)

  function ControlField(f: Control): Field {
    match f
    case READ => Field(0, 1)
    case CLEAR => Field(4, 2)
    case ST => Field(7, 1)
    case INTD => Field(8, 1)
    case INTT => Field(9, 1)
    case INTR => Field(10, 1)
    case I2CEN => Field(15, 1)
    case C_ALL => Field(0, 32)
  }

  function StatusShift(f: Status): nat {
    match f
    case TA => 0
    case DONE => 1
    case TXW => 2
    case RXR => 3
    case TXD => 4
    case RXD => 5
    case TXE => 6
    case RXF => 7
    case ERR => 8
    case CLKT_TO => 9
    case S_ALL => 0
  }

  /** The fields of a word of C that mean something to the device. `clear` is set if either CLEAR bit is. */
  datatype Ctl = Ctl(read: bool, clear: bool, st: bool, intd: bool, intt: bool, intr: bool, en: bool)

  function Decode(w: Word): Ctl {
    Ctl(w[0], w[4] || w[5], w[7], w[8], w[9], w[10], w[15])
  }

  /** The interrupt output of the block can only be high while one of INTD, INTT, INTR is set. */
  predicate IntsOn(c: Ctl) {
    c.intd || c.intt || c.intr
  }

  /** `get_control` after `set_control`, the bits being plain memory: the field reads back the low bits of the value,
      and every other named field reads back what it did. The named fields share no bit. */
  lemma ControlFieldLaws(w: Word, f: Control, value: Word, g: Control)
    ensures
      var (a, b) := (ControlField(f), ControlField(g));
      var w' := PutField(w, a.shift, a.width, value);
      && GetField(w', a.shift, a.width) == And(value, Mask(a.width))
      && (f != g && f != C_ALL && g != C_ALL ==> GetField(w', b.shift, b.width) == GetField(w, b.shift, b.width))
  {
    var a, b := ControlField(f), ControlField(g);
    GetAfterPut(w, a.shift, a.width, value);
    if f != g && f != C_ALL && g != C_ALL { PutFrame(w, a.shift, a.width, value, b.shift, b.width); }
  }

  /** What C reads back after `v` was stored: the one-shot fields CLEAR and ST come back as zero. */
  function ReadBack(v: Word): Word {
    And(v, Not(Or(Or(Bit(4), Bit(5)), Bit(7))))
  }

  /** The bits of C by number: what each means to the device, and which the driver's fields cover. */
  lemma ControlBits(i: nat)
    requires i < 32
    ensures Decode(Bit(i)) == Ctl(i == 0, i == 4 || i == 5, i == 7, i == 8, i == 9, i == 10, i == 15)
    ensures forall f: Control | f != C_ALL ::
              var fld := ControlField(f);
              fld.shift <= i < fld.shift + fld.width <==>
              match f
              case READ => i == 0
              case CLEAR => i == 4 || i == 5
              case ST => i == 7
              case INTD => i == 8
              case INTT => i == 9
              case INTR => i == 10
              case I2CEN => i == 15
  {
  }

  // ----- The same read-modify-writes on the decoded fields

  function Dropped(c: Ctl, f: Control): Ctl {
    match f
    case READ => c.(read := false)
    case CLEAR => c.(clear := false)
    case ST => c.(st := false)
    case INTD => c.(intd := false)
    case INTT => c.(intt := false)
    case INTR => c.(intr := false)
    case I2CEN => c.(en := false)
    case C_ALL => Ctl(false, false, false, false, false, false, false)
  }

  function Raised(c: Ctl, f: Control, value: Word): Ctl {
    match f
    case READ => c.(read := c.read || value[0])
    case CLEAR => c.(clear := c.clear || value[0] || value[1])
    case ST => c.(st := c.st || value[0])
    case INTD => c.(intd := c.intd || value[0])
    case INTT => c.(intt := c.intt || value[0])
    case INTR => c.(intr := c.intr || value[0])
    case I2CEN => c.(en := c.en || value[0])
    case C_ALL =>
      var v := Decode(value);
      Ctl(c.read || v.read, c.clear || v.clear, c.st || v.st, c.intd || v.intd, c.intt || v.intt, c.intr || v.intr,
          c.en || v.en)
  }

  /** Bits outside the field keep their values, the one-shot ones excepted, which always read as zero. */
  ghost predicate OthersKept(w: Word, w': Word, f: Control) {
    forall i | 0 <= i < 32 && !(ControlField(f).shift <= i < ControlField(f).shift + ControlField(f).width) ::
      w'[i] == (w[i] && i != 4 && i != 5 && i != 7)
  }

  /** The masks and shifts of the driver change exactly the field they name. */
  lemma DecodeField(w: Word, f: Control, value: Word)
    ensures Decode(ClearField(w, ControlField(f).shift, ControlField(f).width)) == Dropped(Decode(w), f)
    ensures Decode(OrField(w, ControlField(f).shift, ControlField(f).width, value)) == Raised(Decode(w), f, value)
  {
    DecodeCleared(w, f);
    DecodeOred(w, f, value);
  }

  predicate In(i: nat, shift: nat, width: nat) {
    shift <= i < shift + width
  }

  lemma DecodeClearField(w: Word, shift: nat, width: nat)
    ensures
      var r := Decode(ClearField(w, shift, width));
      && r.read == (w[0] && !In(0, shift, width))
      && r.clear == ((w[4] && !In(4, shift, width)) || (w[5] && !In(5, shift, width)))
      && r.st == (w[7] && !In(7, shift, width))
      && r.intd == (w[8] && !In(8, shift, width))
      && r.intt == (w[9] && !In(9, shift, width))
      && r.intr == (w[10] && !In(10, shift, width))
      && r.en == (w[15] && !In(15, shift, width))
  {
  }

  lemma DecodeCleared(w: Word, f: Control)
    ensures Decode(ClearField(w, ControlField(f).shift, ControlField(f).width)) == Dropped(Decode(w), f)
  {
    match f
    case READ => DecodeClearField(w, 0, 1);
    case CLEAR => DecodeClearField(w, 4, 2);
    case ST => DecodeClearField(w, 7, 1);
    case INTD => DecodeClearField(w, 8, 1);
    case INTT => DecodeClearField(w, 9, 1);
    case INTR => DecodeClearField(w, 10, 1);
    case I2CEN => DecodeClearField(w, 15, 1);
    case C_ALL => DecodeClearField(w, 0, 32);
  }

  /** Is bit `i` of the shifted value set? */
  predicate Ors(i: nat, shift: nat, width: nat, value: Word)
    requires i < 32
  {
    shift <= i < shift + width && value[i - shift]
  }

  lemma DecodeOrField(w: Word, shift: nat, width: nat, value: Word)
    ensures
      var r := Decode(OrField(w, shift, width, value));
      && r.read == (w[0] || Ors(0, shift, width, value))
      && r.clear == ((w[4] || Ors(4, shift, width, value)) || (w[5] || Ors(5, shift, width, value)))
      && r.st == (w[7] || Ors(7, shift, width, value))
      && r.intd == (w[8] || Ors(8, shift, width, value))
      && r.intt == (w[9] || Ors(9, shift, width, value))
      && r.intr == (w[10] || Ors(10, shift, width, value))
      && r.en == (w[15] || Ors(15, shift, width, value))
  {
  }

  lemma DecodeOredAll(w: Word, value: Word)
    ensures Decode(OrField(w, 0, 32, value)) == Raised(Decode(w), C_ALL, value)
  {
    DecodeOrField(w, 0, 32, value);
  }

  lemma DecodeOredClear(w: Word, value: Word)
    ensures Decode(OrField(w, 4, 2, value)) == Raised(Decode(w), CLEAR, value)
  {
    DecodeOrField(w, 4, 2, value);
  }

  lemma DecodeOredBit(w: Word, n: nat, value: Word)
    requires n < 32 && n != 4 && n != 5
    ensures
      var (c, r) := (Decode(w), Decode(OrField(w, n, 1, value)));
      && r.read == (c.read || (n == 0 && value[0])) && r.clear == c.clear
      && r.st == (c.st || (n == 7 && value[0])) && r.intd == (c.intd || (n == 8 && value[0]))
      && r.intt == (c.intt || (n == 9 && value[0])) && r.intr == (c.intr || (n == 10 && value[0]))
      && r.en == (c.en || (n == 15 && value[0]))
  {
    DecodeOrField(w, n, 1, value);
  }

  lemma DecodeOred(w: Word, f: Control, value: Word)
    ensures Decode(OrField(w, ControlField(f).shift, ControlField(f).width, value)) == Raised(Decode(w), f, value)
  {
    match f
    case CLEAR => DecodeOredClear(w, value);
    case C_ALL => DecodeOredAll(w, value);
    case _ => DecodeOredBit(w, ControlField(f).shift, value);
  }

  lemma DecodeReadBack(v: Word)
    ensures Decode(ReadBack(v)) == Decode(v).(clear := false, st := false)
  {
  }

  /** What happens at the block's registers, as the device notices it. */
  datatype Op =
    | WriteC(ctl: Ctl)
    | WriteS(word: Word)
    | WriteA(addr: nat)
    | WriteDlen(len: nat)
    | WriteDiv(div: nat)
    | ReadS(word: Word)
    | Push(byte: u8)
    | Pop(byte: u8)

  /** What the n-th read of S and the n-th read of FIFO return. Anything is possible. */
  datatype World = World(status: nat -> Word, fifo: nat -> nat)

  /** The registers the driver can rely on, how much of the world it has read, and the transcript. */
  datatype Regs = Regs(c: Ctl, a: nat, dlen: nat, div: nat, polls: nat, pops: nat, log: seq<Op>)

  // ----- What each driver call does to the registers

  function StoreC(r: Regs, v: Ctl): Regs {
    r.(c := v.(clear := false, st := false), log := r.log + [WriteC(v)])
  }

  function ClrControl(r: Regs, f: Control): Regs {
    StoreC(r, Dropped(r.c, f))
  }

  function SetControl(r: Regs, f: Control, value: Word): Regs {
    var r' := ClrControl(r, f);
    StoreC(r', Raised(r'.c, f, value))
  }

  function ClrStatus(r: Regs, f: Status): Regs {
    r.(log := r.log + [WriteS(Bit(StatusShift(f)))])
  }

  function SetAddress(r: Regs, addr: nat): Regs {
    r.(a := addr % 0x80, log := r.log + [WriteA(addr % 0x80)])
  }

  function SetLength(r: Regs, len: nat): Regs {
    r.(dlen := len % 0x1_0000, log := r.log + [WriteDlen(len % 0x1_0000)])
  }

  function SetDivider(r: Regs, divider: nat): Regs {
    r.(div := divider % 0x1_0000, log := r.log + [WriteDiv(divider % 0x1_0000)])
  }

  /** A run of `clr_status` calls. */
  function ClrFlags(r: Regs, flags: seq<Status>): Regs
    decreases |flags|
  {
    if flags == [] then r else ClrFlags(ClrStatus(r, flags[0]), flags[1..])
  }

  lemma ClrFlagsNext(r: Regs, f: Status, rest: seq<Status>)
    ensures ClrFlags(r, [f] + rest) == ClrFlags(ClrStatus(r, f), rest)
  {
    assert ([f] + rest)[1..] == rest;
  }

  function ClearFlags(r: Regs): (r': Regs)
    ensures r' == r.(log := r'.log)
  {
    ClearFlagsIs(r);
    ClrFlags(r, [DONE, ERR, CLKT_TO])
  }

  lemma ClearFlagsIs(r: Regs)
    ensures ClrFlags(r, [DONE, ERR, CLKT_TO]) == ClrStatus(ClrStatus(ClrStatus(r, DONE), ERR), CLKT_TO)
  {
    assert [DONE, ERR, CLKT_TO] == [DONE] + [ERR, CLKT_TO];
    assert [ERR, CLKT_TO] == [ERR] + [CLKT_TO] && [CLKT_TO] == [CLKT_TO] + [];
    ClrFlagsNext(r, DONE, [ERR, CLKT_TO]);
    ClrFlagsNext(ClrStatus(r, DONE), ERR, [CLKT_TO]);
    ClrFlagsNext(ClrStatus(ClrStatus(r, DONE), ERR), CLKT_TO, []);
  }

  datatype Setting = Setting(f: Control, value: Word)

  /** A run of `clr_control` calls. */
  function ClrAll(r: Regs, fields: seq<Control>): Regs
    decreases |fields|
  {
    if fields == [] then r else ClrAll(ClrControl(r, fields[0]), fields[1..])
  }

  lemma ClrAllNext(r: Regs, f: Control, rest: seq<Control>)
    ensures ClrAll(r, [f] + rest) == ClrAll(ClrControl(r, f), rest)
  {
    assert ([f] + rest)[1..] == rest;
  }

  lemma ClrThree(r: Regs, f1: Control, f2: Control, f3: Control)
    ensures ClrAll(r, [f1, f2, f3]) == ClrControl(ClrControl(ClrControl(r, f1), f2), f3)
  {
    assert [f1, f2, f3] == [f1] + [f2, f3] && [f2, f3] == [f2] + [f3] && [f3] == [f3] + [];
    ClrAllNext(r, f1, [f2, f3]);
    ClrAllNext(ClrControl(r, f1), f2, [f3]);
    ClrAllNext(ClrControl(ClrControl(r, f1), f2), f3, []);
  }

  /** A run of `set_control` calls. */
  function SetAll(r: Regs, settings: seq<Setting>): Regs
    decreases |settings|
  {
    if settings == [] then r
    else SetAll(SetControl(r, settings[0].f, settings[0].value), settings[1..])
  }

  lemma SetAllNext(r: Regs, s: Setting, rest: seq<Setting>)
    ensures SetAll(r, [s] + rest) == SetAll(SetControl(r, s.f, s.value), rest)
  {
    assert ([s] + rest)[1..] == rest;
  }

  lemma SetThree(r: Regs, s1: Setting, s2: Setting, s3: Setting)
    ensures SetAll(r, [s1, s2, s3]) ==
            SetControl(SetControl(SetControl(r, s1.f, s1.value), s2.f, s2.value), s3.f, s3.value)
  {
    var r1 := SetControl(r, s1.f, s1.value);
    var r2 := SetControl(r1, s2.f, s2.value);
    assert [s1, s2, s3] == [s1] + [s2, s3] && [s2, s3] == [s2] + [s3] && [s3] == [s3] + [];
    SetAllNext(r, s1, [s2, s3]);
    SetAllNext(r1, s2, [s3]);
    SetAllNext(r2, s3, []);
  }

  /** The FIFO is cleared by a one-shot bit. */
  function ClearFifo(r: Regs): (r': Regs)
    ensures r'.c == r.c.(clear := false, st := false)
    ensures r'.a == r.a && r'.dlen == r.dlen && r'.div == r.div && r'.polls == r.polls && r'.pops == r.pops
  {
    ClearFifoSets(r);
    SetAll(r, [Setting(CLEAR, One())])
  }

  lemma ClearFifoSets(r: Regs)
    ensures SetAll(r, [Setting(CLEAR, One())]) == SetControl(r, CLEAR, One())
  {
    assert [Setting(CLEAR, One())] == [Setting(CLEAR, One())] + [];
    SetAllNext(r, Setting(CLEAR, One()), []);
  }

  /** `start_read` or `start_write`. */
  function Start(r: Regs, reading: bool): (r': Regs)
    ensures r'.c == r.c.(clear := false, st := false, en := true, read := reading)
    ensures r'.a == r.a && r'.dlen == r.dlen && r'.div == r.div && r'.polls == r.polls && r'.pops == r.pops
  {
    var direction := if reading then One() else Zero();
    SetThree(r, Setting(I2CEN, One()), Setting(READ, direction), Setting(ST, One()));
    SetAll(r, [Setting(I2CEN, One()), Setting(READ, direction), Setting(ST, One())])
  }

  lemma StartIs(r: Regs, reading: bool)
    ensures Start(r, reading) ==
            SetControl(SetControl(SetControl(r, I2CEN, One()), READ, if reading then One() else Zero()), ST, One())
  {
    SetThree(r, Setting(I2CEN, One()), Setting(READ, if reading then One() else Zero()), Setting(ST, One()));
  }

  function Poll(world: World, r: Regs): Regs {
    r.(polls := r.polls + 1, log := r.log + [ReadS(world.status(r.polls))])
  }

  function PushByte(r: Regs, b: u8): Regs {
    r.(log := r.log + [Push(b)])
  }

  /** The byte the next read of FIFO yields. */
  function NextByte(world: World, r: Regs): u8 {
    world.fifo(r.pops) % 0x100
  }

  function PopByte(world: World, r: Regs): Regs {
    r.(pops := r.pops + 1, log := r.log + [Pop(NextByte(world, r))])
  }

  // ----- The driver itself

  class I2c {
    const world: World
    var c: Word
    var a: nat
    var dlen: nat
    var div: nat
    var polls: nat
    var pops: nat
    ghost var log: seq<Op>

    ghost function State(): Regs
      reads this
    {
      Regs(Decode(c), a, dlen, div, polls, pops, log)
    }

    constructor (world: World, c: Word)
      ensures this.world == world && this.c == c && log == []
    {
      this.world := world;
      this.c := c;
      a, dlen, div, polls, pops := 0, 0, 0, 0, 0;
      log := [];
    }

    /** A store to C reaches the device as written and reads back without the one-shot bits. */
    method WriteControl(v: Word)
      modifies this
      ensures State() == StoreC(old(State()), Decode(v)) && c == ReadBack(v)
    {
      DecodeReadBack(v);
      c := ReadBack(v);
      log := log + [WriteC(Decode(v))];
    }

    method SetControlField(f: Control, value: Word)
      modifies this
      ensures State() == SetControl(old(State()), f, value)
      ensures OthersKept(old(c), c, f)
    {
      var fld := ControlField(f);
      DecodeField(c, f, value);
      WriteControl(And(c, Not(Shl(Mask(fld.width), fld.shift))));
      DecodeField(c, f, value);
      WriteControl(Or(c, Shl(And(value, Mask(fld.width)), fld.shift)));
    }

    method ClrControlField(f: Control)
      modifies this
      ensures State() == ClrControl(old(State()), f)
      ensures OthersKept(old(c), c, f)
    {
      var fld := ControlField(f);
      DecodeField(c, f, Zero());
      WriteControl(And(c, Not(Shl(Mask(fld.width), fld.shift))));
    }

    method ClrStatusBit(f: Status)
      modifies this
      ensures State() == ClrStatus(old(State()), f)
    {
      log := log + [WriteS(Bit(StatusShift(f)))];
    }

    method SlaveAddress(addr: nat)
      modifies this
      ensures State() == SetAddress(old(State()), addr)
      ensures a == addr % 0x80
    {
      a := addr % 0x80;
      log := log + [WriteA(addr % 0x80)];
    }

    /** `len` is the caller's size_t: it is cut to 32 bits on the way in and to 16 bits in the register. */
    method DataLength(len: nat)
      modifies this
      ensures State() == SetLength(old(State()), len)
      ensures dlen == len % 0x1_0000
    {
      var value := len % 0x1_0000_0000;
      dlen := value % 0x1_0000;
      log := log + [WriteDlen(dlen)];
    }

    method ClockDivider(divider: nat)
      modifies this
      ensures State() == SetDivider(old(State()), divider)
      ensures div == divider % 0x1_0000
    {
      div := divider % 0x1_0000;
      log := log + [WriteDiv(div)];
    }

    method ClearTheFifo()
      modifies this
      ensures State() == ClearFifo(old(State()))
    {
      ClearFifoSets(State());
      SetControlField(CLEAR, One());
    }

    method Enable()
      modifies this
      ensures State() == SetControl(old(State()), I2CEN, One())
    {
      SetControlField(I2CEN, One());
    }

    method StartRead()
      modifies this
      ensures State() == Start(old(State()), true)
    {
      StartIs(State(), true);
      Enable();
      SetControlField(READ, One());
      SetControlField(ST, One());
    }

    method StartWrite()
      modifies this
      ensures State() == Start(old(State()), false)
    {
      StartIs(State(), false);
      Enable();
      SetControlField(READ, Zero());
      SetControlField(ST, One());
    }

    method ReadStatus() returns (s: Word)
      modifies this
      ensures s == world.status(old(polls))
      ensures State() == Poll(world, old(State()))
    {
      s := world.status(polls);
      polls := polls + 1;
      log := log + [ReadS(s)];
    }

    method WriteByte(b: u8)
      modifies this
      ensures State() == PushByte(old(State()), b)
    {
      log := log + [Push(b)];
    }

    method ReadByte() returns (b: u8)
      modifies this
      ensures b == NextByte(world, old(State()))
      ensures State() == PopByte(world, old(State()))
    {
      b := world.fifo(pops) % 0x100;
      pops := pops + 1;
      log := log + [Pop(b)];
    }
  }
}
