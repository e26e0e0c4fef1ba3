/** GPIO pin modes (src/gpio/gpio.cpp): 54 three-bit modes packed ten to a register into six 32-bit registers. */
module Gpio {
  import opened Common
  import opened Words

  const GPIO_MAX: nat := 53

  /** The value of the C++ enum `Config`: three bits. */
  type Mode = w: Word | forall i | 3 <= i < 32 :: !w[i] witness Zero()

  predicate PinValid(n: nat) {
    n <= GPIO_MAX
  }

  predicate RegsOk(regs: seq<Word>) {
    |regs| == 6
  }

  // ----- The register updates as the driver makes them

  /** Clear the field, then or the mode in, unmasked. */
  function Written(regs: seq<Word>, n: nat, mode: Mode): (r: seq<Word>)
    requires RegsOk(regs)
    ensures RegsOk(r)
  {
    if PinValid(n) then
      var shift := n % 10 * 3;
      var cleared := And(regs[n / 10], Not(Shl(Mask(3), shift)));
      regs[n / 10 := Or(cleared, Shl(mode, shift))]
    else regs
  }

  function Field(regs: seq<Word>, n: nat): Word
    requires RegsOk(regs)
  {
    if PinValid(n) then And(Shr(regs[n / 10], n % 10 * 3), Mask(3)) else Zero()
  }

  /** The abstract state: one mode per pin. */
  function Modes(regs: seq<Word>): (m: seq<Word>)
    requires RegsOk(regs)
    ensures |m| == 54
  {
    seq(54, n requires 0 <= n < 54 => Field(regs, n))
  }

  /** Bit by bit: pin `n` has bits `n % 10 * 3` and the two above it of register `n / 10`, and a write changes no other
      bit. */
  lemma WrittenBits(regs: seq<Word>, n: nat, mode: Mode, k: nat, i: nat)
    requires RegsOk(regs) && k < 6 && i < 32
    ensures Written(regs, n, mode)[k][i] ==
            if n <= 53 && k == n / 10 && n % 10 * 3 <= i < n % 10 * 3 + 3 then mode[i - n % 10 * 3] else regs[k][i]
  {
  }

  lemma FieldBits(regs: seq<Word>, n: nat, j: nat)
    requires RegsOk(regs) && j < 32
    ensures Field(regs, n)[j] == (n <= 53 && j < 3 && regs[n / 10][n % 10 * 3 + j])
  {
  }

  lemma FieldFrame(w: Word, mode: Mode, k: nat, j: nat)
    requires k < 10 && j < 10
    ensures var w' := Or(And(w, Not(Shl(Mask(3), k * 3))), Shl(mode, k * 3));
            And(Shr(w', j * 3), Mask(3)) == if j == k then mode else And(Shr(w, j * 3), Mask(3))
  {
    var w' := Or(And(w, Not(Shl(Mask(3), k * 3))), Shl(mode, k * 3));
    var got, want := And(Shr(w', j * 3), Mask(3)), if j == k then mode else And(Shr(w, j * 3), Mask(3));
    forall i | 0 <= i < 32 ensures got[i] == want[i] {
    }
  }

  /** A packed write is an update of the one pin's mode; an invalid pin changes nothing. */
  lemma WrittenIsUpdate(regs: seq<Word>, n: nat, mode: Mode)
    requires RegsOk(regs)
    ensures Modes(Written(regs, n, mode)) == if PinValid(n) then Modes(regs)[n := mode] else Modes(regs)
  {
    if PinValid(n) {
      var got, want := Modes(Written(regs, n, mode)), Modes(regs)[n := mode];
      forall j | 0 <= j < 54 ensures got[j] == want[j] {
        if j / 10 == n / 10 {
          FieldFrame(regs[n / 10], mode, n % 10, j % 10);
        }
      }
    }
  }

  // ----- Runs

  datatype PinOp = SetMode(n: nat, mode: Mode) | ToOutput(n: nat) | ToInput(n: nat)

  function ModeOf(op: PinOp): Mode {
    match op
    case SetMode(_, mode) => mode
    case ToOutput(_) => One()
    case ToInput(_) => Zero()
  }

  function RunPins(regs: seq<Word>, ops: seq<PinOp>): (r: seq<Word>)
    requires RegsOk(regs)
    ensures RegsOk(r)
  {
    if ops == [] then regs
    else Written(RunPins(regs, ops[..|ops| - 1]), ops[|ops| - 1].n, ModeOf(ops[|ops| - 1]))
  }

  /** The last mode a pin was given, if it was given any. */
  function LastMode(ops: seq<PinOp>, n: nat): Option<Word> {
    if ops == [] then None
    else if ops[|ops| - 1].n == n then Some(ModeOf(ops[|ops| - 1]))
    else LastMode(ops[..|ops| - 1], n)
  }

  /** After any run, a pin reads the last mode it was given, or what it read before; whatever was done to the others. */
  lemma {:induction false} RunReadsLast(regs: seq<Word>, ops: seq<PinOp>, n: nat)
    requires RegsOk(regs)
    ensures Field(RunPins(regs, ops), n)
         == if PinValid(n) && LastMode(ops, n).Some? then LastMode(ops, n).value else Field(regs, n)
    decreases |ops|
  {
    if ops != [] {
      var before, op := RunPins(regs, ops[..|ops| - 1]), ops[|ops| - 1];
      RunReadsLast(regs, ops[..|ops| - 1], n);
      WrittenIsUpdate(before, op.n, ModeOf(op));
      if PinValid(n) {
        assert Modes(before)[n] == Field(before, n);
        assert Modes(Written(before, op.n, ModeOf(op)))[n] == Field(RunPins(regs, ops), n);
      }
    }
  }

  // ----- The driver

  class GpioBlock {
    const register: array<Word>

    constructor ()
      ensures register.Length == 6 && fresh(register)
    {
      register := new Word[6](_ => Zero());
    }

    method Write(n: nat, mode: Mode)
      requires register.Length == 6
      modifies register
      ensures register[..] == Written(old(register[..]), n, mode)
      ensures Modes(register[..])
           == if PinValid(n) then Modes(old(register[..]))[n := mode] else Modes(old(register[..]))
    {
      WrittenIsUpdate(register[..], n, mode);
      if n <= GPIO_MAX {
        register[n / 10] := And(register[n / 10], Not(Shl(Mask(3), n % 10 * 3)));
        register[n / 10] := Or(register[n / 10], Shl(mode, n % 10 * 3));
      }
    }

    method Output(n: nat)
      requires register.Length == 6
      modifies register
      ensures register[..] == Written(old(register[..]), n, One())
      ensures Modes(register[..])
           == if PinValid(n) then Modes(old(register[..]))[n := One()] else Modes(old(register[..]))
    {
      WrittenIsUpdate(register[..], n, One());
      if n <= GPIO_MAX {
        register[n / 10] := And(register[n / 10], Not(Shl(Mask(3), n % 10 * 3)));
        register[n / 10] := Or(register[n / 10], Shl(One(), n % 10 * 3));
      }
    }

    method Input(n: nat)
      requires register.Length == 6
      modifies register
      ensures register[..] == Written(old(register[..]), n, Zero())
      ensures Modes(register[..])
           == if PinValid(n) then Modes(old(register[..]))[n := Zero()] else Modes(old(register[..]))
    {
      WrittenIsUpdate(register[..], n, Zero());
      if n <= GPIO_MAX {
        register[n / 10] := And(register[n / 10], Not(Shl(Mask(3), n % 10 * 3)));
        assert register[n / 10] == Or(register[n / 10], Shl(Zero(), n % 10 * 3));
      }
    }

    method Read(n: nat) returns (mode: Word)
      requires register.Length == 6
      ensures mode == if PinValid(n) then Modes(register[..])[n] else Zero()
    {
      if n <= GPIO_MAX {
        return And(Shr(register[n / 10], n % 10 * 3), Mask(3));
      }
      return Zero();
    }
  }
}
