/**
 32-bit register words as sequences of bits, bit 0 first, with C++'s operators on `std::uint32_t`.
 Shift distances and field widths may be symbolic.
 */
module Words {

  type Word = w: seq<bool> | |w| == 32 witness seq(32, _ => false)

  function Zero(): Word {
    seq(32, _ => false)
  }

  function Ones(): Word {
    seq(32, _ => true)
  }

  function One(): Word {
    seq(32, i => i == 0)
  }

  function And(a: Word, b: Word): (r: Word)
    ensures forall i | 0 <= i < 32 :: r[i] == (a[i] && b[i])
  {
    seq(32, i requires 0 <= i < 32 => a[i] && b[i])
  }

  function Or(a: Word, b: Word): (r: Word)
    ensures forall i | 0 <= i < 32 :: r[i] == (a[i] || b[i])
  {
    seq(32, i requires 0 <= i < 32 => a[i] || b[i])
  }

  function Not(a: Word): (r: Word)
    ensures forall i | 0 <= i < 32 :: r[i] == !a[i]
  {
    seq(32, i requires 0 <= i < 32 => !a[i])
  }

  /** `a << n` */
  function Shl(a: Word, n: nat): (r: Word)
    ensures forall i | 0 <= i < 32 :: r[i] == (n <= i && a[i - n])
  {
    seq(32, i requires 0 <= i < 32 => n <= i && a[i - n])
  }

  /** `a >> n` */
  function Shr(a: Word, n: nat): (r: Word)
    ensures forall i | 0 <= i < 32 :: r[i] == (i + n < 32 && a[i + n])
  {
    seq(32, i requires 0 <= i < 32 => i + n < 32 && a[i + n])
  }

  /** The low `n` bits set. */
  function Mask(n: nat): (r: Word)
    ensures forall i | 0 <= i < 32 :: r[i] == (i < n)
  {
    if n >= 32 then Ones() else Not(Shl(Ones(), n))
  }

  /** A word with only bit `n` set: `1U << n`. */
  function Bit(n: nat): (r: Word)
    ensures forall i | 0 <= i < 32 :: r[i] == (i == n)
  {
    Shl(One(), n)
  }

  predicate NonZero(a: Word) {
    a != Zero()
  }

  /** The idiom `w & (1U << n)` used as a condition looks at bit `n` alone. */
  lemma BitTest(w: Word, n: nat)
    requires n < 32
    ensures NonZero(And(w, Bit(n))) <==> w[n]
  {
    var m := And(w, Bit(n));
    if w[n] {
      assert m[n] != Zero()[n];
    } else {
      assert m == Zero();
    }
  }

  // ----- A field of a word: `width` bits starting at bit `shift`

  /** Clears the field: `w &= ~(mask(width) << shift)`. */
  function ClearField(w: Word, shift: nat, width: nat): (r: Word)
    ensures forall i | 0 <= i < 32 :: r[i] == (w[i] && !(shift <= i < shift + width))
  {
    And(w, Not(Shl(Mask(width), shift)))
  }

  /** Ors the low bits of `value` into the field: `w |= (value & mask(width)) << shift`. */
  function OrField(w: Word, shift: nat, width: nat, value: Word): (r: Word)
    ensures forall i | 0 <= i < 32 :: r[i] == (w[i] || (shift <= i < shift + width && value[i - shift]))
  {
    Or(w, Shl(And(value, Mask(width)), shift))
  }

  /** Reads the field: `(w >> shift) & mask(width)`. */
  function GetField(w: Word, shift: nat, width: nat): (r: Word)
    ensures forall i | 0 <= i < 32 :: r[i] == (i < width && i + shift < 32 && w[i + shift])
  {
    And(Shr(w, shift), Mask(width))
  }

  /** Clear, then or in. */
  function PutField(w: Word, shift: nat, width: nat, value: Word): Word {
    OrField(ClearField(w, shift, width), shift, width, value)
  }

  /** A field reads back the low bits of the value put into it. */
  lemma GetAfterPut(w: Word, shift: nat, width: nat, value: Word)
    requires shift + width <= 32
    ensures GetField(PutField(w, shift, width, value), shift, width) == And(value, Mask(width))
  {
  }

  /** A field keeps its value when a field that shares no bit with it is put. */
  lemma PutFrame(w: Word, shift: nat, width: nat, value: Word, shift': nat, width': nat)
    requires shift + width <= shift' || shift' + width' <= shift
    ensures GetField(PutField(w, shift, width, value), shift', width') == GetField(w, shift', width')
  {
  }
}
