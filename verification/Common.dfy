/** Small types shared by every component of the model. */
module Common {

  datatype Option<+T> = None | Some(value: T)

  type u8 = x: int | 0 <= x < 0x100

  /** A caller's pointer: null, or an address in the one byte memory the model keeps. */
  datatype Ptr = Null | At(addr: nat)

  /** Multiplying keeps the order. */
  lemma Times(p: nat, a: int, b: int)
    requires a <= b
    ensures p * a <= p * b
  {
    assert p * (b - a) >= 0;
    assert p * b == p * a + p * (b - a);
  }
}
