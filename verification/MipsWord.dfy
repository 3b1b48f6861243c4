/**
  32-bit words as integers, with the bit operations of cpu/src/ex.v.
 */
module MipsWord {
  import opened Bits

  type Word = w: int | 0 <= w < 0x1_0000_0000

  function Wrap(x: int): Word {
    x % 0x1_0000_0000
  }

  function Add(a: Word, b: Word): Word {
    Wrap(a + b)
  }

  // Two's complement negation, ~a + 1.
  function Neg(a: Word): Word {
    Wrap(0x1_0000_0000 - a)
  }

  predicate Bit31(a: Word) {
    a >= 0x8000_0000
  }

  function Signed(a: Word): int {
    if Bit31(a) then a - 0x1_0000_0000 else a
  }

  // A 16-bit field, sign-extended to 32 bits.
  function SignExtend16(a: nat): Word
    requires a < 0x1_0000
  {
    if a >= 0x8000 then a + 0xFFFF_0000 else a
  }

  function SignExtend8(a: nat): Word
    requires a < 0x100
  {
    if a >= 0x80 then a + 0xFFFF_FF00 else a
  }

  // OR of numbers without common bits is their sum.
  lemma OrDisjoint(a: nat, k: nat, b: nat)
    requires b < Pow2(k)
    ensures Or(a * Pow2(k), b) == a * Pow2(k) + b
  {
    OrLow(a, k, 0, b);
    OrZero(b);
    hide Or;
  }
}
