/**
  The arithmetic of cpu/src/ex.v computes what the instruction set asks for:
  signed comparison, arithmetic shift and signed multiplication.
 */
module MipsArithmetic {
  import opened Bits
  import opened MipsWord
  import opened MipsIsa

  lemma DifferenceSign(r1: Word, r2: Word)
    requires Bit31(r1) == Bit31(r2)
    ensures Bit31(SumResult(SltOp, r1, r2)) == (r1 < r2)
  {
    assert r1 + (0x1_0000_0000 - r2) == r1 - r2 + 0x1_0000_0000;
  }

  /** SLT compares as signed numbers, although it looks at sign bits and a wrapped difference. */
  lemma SltIsSignedLess(r1: Word, r2: Word, link: Word)
    ensures AluResult(SltOp, ArithSel, r1, r2, link) == if Signed(r1) < Signed(r2) then 1 else 0
  {
    hide SumResult, ShiftLeft, ShiftRight, ShiftRightArithmetic, LogicResult;
    if Bit31(r1) == Bit31(r2) {
      DifferenceSign(r1, r2);
    }
  }

  lemma Pow2Of32()
    ensures Pow2(31) == 0x8000_0000 && Pow2(32) == 0x1_0000_0000
  {
    assert Pow2(8) == 256;
    Pow2Add(8, 8);
    Pow2Add(16, 16);
    assert Pow2(32) == 2 * Pow2(31);
  }

  // p == 2^(32 - s) and q == 2^s: the arithmetic behind a word of s ones at the top.
  lemma TopOnes(p: int, q: int)
    requires q * p == 0x1_0000_0000 && 0 < p <= 0x1_0000_0000
    ensures (q - 1) * p == 0x1_0000_0000 - p && 0xFFFF_FFFF * p % 0x1_0000_0000 == 0x1_0000_0000 - p
  {
    assert (q - 1) * p == q * p - p;
    assert 0xFFFF_FFFF * p == 0x1_0000_0000 * (p - 1) + (0x1_0000_0000 - p);
  }

  lemma PowerFacts(s: nat)
    requires s < 32
    ensures Pow2(s) * Pow2(32 - s) == 0x1_0000_0000 && Pow2(s) * Pow2(31 - s) == 0x8000_0000
    ensures Pow2(32 - s) <= 0x1_0000_0000 && Pow2(32 - s) == 2 * Pow2(31 - s)
  {
    Pow2Of32();
    Pow2Add(s, 32 - s);
    Pow2Add(s, 31 - s);
    Pow2Monotone(32 - s, 32);
  }

  lemma QuotientRange(a: Word, q: nat, p: nat, h: nat)
    requires q > 0 && q * p == 0x1_0000_0000 && q * h == 0x8000_0000
    ensures 0 <= a / q < p && Bit31(a) == (a / q >= h)
  {
    DivMulBound(a, q, p);
    if Bit31(a) {
      var d: nat := a / q;
      assert a < q * (d + 1) by {
        assert q * (d + 1) == q * d + q;
      }
      MulMonotone(q, d + 1, h);
    } else {
      DivMulBound(a, q, h);
    }
  }

  lemma ShiftedRange(a: Word, s: nat)
    requires s < 32
    ensures 0 <= a / Pow2(s) < Pow2(32 - s) && Bit31(a) == (a / Pow2(s) >= Pow2(31 - s))
  {
    hide Pow2;
    PowerFacts(s);
    QuotientRange(a, Pow2(s), Pow2(32 - s), Pow2(31 - s));
  }

  // The signed value of a shifted word.
  lemma SraValue(a: Word, s: nat)
    requires s < 32
    ensures Signed(ShiftRightArithmetic(a, s)) == if Bit31(a) then a / Pow2(s) - Pow2(32 - s) else a / Pow2(s)
  {
    hide Pow2, ShiftRightArithmetic;
    ShiftedRange(a, s);
    PowerFacts(s);
    SraWord(a, s);
  }

  lemma SraWord(a: Word, s: nat)
    requires s < 32
    ensures ShiftRightArithmetic(a, s) ==
              if Bit31(a) then 0x1_0000_0000 - Pow2(32 - s) + a / Pow2(s) else a / Pow2(s)
  {
    hide Pow2, Or, ShiftLeft, ShiftRight;
    ShiftedRange(a, s);
    LogicalPart(a, s);
    SignPart(s);
    if Bit31(a) {
      OrDisjoint(Pow2(s) - 1, 32 - s, a / Pow2(s));
    } else {
      OrZero(a / Pow2(s));
    }
  }

  lemma LogicalPart(a: Word, s: nat)
    requires s < 32
    ensures ShiftRight(a, s) == a / Pow2(s) && Pow2(s) > 0
  {
    hide Pow2;
    ShiftedRange(a, s);
    PowerFacts(s);
  }

  // The sign bits: s ones above 32 - s zeros, or none.
  lemma SignPart(s: nat)
    requires s < 32
    ensures ShiftLeft(0xFFFF_FFFF, 32 - s) == (Pow2(s) - 1) * Pow2(32 - s) == 0x1_0000_0000 - Pow2(32 - s)
    ensures ShiftLeft(0, 32 - s) == 0
  {
    hide Pow2;
    PowerFacts(s);
    TopOnes(Pow2(32 - s), Pow2(s));
  }

  /** SRA divides the signed value by 2^s, rounding down. */
  lemma SraIsFloorDivision(a: Word, s: nat)
    requires s < 32
    ensures var q := Signed(ShiftRightArithmetic(a, s)); q * Pow2(s) <= Signed(a) < (q + 1) * Pow2(s)
  {
    hide Pow2, ShiftRightArithmetic;
    SraValue(a, s);
    PowerFacts(s);
    FloorBounds(a, Pow2(s), Pow2(32 - s));
  }

  lemma FloorBounds(a: int, q: int, p: int)
    requires q > 0 && q * p == 0x1_0000_0000
    ensures a / q * q <= a < (a / q + 1) * q
    ensures (a / q - p) * q <= a - 0x1_0000_0000 < (a / q - p + 1) * q
  {
    assert a / q * q + a % q == a;
    assert (a / q - p) * q == a / q * q - q * p;
    assert (a / q + 1) * q == a / q * q + q;
    assert (a / q - p + 1) * q == a / q * q - q * p + q;
  }

  lemma SignedProduct(x: int, y: int)
    requires -0x8000_0000 <= x < 0x8000_0000 && -0x8000_0000 <= y < 0x8000_0000
    ensures (if x < 0 then -x else x) * (if y < 0 then -y else y) == if (x < 0) != (y < 0) then -(x * y) else x * y
    ensures 0 <= (if x < 0 then -x else x) * (if y < 0 then -y else y) <= 0x4000_0000_0000_0000
  {
    var m: int, n: int := if x < 0 then -x else x, if y < 0 then -y else y;
    assert 0 <= m * n;
    assert m * n <= 0x8000_0000 * n;
    if x < 0 {
      assert m * n == -(x * n);
    }
    if y < 0 {
      assert x * n == -(x * y);
    }
  }

  lemma HighLow(p: nat, v: int)
    requires -0x4000_0000_0000_0000 <= v <= 0x4000_0000_0000_0000
    requires p == if v < 0 then 0x1_0000_0000_0000_0000 + v else v
    ensures Signed(Wrap(p / 0x1_0000_0000)) * 0x1_0000_0000 + Wrap(p) == v
  {
    assert p / 0x1_0000_0000 * 0x1_0000_0000 + p % 0x1_0000_0000 == p;
  }

  lemma Magnitude(r: Word)
    ensures (if Bit31(r) then Neg(r) else r) == if Signed(r) < 0 then 0 - Signed(r) else Signed(r)
    ensures -0x8000_0000 <= Signed(r) < 0x8000_0000 && Bit31(r) == (Signed(r) < 0)
  {}

  lemma ProductValue(r1: Word, r2: Word)
    ensures var v := Signed(r1) * Signed(r2);
            && -0x4000_0000_0000_0000 <= v <= 0x4000_0000_0000_0000
            && Product(r1, r2) == if v < 0 then 0x1_0000_0000_0000_0000 + v else v
  {
    hide Signed, Neg, Bit31;
    var x, y := Signed(r1), Signed(r2);
    Magnitude(r1);
    Magnitude(r2);
    SignedProduct(x, y);
    var m: int, n: int := if x < 0 then 0 - x else x, if y < 0 then 0 - y else y;
    var v := m * n;
    assert Product(r1, r2) == if (x < 0) != (y < 0) then (0x1_0000_0000_0000_0000 - v) % 0x1_0000_0000_0000_0000 else v;
    hide Product;
  }

  /** MULT leaves the exact signed product in HI and LO. */
  lemma MultIsSignedProduct(r1: Word, r2: Word)
    ensures Signed(HiResult(MultOp, r1, r2)) * 0x1_0000_0000 + LoResult(MultOp, r1, r2) == Signed(r1) * Signed(r2)
  {
    hide Product, Signed, Wrap;
    ProductValue(r1, r2);
    HighLow(Product(r1, r2), Signed(r1) * Signed(r2));
  }
}
