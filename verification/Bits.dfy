/**
  Bit arithmetic on unbounded naturals: powers of two, bitwise AND, OR and XOR, and
  the start of the aligned 2^o block that holds a number.  All facts go by
  induction on the number of bits, so no division by a variable is needed.
 */
module Bits {
  type Byte = b: int | 0 <= b < 256

  function Pow2(o: nat): (r: nat)
    ensures r >= 1
  {
    if o == 0 then 1 else 2 * Pow2(o - 1)
  }

  function And(a: nat, b: nat): nat {
    if a == 0 || b == 0 then 0 else 2 * And(a / 2, b / 2) + if a % 2 == 1 && b % 2 == 1 then 1 else 0
  }

  function Xor(a: nat, b: nat): nat
    decreases a + b
  {
    if a == 0 then b else if b == 0 then a else 2 * Xor(a / 2, b / 2) + (a % 2 + b % 2) % 2
  }

  // Bitwise OR.
  function Or(a: nat, b: nat): nat
    decreases a + b
  {
    if a == 0 then b else if b == 0 then a
    else 2 * Or(a / 2, b / 2) + (if a % 2 == 1 || b % 2 == 1 then 1 else 0)
  }

  // Bit o of a.
  function Bit(a: nat, o: nat): nat {
    if o == 0 then a % 2 else Bit(a / 2, o - 1)
  }

  // a with its o low bits cleared.
  function Floor(a: nat, o: nat): nat {
    if o == 0 then a else 2 * Floor(a / 2, o - 1)
  }

  // The sibling of the order-o block that starts at a.
  function Sibling(a: nat, o: nat): nat {
    Xor(a, Pow2(o))
  }

  // And, Or and Xor work bit by bit.
  lemma {:induction false} BitwiseAnd(a: nat, b: nat, o: nat)
    ensures Bit(And(a, b), o) == 1 <==> Bit(a, o) == 1 && Bit(b, o) == 1
    decreases o
  {
    NoBits(o);
    if o > 0 && a != 0 && b != 0 {
      BitwiseAnd(a / 2, b / 2, o - 1);
    }
  }

  lemma {:induction false} BitwiseOr(a: nat, b: nat, o: nat)
    ensures Bit(Or(a, b), o) == 1 <==> Bit(a, o) == 1 || Bit(b, o) == 1
    decreases o
  {
    NoBits(o);
    if o > 0 && a != 0 && b != 0 {
      BitwiseOr(a / 2, b / 2, o - 1);
    }
  }

  lemma {:induction false} BitwiseXor(a: nat, b: nat, o: nat)
    ensures Bit(Xor(a, b), o) == 1 <==> (Bit(a, o) == 1) != (Bit(b, o) == 1)
    decreases o
  {
    NoBits(o);
    if a != 0 && b != 0 {
      var r := Xor(a / 2, b / 2);
      assert Xor(a, b) == 2 * r + (a % 2 + b % 2) % 2;
      assert Xor(a, b) / 2 == r && Xor(a, b) % 2 == (a % 2 + b % 2) % 2;
      if o > 0 {
        BitwiseXor(a / 2, b / 2, o - 1);
      }
      hide Xor;
    }
  }

  lemma {:induction false} NoBits(o: nat)
    ensures Bit(0, o) == 0
  {
    if o > 0 {
      NoBits(o - 1);
    }
  }

  lemma Pow2Monotone(a: nat, b: nat)
    requires a <= b
    ensures Pow2(a) <= Pow2(b)
    decreases b
  {
    if a < b {
      Pow2Monotone(a, b - 1);
    }
  }

  lemma {:induction false} FloorRange(a: nat, o: nat)
    ensures Floor(a, o) <= a < Floor(a, o) + Pow2(o)
  {
    if o > 0 {
      FloorRange(a / 2, o - 1);
    }
  }

  lemma {:induction false} FloorFloor(a: nat, o: nat, o': nat)
    requires o <= o'
    ensures Floor(Floor(a, o), o') == Floor(a, o')
  {
    if o > 0 {
      FloorFloor(a / 2, o - 1, o' - 1);
    }
  }

  // An aligned block holds exactly the numbers whose Floor is its start.
  lemma {:induction false} FloorUnique(a: nat, b: nat, o: nat)
    requires Floor(b, o) == b
    requires b <= a < b + Pow2(o)
    ensures Floor(a, o) == b
  {
    if o > 0 {
      assert b == 2 * Floor(b / 2, o - 1) && b % 2 == 0;
      FloorUnique(a / 2, b / 2, o - 1);
    }
  }

  lemma {:induction false} FloorWeaken(b: nat, o: nat, o': nat)
    requires o <= o' && Floor(b, o') == b
    ensures Floor(b, o) == b
  {
    if o > 0 {
      assert b == 2 * Floor(b / 2, o' - 1);
      assert b / 2 == Floor(b / 2, o' - 1);
      FloorWeaken(b / 2, o - 1, o' - 1);
    }
  }

  // XOR with 2^o flips bit o.
  lemma {:induction false} XorPow2(a: nat, o: nat)
    ensures Bit(a, o) == 0 ==> Xor(a, Pow2(o)) == a + Pow2(o)
    ensures Bit(a, o) == 1 ==> Xor(a, Pow2(o)) == a - Pow2(o)
    ensures Bit(a, o) == 0 || Bit(a, o) == 1
  {
    hide Xor, Bit, Pow2;
    if o == 0 {
      XorOne(a);
    } else {
      XorPow2(a / 2, o - 1);
      OneUp(a, o);
      XorStep(a, Pow2(o));
    }
  }

  lemma XorStep(a: nat, b: nat)
    ensures Xor(a, b) == 2 * Xor(a / 2, b / 2) + (a % 2 + b % 2) % 2
  {}

  lemma XorOne(a: nat)
    ensures Pow2(0) == 1 && Bit(a, 0) == a % 2 && Xor(a, 1) == if a % 2 == 0 then a + 1 else a - 1
  {
    XorStep(a, 1);
    assert Xor(a / 2, 0) == a / 2;
  }

  lemma {:induction false} BitZero(o: nat)
    ensures Bit(0, o) == 0
  {
    if o > 0 { BitZero(o - 1); }
  }

  // Masking with 2^o - 1 gives the low bits: it is zero exactly on aligned numbers.
  lemma {:induction false} AndMask(a: nat, o: nat)
    ensures And(a, Pow2(o) - 1) == a - Floor(a, o)
  {
    if o == 0 {
    } else {
      AndMask(a / 2, o - 1);
      assert (Pow2(o) - 1) / 2 == Pow2(o - 1) - 1 && (Pow2(o) - 1) % 2 == 1;
      if a == 0 {
        FloorRange(0, o);
      }
    }
  }

  // Masking with 2^o tests bit o.
  lemma {:induction false} AndPow2(a: nat, o: nat)
    ensures And(a, Pow2(o)) != 0 <==> Bit(a, o) == 1
  {
    if a == 0 {
      BitZero(o);
    } else if o == 0 {
      assert Pow2(0) == 1 && And(a / 2, 0) == 0;
    } else {
      AndPow2(a / 2, o - 1);
      assert Pow2(o) / 2 == Pow2(o - 1) && Pow2(o) % 2 == 0;
    }
  }

  lemma {:induction false} AndComm(a: nat, b: nat)
    ensures And(a, b) == And(b, a)
    decreases a
  {
    if a > 0 && b > 0 {
      AndComm(a / 2, b / 2);
    }
  }

  lemma {:induction false} AndSelf(a: nat)
    ensures And(a, a) == a
  {
    if a > 0 {
      AndSelf(a / 2);
    }
  }

  // The merge step: ANDing a block's start with its sibling's start gives the parent's start.
  lemma {:induction false} AndSibling(a: nat, o: nat)
    requires Floor(a, o) == a
    ensures And(a, Sibling(a, o)) == Floor(a, o + 1)
  {
    hide And, Floor, Sibling;
    AndStep(a, Sibling(a, o));
    if a == 0 {
      AndZero(Sibling(0, o));
      FloorRange(0, o + 1);
    } else if o == 0 {
      NextTo(a);
      AndSelf(a / 2);
    } else {
      SiblingStep(a, o);
      AndSibling(a / 2, o - 1);
    }
  }

  lemma AndStep(a: nat, b: nat)
    ensures And(a, b) == 2 * And(a / 2, b / 2) + if a % 2 == 1 && b % 2 == 1 then 1 else 0
  {}

  lemma AndZero(b: nat)
    ensures And(0, b) == 0
  {}

  lemma NextTo(a: nat)
    requires a > 0
    ensures Sibling(a, 0) == 2 * (a / 2) + (a % 2 + 1) % 2 && Floor(a, 1) == 2 * (a / 2)
  {
    assert Pow2(0) == 1 && Xor(a / 2, 0) == a / 2;
    assert Xor(a, 1) == 2 * Xor(a / 2, 0) + (a % 2 + 1) % 2;
  }

  lemma SiblingStep(a: nat, o: nat)
    requires a > 0 && o > 0 && Floor(a, o) == a
    ensures a % 2 == 0 && Floor(a / 2, o - 1) == a / 2 && Floor(a, o + 1) == 2 * Floor(a / 2, o)
    ensures Sibling(a, o) == 2 * Sibling(a / 2, o - 1)
  {
    hide Floor, Xor, Pow2;
    OneUp(a, o);
    OneUp(a, o + 1);
    XorStep(a, Pow2(o));
  }

  // An aligned number is aligned one order higher exactly when the next bit is clear.
  lemma {:induction false} FloorNext(a: nat, o: nat)
    requires Floor(a, o) == a
    ensures Bit(a, o) == 0 ==> Floor(a, o + 1) == a
    ensures Bit(a, o) == 1 ==> a >= Pow2(o) && Floor(a, o + 1) == a - Pow2(o)
  {
    if o > 0 {
      assert a % 2 == 0;
      FloorNext(a / 2, o - 1);
    } else {
      assert Floor(a, 1) == 2 * Floor(a / 2, 0);
    }
  }

  // Stepping over an aligned block keeps alignment; a set next bit then carries.
  lemma {:induction false} FloorStep(a: nat, o: nat)
    requires Floor(a, o) == a
    ensures Floor(a + Pow2(o), o) == a + Pow2(o)
    ensures Bit(a, o) == 1 ==> Floor(a + Pow2(o), o + 1) == a + Pow2(o)
    ensures Bit(a, o) == 0 ==> Bit(a + Pow2(o), o) == 1
  {
    hide Floor, Bit, Pow2;
    if o == 0 {
      LowestStep(a);
    } else {
      OneUp(a, o);
      FloorStep(a / 2, o - 1);
      HalfSum(a, Pow2(o - 1));
      OneUp(a + Pow2(o), o);
      OneUp(a + Pow2(o), o + 1);
    }
  }

  lemma LowestStep(a: nat)
    ensures Pow2(0) == 1 && Floor(a + 1, 0) == a + 1 && (Bit(a, 0) == 1 ==> Floor(a + 1, 1) == a + 1)
    ensures Bit(a, 0) == 0 ==> Bit(a + 1, 0) == 1
  {
    assert Floor(a + 1, 1) == 2 * Floor((a + 1) / 2, 0);
  }

  // Alignment, bits and powers one order down.
  lemma OneUp(a: nat, o: nat)
    requires o > 0
    ensures Floor(a, o) == 2 * Floor(a / 2, o - 1) && Bit(a, o) == Bit(a / 2, o - 1) && Pow2(o) == 2 * Pow2(o - 1)
  {}

  lemma HalfSum(a: nat, p: nat)
    requires a % 2 == 0
    ensures (a + 2 * p) / 2 == a / 2 + p && (a + 2 * p) % 2 == 0
  {}

  // An aligned block is the lower or the upper half of its parent; the sibling is the other half.
  lemma SiblingCases(a: nat, o: nat)
    requires Floor(a, o) == a
    ensures || (Floor(a, o + 1) == a && Sibling(a, o) == a + Pow2(o))
            || (a >= Pow2(o) && Floor(a, o + 1) == a - Pow2(o) && Sibling(a, o) == a - Pow2(o))
  {
    FloorNext(a, o);
    XorPow2(a, o);
  }

  // The sibling is aligned, has the same parent, and is its sibling's sibling.
  lemma SiblingFacts(a: nat, o: nat)
    requires Floor(a, o) == a
    ensures Floor(Sibling(a, o), o) == Sibling(a, o) && Sibling(a, o) != a
    ensures Floor(Sibling(a, o), o + 1) == Floor(a, o + 1)
    ensures Sibling(Sibling(a, o), o) == a
  {
    hide Floor, Xor, Pow2;
    XorPow2(a, o);
    FloorNext(a, o);
    var p := Floor(a, o + 1);
    FloorFloor(a, o + 1, o + 1);
    FloorWeaken(p, o, o + 1);
    FloorNext(p, o);
    XorPow2(p, o);
    FloorStep(p, o);
    FloorNext(p + Pow2(o), o);
    XorPow2(p + Pow2(o), o);
  }

  // Aligned blocks nest: the smaller one around a number lies inside the bigger one.
  lemma {:induction false} FloorNested(a: nat, o: nat, o': nat)
    requires o <= o'
    ensures Floor(a, o') <= Floor(a, o) && Floor(a, o) + Pow2(o) <= Floor(a, o') + Pow2(o')
  {
    if o > 0 {
      FloorNested(a / 2, o - 1, o' - 1);
    } else {
      FloorRange(a, o');
    }
  }

  // ---- single bits

  lemma {:induction false} BitRange(a: nat, j: nat)
    ensures 0 <= Bit(a, j) <= 1
  {
    if j > 0 {
      BitRange(a / 2, j - 1);
    }
  }

  // The last bit and the rest of a bitwise operation.
  lemma Halved(a: nat, b: nat)
    requires a > 0 && b > 0
    ensures Xor(a, b) / 2 == Xor(a / 2, b / 2) && Xor(a, b) % 2 == (a % 2 + b % 2) % 2
    ensures Or(a, b) / 2 == Or(a / 2, b / 2) && Or(a, b) % 2 == if a % 2 == 1 || b % 2 == 1 then 1 else 0
  {}

  lemma OrStep(a: nat, b: nat)
    ensures Or(a, b) == 2 * Or(a / 2, b / 2) + if a % 2 == 1 || b % 2 == 1 then 1 else 0
  {}

  lemma {:induction false} BitXor(a: nat, b: nat, j: nat)
    ensures Bit(Xor(a, b), j) == (Bit(a, j) + Bit(b, j)) % 2
    decreases j
  {
    BitRange(a, j);
    BitRange(b, j);
    if a == 0 || b == 0 {
      BitZero(j);
    } else {
      Halved(a, b);
      hide Xor;
      if j > 0 {
        BitXor(a / 2, b / 2, j - 1);
      }
    }
  }

  lemma {:induction false} BitOr(a: nat, b: nat, j: nat)
    ensures Bit(Or(a, b), j) == if Bit(a, j) == 1 || Bit(b, j) == 1 then 1 else 0
    decreases j
  {
    BitRange(a, j);
    BitRange(b, j);
    if a == 0 || b == 0 {
      BitZero(j);
    } else {
      Halved(a, b);
      hide Or;
      if j > 0 {
        BitOr(a / 2, b / 2, j - 1);
      }
    }
  }

  lemma {:induction false} BitPow2(o: nat, j: nat)
    ensures Bit(Pow2(o), j) == if o == j then 1 else 0
    decreases j
  {
    if j == 0 {
      assert o > 0 ==> Pow2(o) % 2 == 0;
    } else if o == 0 {
      BitZero(j - 1);
    } else {
      assert Pow2(o) / 2 == Pow2(o - 1);
      BitPow2(o - 1, j - 1);
    }
  }

  lemma {:induction false} XorRange(a: nat, b: nat, n: nat)
    requires a < Pow2(n) && b < Pow2(n)
    ensures Xor(a, b) < Pow2(n) && Or(a, b) < Pow2(n)
    decreases n
  {
    if n > 0 {
      XorRange(a / 2, b / 2, n - 1);
    }
  }

  // 2^n - 1 has all n bits set.
  lemma {:induction false} BitOnes(n: nat, j: nat)
    requires j < n
    ensures Bit(Pow2(n) - 1, j) == 1
  {
    assert (Pow2(n) - 1) % 2 == 1 && (Pow2(n) - 1) / 2 == Pow2(n - 1) - 1;
    if j > 0 {
      BitOnes(n - 1, j - 1);
    }
  }

  // A non-zero number below 2^n has a bit set.
  lemma {:induction false} HasBit(a: nat, n: nat) returns (k: nat)
    requires 0 < a < Pow2(n)
    ensures k < n && Bit(a, k) == 1
  {
    if a % 2 == 1 {
      k := 0;
    } else {
      k := HasBit(a / 2, n - 1);
      k := k + 1;
    }
  }

  // ---- arithmetic

  lemma {:induction false} Pow2Add(a: nat, b: nat)
    ensures Pow2(a + b) == Pow2(a) * Pow2(b)
  {
    if a > 0 {
      Pow2Add(a - 1, b);
    }
  }

  lemma MulMonotone(m: nat, x: nat, y: nat)
    ensures x <= y ==> m * x <= m * y
  {}

  lemma DivMulBound(a: nat, m: nat, q: nat)
    requires m > 0 && a < m * q
    ensures a / m < q
  {
    assert m * (a / m) <= a;
    MulMonotone(m, q, a / m);
  }

  lemma DivShift(a: int, m: int, q: int)
    requires m > 0
    ensures (a + m * q) / m == a / m + q
  {
    var d := (a + m * q) / m - (a / m + q);
    assert m * d < m && m * d > -m by {
      assert m * ((a + m * q) / m) + (a + m * q) % m == a + m * q;
      assert m * (a / m) + a % m == a;
      assert m * d == m * ((a + m * q) / m) - m * (a / m) - m * q;
    }
    assert d == 0 by {
      assert d >= 1 ==> m * d >= m;
      assert d <= -1 ==> m * d <= -m;
    }
  }

  lemma Parity(x: int, y: int)
    ensures (x + 2 * y) % 2 == x % 2
  {}

  lemma SmallQuotient(d: nat, m: nat)
    requires d < m
    ensures d / m == 0 && d % m == d
  {}

  // OR below bit k leaves the part above alone.
  lemma {:induction false} OrLow(a: nat, k: nat, x: nat, y: nat)
    requires x < Pow2(k) && y < Pow2(k)
    ensures Or(a * Pow2(k) + x, y) == a * Pow2(k) + Or(x, y)
    decreases k
  {
    hide Pow2, Or;
    if k == 0 {
      OrNothing(a, x, y);
    } else {
      HalfPower(a, k);
      OrLow(a, k - 1, x / 2, y / 2);
      OrAbove(a * Pow2(k - 1), x, y);
    }
  }

  lemma OrNothing(a: nat, x: nat, y: nat)
    requires x < Pow2(0) && y < Pow2(0)
    ensures Or(a * Pow2(0) + x, y) == a * Pow2(0) + Or(x, y)
  {}

  lemma HalfPower(a: nat, k: nat)
    requires k > 0
    ensures Pow2(k) == 2 * Pow2(k - 1) && a * Pow2(k) == 2 * (a * Pow2(k - 1))
  {}

  // One bit of OR, with m above it.
  lemma OrAbove(m: nat, x: nat, y: nat)
    requires Or(m + x / 2, y / 2) == m + Or(x / 2, y / 2)
    ensures Or(2 * m + x, y) == 2 * m + Or(x, y)
  {
    OrStep(2 * m + x, y);
    OrStep(x, y);
    hide Or;
    DivShift(x, 2, m);
    Parity(x, m);
  }

  lemma OrZero(a: nat)
    ensures Or(0, a) == a
  {}
}
