/**
  Number printing without division: __mulu10, __divu10 and __divu5 of
  ucore/kern/include/thumips.h and printnum of ucore/kern/libs/printfmt.c.
 */
module PrintNum {
  import opened Bits
  import opened MipsWord

  // ---- thumips.h, in 32-bit arithmetic

  function MulU10(n: Word): Word {
    Add(Wrap(n * 8), Wrap(n * 2))
  }

  // Each q + (q >> k) of __divu10
  function Smear(q: Word, m: nat): Word
    requires m > 0
  {
    Wrap(q + q / m)
  }

  function Estimate10(n: Word): Word {
    Smear(Smear(Smear(Add(n / 2, n / 4), 16), 256), 0x1_0000)
  }

  function DivU10(n: Word): Word {
    var q: Word := Estimate10(n) / 8;
    var r := Wrap(n - MulU10(q));
    Add(q, Add(r, 6) / 16)
  }

  function Estimate5(n: Word): Word {
    Smear(Smear(Smear(Add(n / 8, n / 16), 16), 256), 0x1_0000)
  }

  function DivU5(n: Word): Word {
    var q := Estimate5(n);
    var r := Wrap(n - Wrap(q * 5));
    Add(q, Wrap(13 * r) / 64)
  }

  lemma NoCarry(q: Word, m: nat, bound: nat)
    requires m >= 16 && q <= bound && bound + bound / 16 < 0x1_0000_0000
    ensures Smear(q, m) == q + q / m && m * (q / m) <= q < m * (q / m) + m
  {
    QuotientBound(q, m);
  }

  lemma QuotientBound(q: nat, m: nat)
    requires m >= 16
    ensures q / m <= q / 16 && m * (q / m) <= q < m * (q / m) + m
  {
    assert m * (q / m) + q % m == q;
    assert 16 * (q / m) <= m * (q / m);
  }

  // The value of the three sums, which do not overflow.
  lemma Smeared(q1: Word)
    requires q1 <= 0xC000_0000
    ensures var q2: int := q1 + q1 / 16; var q3: int := q2 + q2 / 256; var q4: int := q3 + q3 / 0x1_0000;
            Smear(Smear(Smear(q1, 16), 256), 0x1_0000) == q4
  {
    hide Smear;
    var q2 := q1 + q1 / 16;
    var q3 := q2 + q2 / 256;
    NoCarry(q1, 16, 0xC000_0000);
    NoCarry(q2, 256, 0xCC00_0000);
    NoCarry(q3, 0x1_0000, 0xCCCC_0000);
  }

  // They multiply by (2^32 - 1) / 3 / 2^28 up to rounding.
  lemma SmearBounds(q1: int, a: int, q2: int, b: int, q3: int, c: int, q4: int)
    requires 16 * a <= q1 <= 16 * a + 15 && q2 == q1 + a
    requires 256 * b <= q2 <= 256 * b + 255 && q3 == q2 + b
    requires 0x1_0000 * c <= q3 <= 0x1_0000 * c + 0xFFFF && q4 == q3 + c
    ensures 0x1000_0000 * q4 <= 286331153 * q1 <= 0x1000_0000 * q4 + 788529152
  {}

  lemma EstimateBounds(q1: Word)
    requires q1 <= 0xC000_0000
    ensures var q4: int := Smear(Smear(Smear(q1, 16), 256), 0x1_0000);
            0x1000_0000 * q4 <= 286331153 * q1 <= 0x1000_0000 * q4 + 788529152
  {
    Smeared(q1);
    hide Smear;
    var q2 := q1 + q1 / 16;
    var q3 := q2 + q2 / 256;
    SmearBounds(q1, q1 / 16, q2, q2 / 256, q3, q3 / 0x1_0000, q3 + q3 / 0x1_0000);
  }

  lemma Low10(n: int, q1: int, q4: int)
    requires 0 <= n < 0x1_0000_0000 && 4 * q1 <= 3 * n <= 4 * q1 + 5
    requires 0x1000_0000 * q4 <= 286331153 * q1 <= 0x1000_0000 * q4 + 788529152
    ensures 5 * q4 <= 4 * n <= 5 * q4 + 27
  {}

  lemma ThreeQuarters(n: Word)
    ensures Add(n / 2, n / 4) == n / 2 + n / 4 <= 0xC000_0000
    ensures 4 * Add(n / 2, n / 4) <= 3 * n <= 4 * Add(n / 2, n / 4) + 5
  {}

  /** __divu10 divides by ten, for every 32-bit number, without overflow in its sums. */
  lemma DivU10Divides(n: Word)
    ensures DivU10(n) == n / 10
  {
    hide Smear, Add, MulU10, Wrap;
    ThreeQuarters(n);
    EstimateBounds(Add(n / 2, n / 4));
    Low10(n, Add(n / 2, n / 4), Estimate10(n));
    Correct10(n, Estimate10(n));
  }

  lemma TenTimes(q: Word)
    requires q <= 0x1999_9999
    ensures MulU10(q) == 10 * q
  {
    Unwrapped(q * 8);
    Unwrapped(q * 2);
    Unwrapped(q * 8 + q * 2);
    hide Wrap;
  }

  lemma Unwrapped(x: int)
    requires 0 <= x < 0x1_0000_0000
    ensures Wrap(x) == x
  {}

  lemma LastStep10(q: nat, r: nat)
    requires r < 20
    ensures (10 * q + r) / 10 == q + (r + 6) / 16
  {}

  lemma Remainder10(n: int, e: int, q: int)
    requires 5 * e <= 4 * n <= 5 * e + 27 && 8 * q <= e <= 8 * q + 7
    ensures 0 <= n - 10 * q < 20
  {}

  lemma Correct10(n: Word, e: Word)
    requires 5 * e <= 4 * n <= 5 * e + 27
    ensures var q: Word := e / 8; Add(q, Add(Wrap(n - MulU10(q)), 6) / 16) == n / 10
  {
    hide MulU10, Wrap;
    var q: Word := e / 8;
    Remainder10(n, e, q);
    var r: Word := n - 10 * q;
    TenTimes(q);
    Unwrapped(r);
    Unwrapped(r + 6);
    LastStep10(q, r);
    Unwrapped(q + (r + 6) / 16);
  }

  lemma Low5(n: int, q1: int, q4: int)
    requires 0 <= n < 0x1_0000_0000 && 16 * q1 <= 3 * n <= 16 * q1 + 29
    requires 0x1000_0000 * q4 <= 286331153 * q1 <= 0x1000_0000 * q4 + 788529152
    ensures 0 <= n - 5 * q4 <= 27
  {}

  lemma ThreeSixteenths(n: Word)
    ensures Add(n / 8, n / 16) == n / 8 + n / 16 <= 0xC000_0000
    ensures 16 * Add(n / 8, n / 16) <= 3 * n <= 16 * Add(n / 8, n / 16) + 29
  {}

  /** __divu5 divides by five, for every 32-bit number. */
  lemma DivU5Divides(n: Word)
    ensures DivU5(n) == n / 5
  {
    hide Smear, Add, Wrap;
    ThreeSixteenths(n);
    EstimateBounds(Add(n / 8, n / 16));
    Low5(n, Add(n / 8, n / 16), Estimate5(n));
    Correct5(n, Estimate5(n));
  }

  lemma LastStep5(q: nat, r: nat)
    requires r <= 27
    ensures (5 * q + r) / 5 == q + 13 * r / 64
  {}

  lemma Correct5(n: Word, q: Word)
    requires 0 <= n - 5 * q <= 27
    ensures Add(q, Wrap(13 * Wrap(n - Wrap(q * 5))) / 64) == n / 5
  {
    hide Wrap;
    var r: Word := n - 5 * q;
    Unwrapped(q * 5);
    Unwrapped(r);
    Unwrapped(13 * r);
    LastStep5(q, r);
    Unwrapped(q + 13 * r / 64);
  }

  // ---- printfmt.c

  const DIGITS: string := "0123456789abcdef"

  // The number that a string of digit positions denotes.
  function Value(s: seq<nat>, base: nat): nat {
    if s == [] then 0 else Value(s[..|s| - 1], base) * base + s[|s| - 1]
  }

  // The digits of n, most significant first.
  function Numeral(n: nat, base: nat): (s: seq<nat>)
    requires base > 1
    ensures |s| > 0 && forall i :: 0 <= i < |s| ==> s[i] < base
  {
    if n < base then [n] else Shrinks(n, base); Numeral(n / base, base) + [n % base]
  }

  predicate Proper(s: seq<nat>, base: nat) {
    |s| > 0 && (forall i :: 0 <= i < |s| ==> s[i] < base) && (|s| > 1 ==> s[0] != 0)
  }

  /** The numeral of n denotes n and has no leading zero. */
  lemma {:induction false} NumeralDenotes(n: nat, base: nat)
    requires base > 1
    ensures Value(Numeral(n, base), base) == n && Proper(Numeral(n, base), base) && (n > 0 ==> Numeral(n, base)[0] != 0)
    decreases n
  {
    if n >= base {
      var s := Numeral(n / base, base);
      Shrinks(n, base);
      NumeralDenotes(n / base, base);
      assert (s + [n % base])[..|s|] == s;
    } else {
      assert [n][..0] == [];
    }
  }

  lemma Shrinks(n: nat, base: nat)
    requires base > 1 && n >= base
    ensures 0 < n / base < n && n == n / base * base + n % base
  {
    ShrinkFacts(n, n / base, n % base, base);
  }

  lemma ShrinkFacts(n: nat, q: nat, r: nat, base: nat)
    requires n == q * base + r && r < base <= n && base > 1
    ensures 0 < q < n
  {
    assert q * base > 0;
    MulMonotone(q, 2, base);
  }

  lemma Split(v: nat, d: nat, base: nat)
    requires base > 1 && d < base
    ensures (v * base + d) / base == v && (v * base + d) % base == d
  {
    var n := v * base + d;
    assert n == d + base * v;
    DivShift(d, base, v);
    SmallQuotient(d, base);
    assert n == base * (n / base) + n % base;
  }

  /** It is the only digit string that does. */
  lemma {:induction false} NumeralIsUnique(s: seq<nat>, base: nat)
    requires base > 1 && Proper(s, base)
    ensures s == Numeral(Value(s, base), base)
    decreases |s|
  {
    var t, d := s[..|s| - 1], s[|s| - 1];
    if t == [] {
      assert s == [d];
      assert Value(t, base) == 0;
    } else {
      NumeralIsUnique(t, base);
      NotZero(t, base);
      AddDigit(Value(t, base), d, base);
      assert s == t + [d];
    }
  }

  lemma NotZero(t: seq<nat>, base: nat)
    requires base > 1 && t != [] && t[0] != 0 && t == Numeral(Value(t, base), base)
    ensures Value(t, base) > 0
  {
    assert Numeral(0, base) == [0];
  }

  lemma AddDigit(v: nat, d: nat, base: nat)
    requires base > 1 && d < base && v > 0
    ensures Numeral(v * base + d, base) == Numeral(v, base) + [d]
  {
    Split(v, d, base);
    assert v * base >= base;
  }

  function Chars(s: seq<nat>): string
    requires forall i :: 0 <= i < |s| ==> s[i] < 16
  {
    seq(|s|, i requires 0 <= i < |s| => DIGITS[s[i]])
  }

  function Pad(c: char, n: int): string {
    if n <= 0 then "" else [c] + Pad(c, n - 1)
  }

  lemma {:induction false} PadMore(c: char, n: int)
    requires n >= 0
    ensures Pad(c, n) + [c] == Pad(c, n + 1) && |Pad(c, n)| == n
  {
    if n > 0 {
      PadMore(c, n - 1);
      assert Pad(c, n) + [c] == [c] + (Pad(c, n - 1) + [c]);
    } else {
      assert Pad(c, 1) == [c] + Pad(c, 0);
    }
  }

  // One digit off the end, by the method that the base calls for.
  function Divided(num: Word, base: nat): (Word, Word)
    requires base == 8 || base == 10 || base == 16
  {
    if base == 10 then (DivU10(num), Wrap(num - MulU10(DivU10(num))))
    else if base == 8 then (num / 8, num % 8)
    else (num / 16, num % 16)
  }

  lemma DividedIs(num: Word, base: nat)
    requires base == 8 || base == 10 || base == 16
    ensures Divided(num, base) == (num / base, num % base)
  {
    hide DivU10, MulU10, Wrap;
    if base == 10 {
      DivU10Divides(num);
      TenTimes(num / 10);
      assert num - 10 * (num / 10) == num % 10;
      Unwrapped(num % 10);
    }
  }

  // The characters printed: the numeral, padded on the left to the width.
  method Print(num: Word, base: nat, width: int, padc: char) returns (out: string)
    requires base == 8 || base == 10 || base == 16
    ensures out == Pad(padc, width - |Numeral(num, base)|) + Chars(Numeral(num, base))
    decreases num
  {
    hide Divided;
    DividedIs(num, base);
    var (result, mod) := Divided(num, base);
    if num >= base {
      Shrinks(num, base);
      out := Print(result, base, width - 1, padc);
      assert Chars(Numeral(num, base)) == Chars(Numeral(num / base, base)) + [DIGITS[mod]];
    } else {
      out := "";
      var left := width - 1;
      while left > 0
        invariant out == Pad(padc, if left > 0 then width - 1 - left else if width > 1 then width - 1 else 0)
      {
        PadMore(padc, width - 1 - left);
        out := out + [padc];
        left := left - 1;
      }
    }
    out := out + [DIGITS[mod]];
  }

  /** As many characters as the width or the digits ask for, whichever is more. */
  lemma PrintedLength(num: Word, base: nat, width: int, padc: char)
    requires base == 8 || base == 10 || base == 16
    ensures var d := Numeral(num, base); |Pad(padc, width - |d|) + Chars(d)| == if width > |d| then width else |d|
  {
    var d := Numeral(num, base);
    if width > |d| {
      PadMore(padc, width - |d|);
    }
  }
}
