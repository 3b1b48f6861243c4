/**
  The free-block bitmap of ucore/kern/fs/sfs/bitmap.c: 32-bit words in which a
  set bit marks a free block.
 */
module SfsBitmap {
  import opened Bits

  const WORD_BITS: nat := 32

  predicate IsSet(words: seq<nat>, i: nat)
    requires i / WORD_BITS < |words|
  {
    Bit(words[i / WORD_BITS], i % WORD_BITS) == 1
  }

  predicate WordsOk(words: seq<nat>, nbits: nat) {
    && |words| == (nbits + WORD_BITS - 1) / WORD_BITS
    && (forall k :: 0 <= k < |words| ==> words[k] < Pow2(WORD_BITS))
  }

  // No bit past the end is set.
  ghost predicate TailClear(words: seq<nat>, nbits: nat) {
    forall i: nat :: nbits <= i < |words| * WORD_BITS ==> !IsSet(words, i)
  }

  function FreeSet(words: seq<nat>, nbits: nat): set<nat>
    requires WordsOk(words, nbits)
  {
    set i: nat | 0 <= i < nbits && IsSet(words, i)
  }

  // Bit o of word ix is bit 32 * ix + o of the map, and no other.
  lemma Position(ix: nat, o: nat, i: nat)
    requires o < WORD_BITS
    ensures (ix * WORD_BITS + o) / WORD_BITS == ix && (ix * WORD_BITS + o) % WORD_BITS == o
    ensures i / WORD_BITS == ix && i % WORD_BITS == o <==> i == ix * WORD_BITS + o
  {}

  // XOR with a mask flips one bit of the map.
  lemma FlipWord(words: seq<nat>, ix: nat, o: nat, i: nat)
    requires ix < |words| && o < WORD_BITS && i / WORD_BITS < |words|
    ensures IsSet(words[ix := Xor(words[ix], Pow2(o))], i)
        <==> if i == ix * WORD_BITS + o then !IsSet(words, i) else IsSet(words, i)
  {
    hide Xor, Pow2, Bit;
    Position(ix, o, i);
    BitXor(words[ix], Pow2(o), i % WORD_BITS);
    BitRange(words[ix], i % WORD_BITS);
    BitPow2(o, i % WORD_BITS);
  }

  lemma SetWord(words: seq<nat>, ix: nat, o: nat, i: nat)
    requires ix < |words| && o < WORD_BITS && i / WORD_BITS < |words|
    ensures IsSet(words[ix := Or(words[ix], Pow2(o))], i) <==> i == ix * WORD_BITS + o || IsSet(words, i)
  {
    hide Or, Pow2, Bit;
    Position(ix, o, i);
    BitOr(words[ix], Pow2(o), i % WORD_BITS);
    BitPow2(o, i % WORD_BITS);
  }

  lemma MaskInRange(w: nat, o: nat)
    requires w < Pow2(WORD_BITS) && o < WORD_BITS
    ensures Xor(w, Pow2(o)) < Pow2(WORD_BITS) && Or(w, Pow2(o)) < Pow2(WORD_BITS)
  {
    hide Pow2, Xor, Or;
    SmallPower(o);
    XorRange(w, Pow2(o), WORD_BITS);
  }

  lemma SmallPower(o: nat)
    requires o < WORD_BITS
    ensures Pow2(o) < Pow2(WORD_BITS)
  {
    Pow2Monotone(o + 1, WORD_BITS);
  }

  lemma NothingFree(words: seq<nat>, nbits: nat)
    requires WordsOk(words, nbits) && forall k :: 0 <= k < |words| ==> words[k] == 0
    ensures FreeSet(words, nbits) == {}
  {
    forall i: nat | i < nbits ensures !IsSet(words, i) {
      BitZero(i % WORD_BITS);
    }
  }

  class Bitmap {
    const nbits: nat
    const words: array<nat>

    ghost predicate Valid()
      reads words
    {
      WordsOk(words[..], nbits) && TailClear(words[..], nbits)
    }

    ghost function Free(): set<nat>
      requires Valid()
      reads words
    {
      FreeSet(words[..], nbits)
    }

    constructor (n: nat)
      requires n != 0
      ensures Valid() && nbits == n && fresh(words)
      ensures forall i: nat :: i in Free() <==> i < n
    {
      nbits := n;
      words := new nat[(n + WORD_BITS - 1) / WORD_BITS](_ => Pow2(WORD_BITS) - 1);
      new;
      hide Pow2;
      AllOnes(words[..], n);
      if n != words.Length * WORD_BITS {
        var ix := words.Length - 1;
        var overbits := n - ix * WORD_BITS;
        while overbits < WORD_BITS
          invariant n - ix * WORD_BITS <= overbits <= WORD_BITS
          invariant WordsOk(words[..], n)
          invariant forall i: nat :: i < words.Length * WORD_BITS ==>
                      (IsSet(words[..], i) <==> i < n || i >= ix * WORD_BITS + overbits)
        {
          Flip(ix, overbits);
          overbits := overbits + 1;
        }
      }
    }

    method Flip(ix: nat, o: nat)
      requires WordsOk(words[..], nbits) && ix < words.Length && o < WORD_BITS
      modifies words
      ensures WordsOk(words[..], nbits)
      ensures forall i: nat :: i < words.Length * WORD_BITS ==>
                IsSet(words[..], i) ==
                  if i == ix * WORD_BITS + o then !IsSet(old(words[..]), i) else IsSet(old(words[..]), i)
    {
      hide Pow2, Xor, Bit, IsSet;
      ghost var before := words[..];
      MaskInRange(words[ix], o);
      words[ix] := Xor(words[ix], Pow2(o));
      assert words[..] == before[ix := Xor(before[ix], Pow2(o))];
      forall i: nat | i < words.Length * WORD_BITS
        ensures IsSet(words[..], i) <==> if i == ix * WORD_BITS + o then !IsSet(before, i) else IsSet(before, i)
      {
        FlipWord(before, ix, o, i);
      }
    }

    // Takes the lowest free bit.
    method Alloc() returns (found: bool, index: nat)
      requires Valid()
      modifies words
      ensures Valid() && found == (old(Free()) != {})
      ensures found ==>
                index in old(Free()) && Free() == old(Free()) - {index} && forall i :: i in old(Free()) ==> index <= i
      ensures !found ==> Free() == {}
    {
      hide Pow2, Bit, IsSet, Xor, And;
      for ix := 0 to words.Length
        invariant words[..] == old(words[..])
        invariant forall k :: 0 <= k < ix ==> words[k] == 0
      {
        if words[ix] != 0 {
          ghost var k := HasBit(words[ix], WORD_BITS);
          var offset := LowestBit(words[ix], k);
          index := ix * WORD_BITS + offset;
          LowestIsFirst(words[..], nbits, ix, offset);
          Flip(ix, offset);
          return true, index;
        }
      }
      NothingFree(words[..], nbits);
      return false, 0;
    }

    method Test(index: nat) returns (free: bool)
      requires Valid() && index < nbits
      ensures free == (index in Free())
    {
      hide Pow2, And;
      AndPow2(words[index / WORD_BITS], index % WORD_BITS);
      free := And(words[index / WORD_BITS], Pow2(index % WORD_BITS)) != 0;
    }

    method Release(index: nat)
      requires Valid() && index < nbits && index !in Free()
      modifies words
      ensures Valid() && Free() == old(Free()) + {index}
    {
      hide Pow2, Or, Bit, IsSet;
      var ix, o := index / WORD_BITS, index % WORD_BITS;
      ghost var before := words[..];
      MaskInRange(words[ix], o);
      words[ix] := Or(words[ix], Pow2(o));
      assert words[..] == before[ix := Or(before[ix], Pow2(o))];
      forall i: nat | i < words.Length * WORD_BITS
        ensures IsSet(words[..], i) <==> i == index || IsSet(before, i)
      {
        SetWord(before, ix, o, i);
      }
    }
  }

  // The inner loop of bitmap_alloc: some bit is set, so it stops before its assertion.
  method LowestBit(w: nat, ghost k: nat) returns (offset: nat)
    requires k < WORD_BITS && Bit(w, k) == 1
    ensures offset < WORD_BITS && Bit(w, offset) == 1 && forall j: nat :: j < offset ==> Bit(w, j) != 1
  {
    hide Bit, Pow2, And;
    offset := 0;
    while true
      invariant offset <= k && forall j: nat :: j < offset ==> Bit(w, j) != 1
      decreases k - offset
    {
      AndPow2(w, offset);
      if And(w, Pow2(offset)) != 0 {
        return;
      }
      offset := offset + 1;
    }
  }

  lemma LowestIsFirst(words: seq<nat>, nbits: nat, ix: nat, o: nat)
    requires WordsOk(words, nbits) && TailClear(words, nbits) && ix < |words| && o < WORD_BITS
    requires forall k :: 0 <= k < ix ==> words[k] == 0
    requires Bit(words[ix], o) == 1 && forall j: nat :: j < o ==> Bit(words[ix], j) != 1
    ensures ix * WORD_BITS + o in FreeSet(words, nbits)
    ensures forall i :: i in FreeSet(words, nbits) ==> ix * WORD_BITS + o <= i
  {
    hide Bit, Pow2;
    Position(ix, o, 0);
    assert IsSet(words, ix * WORD_BITS + o);
    forall i: nat | i in FreeSet(words, nbits) ensures ix * WORD_BITS + o <= i {
      if i / WORD_BITS < ix {
        BitZero(i % WORD_BITS);
      }
    }
  }

  lemma AllOnes(words: seq<nat>, n: nat)
    requires |words| == (n + WORD_BITS - 1) / WORD_BITS && forall k :: 0 <= k < |words| ==>
               words[k] == Pow2(WORD_BITS) - 1
    ensures WordsOk(words, n) && forall i: nat :: i < |words| * WORD_BITS ==> IsSet(words, i)
  {
    hide Pow2, Bit;
    forall i: nat | i < |words| * WORD_BITS ensures IsSet(words, i) {
      BitOnes(WORD_BITS, i % WORD_BITS);
    }
  }
}
