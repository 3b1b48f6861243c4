/**
  Address translation: the 16-entry TLB of cpu/src/tlb.v, and the kernel code
  that fills and empties it (ucore/kern/include/thumips_tlb.h,
  ucore/kern/mm/thumips_tlb.c, ucore/kern/mm/pmm.c).
 */
module Tlb {
  import opened Bits
  import opened MipsWord
  import opened Paging

  const KERNBASE: nat := 0x8000_0000
  const ENTRIES: nat := 16

  // ---- page table entries

  predicate Present(pte: nat) { pte % 2 == 1 }
  predicate Writable(pte: nat) { pte / 2 % 2 == 1 }
  predicate UserBit(pte: nat) { pte / 4 % 2 == 1 }

  function PteAddr(pte: nat): nat { pte / PGSIZE * PGSIZE }

  // Page tables: a directory maps page numbers to entries; 0 is the entry of a page that is not mapped.
  type Directory = map<nat, Word>

  function PteOf(d: Directory, vpn: nat): Word {
    if vpn in d then d[vpn] else 0
  }

  // ---- the hardware

  // One half of a TLB entry: frame number, valid bit, dirty bit
  datatype Half = Half(pfn: nat, valid: bool, dirty: bool)

  datatype Entry = Entry(vpn2: nat, even: Half, odd: Half)

  // What the translation answers: valid tells whether the access may go on.
  datatype Answer = Answer(valid: bool, miss: bool, physical: nat)

  // Addresses whose two top bits are 10 are translated without the TLB.
  predicate Unmapped(va: nat) { va / 0x4000_0000 == 2 }

  function FirstMatch(tlb: seq<Entry>, vpn2: nat): (i: nat)
    ensures i <= |tlb| && (i < |tlb| ==> tlb[i].vpn2 == vpn2)
  {
    if tlb == [] then 0 else if tlb[0].vpn2 == vpn2 then 0 else 1 + FirstMatch(tlb[1..], vpn2)
  }

  function Translate(h: Half, va: nat, write: bool): Answer {
    if !h.valid then Answer(false, true, 0)
    else if write && !h.dirty then Answer(false, false, 0)
    else Answer(true, false, h.pfn * PGSIZE + va % PGSIZE)
  }

  function Lookup(tlb: seq<Entry>, va: Word, write: bool): Answer {
    if Unmapped(va) then Answer(true, true, va % 0x2000_0000)
    else
      var i := FirstMatch(tlb, va / 0x2000);
      if i == |tlb| then Answer(false, true, 0)
      else Translate(if va / PGSIZE % 2 == 0 then tlb[i].even else tlb[i].odd, va, write)
  }

  /** The kernel's own segments go to the low 29 bits of the address, whatever the TLB holds. */
  lemma KernelSegments(tlb: seq<Entry>, va: Word, write: bool)
    requires 0x8000_0000 <= va < 0xC000_0000
    ensures var r := Lookup(tlb, va, write);
            r.valid && r.physical == if va < 0xA000_0000 then va - 0x8000_0000 else va - 0xA000_0000
  {}

  /** No other address is translated without an entry for its pair of pages. */
  lemma OthersNeedEntry(tlb: seq<Entry>, va: Word, write: bool)
    requires Lookup(tlb, va, write).valid && !(0x8000_0000 <= va < 0xC000_0000)
    ensures exists i :: 0 <= i < |tlb| && tlb[i].vpn2 == va / 0x2000
  {}

  // Bits 25..6, 1 and 2 of an EntryLo register
  function HalfOf(lo: Word): Half {
    Half(lo / 0x40 % 0x10_0000, lo / 2 % 2 == 1, lo / 4 % 2 == 1)
  }

  // ---- thumips_tlb.h

  function PteToTlbLow(pte: Word): Word {
    if !Present(pte) then 0
    else
      var t := Or(Or(Or(Wrap(pte - KERNBASE) / PGSIZE * 0x40, 2), 1), 16);
      Wrap(if Writable(pte) then Or(t, 4) else t)
  }

  lemma SmallOrs()
    ensures Or(0, 2) == 2 && Or(2, 1) == 3 && Or(3, 16) == 19 && Or(19, 4) == 23 && Pow2(6) == 64
  {}

  lemma LowValue(p: nat)
    ensures var t := Or(Or(Or(p * 0x40, 2), 1), 16); t == p * 0x40 + 19 && Or(t, 4) == p * 0x40 + 23
  {
    hide Or, Pow2;
    SmallOrs();
    OrLow(p, 6, 0, 2);
    OrLow(p, 6, 2, 1);
    OrLow(p, 6, 3, 16);
    OrLow(p, 6, 19, 4);
  }

  /** What the hardware reads back from the low register made of an entry. */
  lemma LowRoundTrip(pte: Word)
    ensures var h := HalfOf(PteToTlbLow(pte));
            && h.valid == Present(pte)
            && (Present(pte) ==> h.dirty == Writable(pte) && h.pfn * PGSIZE == Wrap(PteAddr(pte) - KERNBASE))
  {
    var p := Wrap(pte - KERNBASE) / PGSIZE;
    LowIs(pte);
    FrameOf(pte);
    hide PteToTlbLow, HalfOf, Wrap;
    assert p < 0x10_0000;
    if Present(pte) {
      Fields(p, Writable(pte));
    } else {
      NoFields();
    }
  }

  lemma LowIs(pte: Word)
    ensures PteToTlbLow(pte) ==
              if !Present(pte) then 0
              else Wrap(pte - KERNBASE) / PGSIZE * 0x40 + if Writable(pte) then 23 else 19
  {
    var p := Wrap(pte - KERNBASE) / PGSIZE;
    assert p < 0x10_0000;
    LowValue(p);
    LowFits(p);
    hide Or, Wrap;
  }

  lemma LowFits(p: nat)
    requires p < 0x10_0000
    ensures Wrap(p * 0x40 + 19) == p * 0x40 + 19 && Wrap(p * 0x40 + 23) == p * 0x40 + 23
  {}

  lemma Fields(p: nat, w: bool)
    requires p < 0x10_0000
    ensures HalfOf(p * 0x40 + if w then 23 else 19) == Half(p, true, w)
  {
    var f := if w then 23 else 19;
    DivShift(f, 0x40, p);
    DivShift(f, 2, p * 0x20);
    DivShift(f, 4, p * 0x10);
    Parity(f / 2, p * 0x10);
    Parity(f / 4, p * 8);
  }

  lemma NoFields()
    ensures HalfOf(0) == Half(0, false, false)
  {}

  lemma FrameOf(pte: Word)
    ensures Wrap(pte - KERNBASE) / PGSIZE * PGSIZE == Wrap(PteAddr(pte) - KERNBASE)
  {
    var q, r := pte / PGSIZE, pte % PGSIZE;
    assert pte == q * PGSIZE + r;
  }
}
