/**
  TLB coherence: every translation that the hardware accepts is the one that the
  page tables give now, of the current directory or of the one from which its entry
  came in, and every page counts its mappings.
 */
module TlbKernel {
  import opened Options
  import opened Bits
  import opened MipsWord
  import opened Paging
  import opened Tlb

  // An entry is outside the mapped segments, or both its halves are what the directory says.
  predicate EntryOk(e: Entry, d: Directory) {
    || Unmapped(e.vpn2 * 0x2000)
    || (e.even == HalfOf(PteToTlbLow(PteOf(d, 2 * e.vpn2))) && e.odd == HalfOf(PteToTlbLow(PteOf(d, 2 * e.vpn2 + 1))))
  }

  predicate Coherent(tlb: seq<Entry>, d: Directory) {
    |tlb| == ENTRIES && forall i :: 0 <= i < ENTRIES ==> EntryOk(tlb[i], d)
  }

  // The address that the page tables give for va.
  function Target(d: Directory, va: Word): nat {
    Wrap(PteAddr(PteOf(d, va / PGSIZE)) - KERNBASE) + va % PGSIZE
  }

  lemma PairOf(va: Word)
    ensures va / PGSIZE == 2 * (va / 0x2000) + va / PGSIZE % 2
    ensures Unmapped(va / 0x2000 * 0x2000) <==> Unmapped(va)
  {}

  // The half of the first matching entry that an access uses.
  function HalfFor(tlb: seq<Entry>, va: Word): Half
    requires FirstMatch(tlb, va / 0x2000) < |tlb|
  {
    var e := tlb[FirstMatch(tlb, va / 0x2000)];
    if va / PGSIZE % 2 == 0 then e.even else e.odd
  }

  lemma HalfIsPte(tlb: seq<Entry>, d: Directory, va: Word)
    requires !Unmapped(va) && FirstMatch(tlb, va / 0x2000) < |tlb| && EntryOk(tlb[FirstMatch(tlb, va / 0x2000)], d)
    ensures var h, pte := HalfFor(tlb, va), PteOf(d, va / PGSIZE);
            && h.valid == Present(pte)
            && (Present(pte) ==> h.dirty == Writable(pte) && h.pfn * PGSIZE + va % PGSIZE == Target(d, va))
  {
    hide HalfOf, PteToTlbLow, Unmapped, Wrap, PteAddr, Present, Writable, PteOf;
    PairOf(va);
    var pte := PteOf(d, va / PGSIZE);
    LowRoundTrip(pte);
    assert HalfFor(tlb, va) == HalfOf(PteToTlbLow(pte));
  }

  // What the TLB answers for an address agrees with the directory, for loads and for stores.
  ghost predicate Faithful(tlb: seq<Entry>, d: Directory, va: Word) {
    var pte := PteOf(d, va / PGSIZE);
    var load, store := Lookup(tlb, va, false), Lookup(tlb, va, true);
    && (load.valid ==> Present(pte) && load.physical == Target(d, va))
    && (store.valid <==> load.valid && Writable(pte))
    && (store.valid ==> store.physical == Target(d, va))
  }

  /**
    A load or store that the TLB lets through goes to the frame of the current directory's entry, which is
    present; a store gets through exactly where a load does and the entry is writable.  This holds
    whichever of several matching entries comes first.
   */
  lemma LookupIsCoherent(tlb: seq<Entry>, d: Directory, va: Word)
    requires Coherent(tlb, d) && !Unmapped(va)
    ensures Faithful(tlb, d, va)
  {
    hide Unmapped, Target, Present, Writable, FirstMatch, EntryOk;
    if FirstMatch(tlb, va / 0x2000) < |tlb| {
      HalfIsPte(tlb, d, va);
    }
  }

  // ---- entries of several directories

  // What the kernel could remember of a TLB entry: nothing since the last flush, or the pair of pages it is for and the
  // directory that was current when it came in.
  datatype Slot = Free | Holds(pair: nat, dir: nat)

  // Each entry is outside the mapped segments, or what its directory says.
  predicate Backed(tlb: seq<Entry>, dirs: map<nat, Directory>, slots: seq<Slot>) {
    |tlb| == |slots| == ENTRIES && forall i :: 0 <= i < ENTRIES ==> EntryBacked(tlb[i], dirs, slots[i])
  }

  predicate EntryBacked(e: Entry, dirs: map<nat, Directory>, slot: Slot) {
    match slot
    case Free => Unmapped(e.vpn2 * 0x2000)
    case Holds(pair, d) => e.vpn2 == pair && d in dirs && !Unmapped(pair * 0x2000) && EntryOk(e, dirs[d])
  }

  // The first slot for a pair of pages.
  function FirstSlot(slots: seq<Slot>, pair: nat): (i: nat)
    ensures i <= |slots| && (i < |slots| ==> slots[i].Holds? && slots[i].pair == pair)
  {
    if slots == [] then 0 else if slots[0].Holds? && slots[0].pair == pair then 0 else 1 + FirstSlot(slots[1..], pair)
  }

  // What a walk of the page tables answers.
  function Walk(d: Directory, va: Word, write: bool): Answer {
    var pte := PteOf(d, va / PGSIZE);
    if !Present(pte) then Answer(false, true, 0)
    else if write && !Writable(pte) then Answer(false, false, 0)
    else Answer(true, false, Target(d, va))
  }

  // The answer for va: a walk of the tables of the directory in the first slot for its pair.
  function Through(dirs: map<nat, Directory>, slots: seq<Slot>, va: Word, write: bool): Answer {
    var i := FirstSlot(slots, va / 0x2000);
    if i < |slots| && slots[i].dir in dirs then Walk(dirs[slots[i].dir], va, write) else Answer(false, true, 0)
  }

  // The first match in the TLB is the first slot for the pair.
  lemma {:induction false} MatchIsSlot(tlb: seq<Entry>, dirs: map<nat, Directory>, slots: seq<Slot>, va: Word)
    requires |tlb| == |slots| && !Unmapped(va) && forall i :: 0 <= i < |tlb| ==> EntryBacked(tlb[i], dirs, slots[i])
    ensures FirstMatch(tlb, va / 0x2000) == FirstSlot(slots, va / 0x2000)
  {
    hide EntryOk;
    PairOf(va);
    if tlb != [] {
      assert EntryBacked(tlb[0], dirs, slots[0]);
      MatchIsSlot(tlb[1..], dirs, slots[1..], va);
    }
  }

  /** The hardware answers as the page tables do now that are those of the directory in the slot. */
  lemma HardwareWalks(tlb: seq<Entry>, dirs: map<nat, Directory>, slots: seq<Slot>, va: Word, write: bool)
    requires Backed(tlb, dirs, slots) && !Unmapped(va)
    ensures Lookup(tlb, va, write) == Through(dirs, slots, va, write)
  {
    hide EntryOk, Target, Present, Writable, FirstMatch, FirstSlot, Unmapped;
    MatchIsSlot(tlb, dirs, slots, va);
    var i := FirstMatch(tlb, va / 0x2000);
    if i < |tlb| {
      assert EntryBacked(tlb[i], dirs, slots[i]);
      HalfIsPte(tlb, dirs[slots[i].dir], va);
    }
  }

  // For va, the tables of d say all that those of s do.
  predicate Alike(s: Directory, d: Directory, va: Word) {
    var p, q := PteOf(s, va / PGSIZE), PteOf(d, va / PGSIZE);
    Present(p) ==> Present(q) && Target(s, va) == Target(d, va) && (Writable(p) <==> Writable(q))
  }

  // For every page in the TLB, directory d says what the one says from which it came in.
  ghost predicate AllAlike(dirs: map<nat, Directory>, slots: seq<Slot>, d: Directory) {
    forall va: Word :: !Unmapped(va) ==>
      var i := FirstSlot(slots, va / 0x2000);
      i < |slots| && slots[i].dir in dirs ==> Alike(dirs[slots[i].dir], d, va)
  }

  // Every load and store that the TLB lets through goes where d says.
  ghost predicate AllFaithful(tlb: seq<Entry>, d: Directory) {
    forall va: Word :: !Unmapped(va) ==> Faithful(tlb, d, va)
  }

  lemma FaithfulIfAlike(tlb: seq<Entry>, dirs: map<nat, Directory>, slots: seq<Slot>, d: Directory, va: Word)
    requires Backed(tlb, dirs, slots) && !Unmapped(va)
    ensures var i := FirstSlot(slots, va / 0x2000);
            Faithful(tlb, d, va) <==> (i < |slots| && slots[i].dir in dirs ==> Alike(dirs[slots[i].dir], d, va))
  {
    hide Backed, Lookup, Target, Present, Writable, FirstSlot, Unmapped;
    HardwareWalks(tlb, dirs, slots, va, false);
    HardwareWalks(tlb, dirs, slots, va, true);
  }

  /** The TLB is right for d exactly if d agrees, on every page in the TLB, with the directory the page came from. */
  lemma RightExactly(tlb: seq<Entry>, dirs: map<nat, Directory>, slots: seq<Slot>, d: Directory)
    requires Backed(tlb, dirs, slots)
    ensures AllFaithful(tlb, d) <==> AllAlike(dirs, slots, d)
  {
    hide Backed, Faithful, Alike, FirstSlot, Unmapped;
    forall va: Word | !Unmapped(va)
      ensures var i := FirstSlot(slots, va / 0x2000);
              Faithful(tlb, d, va) <==> (i < |slots| && slots[i].dir in dirs ==> Alike(dirs[slots[i].dir], d, va))
    {
      FaithfulIfAlike(tlb, dirs, slots, d, va);
    }
  }

  // All entries came in from directory d.
  predicate AllFrom(slots: seq<Slot>, d: nat) {
    forall i :: 0 <= i < |slots| && slots[i].Holds? ==> slots[i].dir == d
  }

  predicate AllFree(slots: seq<Slot>) {
    forall i :: 0 <= i < |slots| ==> slots[i].Free?
  }

  lemma BackedIsCoherent(tlb: seq<Entry>, dirs: map<nat, Directory>, slots: seq<Slot>, d: nat)
    requires Backed(tlb, dirs, slots) && AllFrom(slots, d) && d in dirs
    ensures Coherent(tlb, dirs[d])
  {
    hide HalfOf, PteToTlbLow;
    forall i | 0 <= i < ENTRIES ensures EntryOk(tlb[i], dirs[d]) {
      assert EntryBacked(tlb[i], dirs, slots[i]);
    }
  }

  lemma CoherentIsFaithful(tlb: seq<Entry>, d: Directory)
    requires Coherent(tlb, d)
    ensures AllFaithful(tlb, d)
  {
    hide Coherent, Faithful;
    forall va: Word | !Unmapped(va) ensures Faithful(tlb, d, va) {
      LookupIsCoherent(tlb, d, va);
    }
  }

  // ---- reference counts

  function FrameNo(pte: nat): int {
    (PteAddr(pte) - KERNBASE) / PGSIZE
  }

  // The places where a page is mapped.
  ghost function Mappings(dirs: map<nat, Directory>, page: nat): set<(nat, nat)> {
    set d, v | d in dirs && v in dirs[d] && Present(dirs[d][v]) && FrameNo(dirs[d][v]) == page :: (d, v)
  }

  ghost predicate Counted(dirs: map<nat, Directory>, refs: map<nat, nat>) {
    forall p :: p in refs ==> refs[p] == |Mappings(dirs, p)|
  }

  function SetPte(dirs: map<nat, Directory>, d: nat, vpn: nat, pte: Word): map<nat, Directory>
    requires d in dirs
  {
    var table: Directory := dirs[d];
    var updated: Directory := table[vpn := pte];
    dirs[d := updated]
  }

  lemma SetPteMappings(dirs: map<nat, Directory>, d: nat, vpn: nat, pte: Word, p: nat)
    requires d in dirs
    ensures Mappings(SetPte(dirs, d, vpn, pte), p)
         == if Present(pte) && FrameNo(pte) == p then Mappings(dirs, p) + {(d, vpn)} else Mappings(dirs, p) - {(d, vpn)}
    ensures (d, vpn) in Mappings(dirs, p) <==> Present(PteOf(dirs[d], vpn)) && FrameNo(PteOf(dirs[d], vpn)) == p
  {
    hide FrameNo;
    var n := SetPte(dirs, d, vpn, pte);
    var want := if Present(pte) && FrameNo(pte) == p then Mappings(dirs, p) + {(d, vpn)}
      else Mappings(dirs, p) - {(d, vpn)};
    forall m: (nat, nat) ensures m in Mappings(n, p) <==> m in want {
      assert m.0 in n <==> m.0 in dirs;
    }
  }

  // The tables without a present entry for va.
  function RemovePte(dirs: map<nat, Directory>, d: nat, va: Word): map<nat, Directory>
    requires d in dirs
  {
    if Present(PteOf(dirs[d], va / PGSIZE)) then SetPte(dirs, d, va / PGSIZE, 0) else dirs
  }

  lemma SetTwice(dirs: map<nat, Directory>, d: nat, vpn: nat, pte: Word)
    requires d in dirs
    ensures SetPte(SetPte(dirs, d, vpn, 0), d, vpn, pte) == SetPte(dirs, d, vpn, pte)
  {
    assert SetPte(dirs, d, vpn, 0)[d][vpn := pte] == dirs[d][vpn := pte];
  }

  // ---- building an entry

  // page2pa(page) | PTE_P | perm
  function MakePte(page: nat, perm: nat): nat {
    Or(Or(KERNBASE + page * PGSIZE, 1), perm)
  }

  lemma Pow12()
    ensures Pow2(12) == PGSIZE
  {
    assert Pow2(6) == 64;
    Pow2Add(6, 6);
  }

  lemma MadePte(page: nat, perm: nat)
    requires page < 0x8_0000 && perm < PGSIZE
    ensures MakePte(page, perm) < 0x1_0000_0000
    ensures var pte := MakePte(page, perm);
            && Present(pte) && Writable(pte) == (perm / 2 % 2 == 1) && UserBit(pte) == (perm / 4 % 2 == 1)
            && PteAddr(pte) == KERNBASE + page * PGSIZE && FrameNo(pte) == page
  {
    MadeValue(page, perm);
    OrOne(perm);
    hide Or, MakePte;
    PteFields(page, Or(1, perm));
  }

  function NewPte(page: nat, perm: nat): Word
    requires page < 0x8_0000 && perm < PGSIZE
  {
    MadePte(page, perm);
    MakePte(page, perm)
  }

  lemma MadeValue(page: nat, perm: nat)
    requires perm < PGSIZE
    ensures MakePte(page, perm) == (0x8_0000 + page) * PGSIZE + Or(1, perm)
  {
    Pow12();
    var a := 0x8_0000 + page;
    OrLow(a, 12, 0, 1);
    OrLow(a, 12, 1, perm);
    assert Or(0, 1) == 1;
    hide Or, Pow2;
  }

  lemma PteFields(page: nat, x: nat)
    requires page < 0x8_0000 && x < PGSIZE
    ensures var pte := (0x8_0000 + page) * PGSIZE + x;
            && pte < 0x1_0000_0000 && Present(pte) == (x % 2 == 1) && Writable(pte) == (x / 2 % 2 == 1)
            && UserBit(pte) == (x / 4 % 2 == 1)
            && PteAddr(pte) == KERNBASE + page * PGSIZE && FrameNo(pte) == page
  {
    var a := 0x8_0000 + page;
    Quotients(a, x);
    assert KERNBASE == 0x8_0000 * PGSIZE;
    assert PteAddr(a * PGSIZE + x) == a * PGSIZE;
    assert FrameNo(a * PGSIZE + x) == page by {
      assert a * PGSIZE - KERNBASE == page * PGSIZE;
    }
  }

  lemma Quotients(a: nat, x: nat)
    requires x < PGSIZE
    ensures var p := a * PGSIZE + x;
            p / PGSIZE == a && p % 2 == x % 2 && p / 2 % 2 == x / 2 % 2 && p / 4 % 2 == x / 4 % 2
  {
    var b := a * 1024;
    DivShift(x, PGSIZE, a);
    DivShift(x, 2, 2 * b);
    DivShift(x, 4, b);
    Parity(x, 2 * b);
    Parity(x / 2, b);
    Parity(x / 4, a * 512);
  }

  lemma OrOne(perm: nat)
    requires perm < PGSIZE
    ensures var x := Or(1, perm); x < PGSIZE && x % 2 == 1 && x / 2 == perm / 2
  {}

  // Every page counts its mappings, and every mapping is of a page.
  ghost predicate TablesOk(dirs: map<nat, Directory>, refs: map<nat, nat>) {
    && Counted(dirs, refs)
    && forall d, v :: d in dirs && v in dirs[d] && Present(dirs[d][v]) ==> FrameNo(dirs[d][v]) in refs
  }

  function Dec(refs: map<nat, nat>, p: nat): map<nat, nat>
    requires p in refs && refs[p] > 0
  {
    refs[p := refs[p] - 1]
  }

  function Inc(refs: map<nat, nat>, p: nat): map<nat, nat>
    requires p in refs
  {
    refs[p := refs[p] + 1]
  }

  // Clearing a present entry takes one from the count of its page.
  lemma ClearPte(dirs: map<nat, Directory>, refs: map<nat, nat>, d: nat, vpn: nat)
    requires TablesOk(dirs, refs) && d in dirs && Present(PteOf(dirs[d], vpn))
    ensures var p := FrameNo(PteOf(dirs[d], vpn));
            p in refs && refs[p] > 0 && TablesOk(SetPte(dirs, d, vpn, 0), Dec(refs, p))
  {
    hide FrameNo, Mappings;
    var p := FrameNo(PteOf(dirs[d], vpn));
    CountChange(dirs, d, vpn, 0, p);
    forall q | q in refs ensures Dec(refs, p)[q] == |Mappings(SetPte(dirs, d, vpn, 0), q)| {
      CountChange(dirs, d, vpn, 0, q);
    }
  }

  // Storing an entry over one that is not present adds one to the count of its page.
  lemma FillPte(dirs: map<nat, Directory>, refs: map<nat, nat>, d: nat, vpn: nat, pte: Word)
    requires TablesOk(dirs, refs) && d in dirs && !Present(PteOf(dirs[d], vpn)) && Present(pte) && FrameNo(pte) in refs
    ensures TablesOk(SetPte(dirs, d, vpn, pte), Inc(refs, FrameNo(pte)))
  {
    hide FrameNo, Mappings;
    forall q | q in refs ensures Inc(refs, FrameNo(pte))[q] == |Mappings(SetPte(dirs, d, vpn, pte), q)| {
      CountChange(dirs, d, vpn, pte, q);
    }
  }

  // Storing an entry over one of the same page changes no count.
  lemma ReplacePte(dirs: map<nat, Directory>, refs: map<nat, nat>, d: nat, vpn: nat, pte: Word)
    requires TablesOk(dirs, refs) && d in dirs && Present(PteOf(dirs[d], vpn)) && Present(pte)
    requires FrameNo(pte) == FrameNo(PteOf(dirs[d], vpn))
    ensures TablesOk(SetPte(dirs, d, vpn, pte), refs)
  {
    hide FrameNo, Mappings;
    forall q | q in refs ensures refs[q] == |Mappings(SetPte(dirs, d, vpn, pte), q)| {
      CountChange(dirs, d, vpn, pte, q);
    }
  }

  datatype Miss = Refilled | Fault | Denied

  // What handle_tlbmiss does about an entry of the current directory.
  function Handled(pte: Word, write: bool, inKernel: bool): Miss {
    if pte == 0 then Fault
    else if !inKernel && (!UserBit(pte) || (write && !Writable(pte))) then Denied
    else Refilled
  }

  // The page of an entry that was present, if nothing maps it any more.
  function Orphan(pte: Word, refs: map<nat, nat>): Option<nat> {
    if Present(pte) && FrameNo(pte) in refs && refs[FrameNo(pte)] == 0 then Some(FrameNo(pte)) else None
  }

  function NoSlots(): (s: seq<Slot>)
    ensures AllFree(s)
  {
    seq(ENTRIES, _ => Free)
  }

  // A refill puts the pair and the current directory into the next slot.
  lemma BackedRefill(tlb: seq<Entry>, dirs: map<nat, Directory>, slots: seq<Slot>, d: nat, i: nat, e: Entry)
    requires Backed(tlb, dirs, slots) && d in dirs && i < ENTRIES && EntryOk(e, dirs[d]) && !Unmapped(e.vpn2 * 0x2000)
    ensures Backed(tlb[i := e], dirs, slots[i := Holds(e.vpn2, d)])
  {
    hide EntryOk;
  }

  class Mmu {
    const tlb: array<Entry>
    var index: nat
    var dirs: map<nat, Directory>
    var current: nat
    var refs: map<nat, nat>
    ghost var slots: seq<Slot>

    ghost predicate Ok()
      reads this, tlb
    {
      current in dirs && Backed(tlb[..], dirs, slots) && TablesOk(dirs, refs)
    }

    // After reset every entry is outside the mapped segments; the directories are empty, and 0 is current.
    constructor (pages: set<nat>, ids: set<nat>)
      ensures Ok() && dirs.Keys == ids + {0} && (forall d :: d in dirs ==> dirs[d] == map[]) && current == 0
      ensures refs.Keys == pages && slots == NoSlots() && index == 0 && fresh(tlb)
    {
      tlb := new Entry[ENTRIES](_ => Entry(0x4_0000, Half(0, false, false), Half(0, false, false)));
      index, current, slots := 0, 0, NoSlots();
      dirs := map d | d in ids + {0} :: map[];
      refs := map p | p in pages :: 0;
      new;
      assert forall p :: Mappings(dirs, p) == {};
    }

    // write_one_tlb with the index register cut to four bits
    method WriteOneTlb(i: nat, hi: Word, lo0: Word, lo1: Word)
      requires tlb.Length == ENTRIES
      modifies tlb
      ensures tlb[..] == old(tlb[..])[i % ENTRIES := Entry(hi / 0x2000, HalfOf(lo0), HalfOf(lo1))]
    {
      tlb[i % ENTRIES] := Entry(hi / 0x2000, HalfOf(lo0), HalfOf(lo1));
    }

    // All 128 writes go to the 16 entries; the addresses lie outside the mapped segments.
    method TlbInvalidateAll()
      requires tlb.Length == ENTRIES
      modifies tlb, `slots
      ensures slots == NoSlots() && (forall ds :: Backed(tlb[..], ds, slots)) && forall d :: Coherent(tlb[..], d)
    {
      hide HalfOf;
      for i := 0 to 128
        invariant forall j :: 0 <= j < ENTRIES && j < i ==> Unmapped(tlb[j].vpn2 * 0x2000)
      {
        WriteOneTlb(i, 0x8000_0000 + i * 0x10_0000, 0, 0);
      }
      slots := NoSlots();
    }

    // tlb_refill: the pair of pages that holds the address, from the current directory
    method TlbRefill(badaddr: Word)
      requires Ok() && !Unmapped(badaddr)
      modifies tlb, `index, `slots
      ensures Ok() && index == (old(index) + 1) % 0x1_0000_0000
      ensures slots == old(slots)[old(index) % ENTRIES := Holds(badaddr / 0x2000, current)]
    {
      hide HalfOf, PteToTlbLow, Backed, TablesOk;
      var vpn := badaddr / PGSIZE;
      if vpn % 2 == 1 {
        vpn := vpn - 1;
      }
      var d := dirs[current];
      PairOf(badaddr);
      ghost var was := tlb[..];
      BackedLength(was, dirs, slots);
      WriteOneTlb(index, badaddr / 0x2000 * 0x2000, PteToTlbLow(PteOf(d, vpn)), PteToTlbLow(PteOf(d, vpn + 1)));
      assert tlb[index % ENTRIES].vpn2 == badaddr / 0x2000;
      BackedRefill(was, dirs, slots, current, index % ENTRIES, tlb[index % ENTRIES]);
      slots := slots[index % ENTRIES := Holds(badaddr / 0x2000, current)];
      index := (index + 1) % 0x1_0000_0000;
    }

    // handle_tlbmiss, up to the page fault handler
    method TlbMiss(va: Word, write: bool, inKernel: bool) returns (r: Miss)
      requires Ok() && !Unmapped(va)
      modifies tlb, `index, `slots
      ensures Ok() && r == Handled(PteOf(dirs[current], va / PGSIZE), write, inKernel)
      ensures r == Refilled ==>
                && slots == old(slots)[old(index) % ENTRIES := Holds(va / 0x2000, current)]
                && index == (old(index) + 1) % 0x1_0000_0000
      ensures r != Refilled ==> slots == old(slots) && index == old(index) && tlb[..] == old(tlb[..])
      ensures var pte := PteOf(dirs[current], va / PGSIZE);
              && (r == Fault <==> pte == 0)
              && (r == Denied <==> pte != 0 && !inKernel && !(UserBit(pte) && (write ==> Writable(pte))))
      ensures r == Refilled && Present(PteOf(dirs[current], va / PGSIZE)) && AllFrom(old(slots), current) ==>
                Lookup(tlb[..], va, false) == Answer(true, false, Target(dirs[current], va))
    {
      hide Backed, Lookup, Target, TablesOk, Present;
      var pte := PteOf(dirs[current], va / PGSIZE);
      if pte == 0 {
        return Fault;
      }
      if !inKernel && (!UserBit(pte) || (write && !Writable(pte))) {
        return Denied;
      }
      BackedLength(tlb[..], dirs, slots);
      TlbRefill(va);
      if Present(pte) && AllFrom(old(slots), current) {
        RefillHits(tlb[..], dirs, slots, old(index) % ENTRIES, current, va);
      }
      r := Refilled;
    }

    // page_remove_pte on the entry for va; a page whose last mapping goes is freed
    method PageRemovePte(d: nat, va: Word) returns (freed: Option<nat>)
      requires current in dirs && tlb.Length == ENTRIES && TablesOk(dirs, refs) && d in dirs
      modifies `dirs, `refs, `slots, tlb
      ensures Ok() && refs.Keys == old(refs.Keys) && current in old(dirs) && slots == NoSlots()
      ensures dirs == RemovePte(old(dirs), d, va)
      ensures freed == Orphan(old(PteOf(dirs[d], va / PGSIZE)), refs)
    {
      hide TablesOk, FrameNo, Backed;
      freed := None;
      var vpn := va / PGSIZE;
      var pte := PteOf(dirs[d], vpn);
      if Present(pte) {
        ClearPte(dirs, refs, d, vpn);
        var page := FrameNo(pte);
        refs := Dec(refs, page);
        if refs[page] == 0 {
          freed := Some(page);
        }
        dirs := SetPte(dirs, d, vpn, 0);
      }
      TlbInvalidateAll();
    }

    // page_insert; table tells whether get_pte finds or gets a page table.  The source counts the new mapping
    // before it removes the old one; the two pages differ, so the order makes no difference.
    method PageInsert(d: nat, page: nat, va: Word, perm: nat, table: bool) returns (ok: bool, freed: Option<nat>)
      requires Ok() && d in dirs && page in refs && page < 0x8_0000 && perm < PGSIZE
      modifies `dirs, `refs, `slots, tlb
      ensures Ok() && ok == table && refs.Keys == old(refs.Keys) && slots == if ok then NoSlots() else old(slots)
      ensures !ok ==> dirs == old(dirs) && refs == old(refs)
      ensures ok ==> dirs == SetPte(old(dirs), d, va / PGSIZE, NewPte(page, perm))
      ensures ok ==>
                var was := old(PteOf(dirs[d], va / PGSIZE));
                freed == if FrameNo(was) == page then None else Orphan(was, refs)
      ensures !ok ==> freed == None
    {
      hide TablesOk, FrameNo, MakePte, Backed;
      freed := None;
      if !table {
        return false, freed;
      }
      MadePte(page, perm);
      BackedLength(tlb[..], dirs, slots);
      var vpn := va / PGSIZE;
      var pte := NewPte(page, perm);
      var was := PteOf(dirs[d], vpn);
      SetTwice(dirs, d, vpn, pte);
      if Present(was) && FrameNo(was) == page {
        ReplacePte(dirs, refs, d, vpn, pte);
      } else {
        if Present(was) {
          freed := PageRemovePte(d, va);
        }
        FillPte(dirs, refs, d, vpn, pte);
        refs := Inc(refs, page);
      }
      dirs := SetPte(dirs, d, vpn, pte);
      TlbInvalidateAll();
      ok := true;
    }

    // lcr3: another directory, and no flush
    method Lcr3(d: nat)
      requires Ok() && d in dirs
      modifies `current
      ensures Ok() && current == d
    {
      current := d;
    }

    // proc_run's change of directory
    method ProcRun(d: nat)
      requires Ok() && d in dirs
      modifies `current, `slots, tlb
      ensures Ok() && current == d && slots == NoSlots()
    {
      Lcr3(d);
      TlbInvalidateAll();
    }
  }

  lemma BackedLength(tlb: seq<Entry>, dirs: map<nat, Directory>, slots: seq<Slot>)
    requires Backed(tlb, dirs, slots)
    ensures |tlb| == |slots| == ENTRIES
  {}

  // An address just filled in from the only directory in the TLB is found.
  lemma RefillHits(tlb: seq<Entry>, dirs: map<nat, Directory>, slots: seq<Slot>, i: nat, d: nat, va: Word)
    requires Backed(tlb, dirs, slots) && AllFrom(slots, d) && d in dirs && !Unmapped(va)
    requires i < ENTRIES && slots[i] == Holds(va / 0x2000, d) && Present(PteOf(dirs[d], va / PGSIZE))
    ensures Lookup(tlb, va, false) == Answer(true, false, Target(dirs[d], va))
  {
    hide Backed, Lookup, Target, Present;
    BackedLength(tlb, dirs, slots);
    HardwareWalks(tlb, dirs, slots, va, false);
    SlotExists(slots, va / 0x2000, i);
  }

  lemma {:induction false} SlotExists(slots: seq<Slot>, pair: nat, i: nat)
    requires i < |slots| && slots[i].Holds? && slots[i].pair == pair
    ensures FirstSlot(slots, pair) < |slots|
    decreases |slots|
  {
    if !(slots[0].Holds? && slots[0].pair == pair) {
      SlotExists(slots[1..], pair, i - 1);
    }
  }

  // What storing an entry does to the count of a page.
  lemma CountChange(dirs: map<nat, Directory>, d: nat, vpn: nat, pte: Word, p: nat)
    requires d in dirs
    ensures var was := Present(PteOf(dirs[d], vpn)) && FrameNo(PteOf(dirs[d], vpn)) == p;
            var now := Present(pte) && FrameNo(pte) == p;
            && |Mappings(SetPte(dirs, d, vpn, pte), p)| ==
                 |Mappings(dirs, p)| - (if was then 1 else 0) + (if now then 1 else 0)
            && (was ==> |Mappings(dirs, p)| > 0)
  {
    hide Mappings, SetPte, Present, FrameNo, PteOf;
    SetPteMappings(dirs, d, vpn, pte, p);
    var m := Mappings(dirs, p);
    if (d, vpn) in m {
      assert |m - {(d, vpn)}| == |m| - 1;
      assert m + {(d, vpn)} == m;
    } else {
      assert m - {(d, vpn)} == m;
    }
  }
}
