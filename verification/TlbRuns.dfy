/**
  Sequences of mappings, removals, context switches, bare lcr3 calls and TLB
  misses, and exactly when the TLB then agrees with the current directory.
 */
module TlbRuns {
  import opened Options
  import opened Bits
  import opened MipsWord
  import opened Paging
  import opened Tlb
  import opened TlbKernel

  datatype Op =
    | InsertOp(d: nat, page: nat, va: Word, perm: nat, table: bool) | RemoveOp(d: nat, va: Word)
    | SwitchOp(d: nat) | LoadOp(d: nat) | MissOp(va: Word, write: bool, inKernel: bool)

  // The page tables, and which pages of which directory are in the TLB.
  datatype Memory = Memory(dirs: map<nat, Directory>, current: nat, index: nat, slots: seq<Slot>)

  predicate Sane(a: Memory) {
    a.current in a.dirs && |a.slots| == ENTRIES
  }

  predicate Mappable(a: Memory, pages: set<nat>, op: Op) {
    op.InsertOp? && op.d in a.dirs && op.page in pages && op.page < 0x8_0000 && op.perm < PGSIZE
  }

  // One operation; those on directories or pages that do not exist do nothing.
  function Step(a: Memory, pages: set<nat>, op: Op): (b: Memory)
    requires Sane(a)
    ensures Sane(b) && b.dirs.Keys == a.dirs.Keys
  {
    match op
    case InsertOp(d, page, va, perm, table) =>
      if Mappable(a, pages, op) && table then
        a.(dirs := SetPte(a.dirs, d, va / PGSIZE, NewPte(page, perm)), slots := NoSlots())
      else a
    case RemoveOp(d, va) => if d in a.dirs then a.(dirs := RemovePte(a.dirs, d, va), slots := NoSlots()) else a
    case SwitchOp(d) => if d in a.dirs then a.(current := d, slots := NoSlots()) else a
    case LoadOp(d) => if d in a.dirs then a.(current := d) else a
    case MissOp(va, write, inKernel) =>
      if !Unmapped(va) && Handled(PteOf(a.dirs[a.current], va / PGSIZE), write, inKernel) == Refilled then
        a.(index := (a.index + 1) % 0x1_0000_0000,
           slots := a.slots[a.index % ENTRIES := Holds(va / 0x2000, a.current)])
      else a
  }

  function After(a: Memory, pages: set<nat>, ops: seq<Op>): (b: Memory)
    requires Sane(a)
    ensures Sane(b) && b.dirs.Keys == a.dirs.Keys
  {
    if ops == [] then a else Step(After(a, pages, ops[..|ops| - 1]), pages, ops[|ops| - 1])
  }

  ghost function MemoryOf(m: Mmu): Memory
    reads m
  {
    Memory(m.dirs, m.current, m.index, m.slots)
  }

  // ---- when the TLB holds only pages of the current directory

  // An operation that empties the TLB.
  predicate Flushes(dirs: set<nat>, pages: set<nat>, op: Op) {
    match op
    case InsertOp(d, page, _, perm, table) => d in dirs && page in pages && page < 0x8_0000 && perm < PGSIZE && table
    case RemoveOp(d, _) => d in dirs
    case SwitchOp(d) => d in dirs
    case _ => false
  }

  // What an operation does to the slots.
  lemma StepSlots(a: Memory, pages: set<nat>, op: Op)
    requires Sane(a)
    ensures var b := Step(a, pages, op);
            && (Flushes(a.dirs.Keys, pages, op) ==> AllFree(b.slots))
            && (!Flushes(a.dirs.Keys, pages, op) && !op.MissOp? ==> b.slots == a.slots)
            && (!Flushes(a.dirs.Keys, pages, op) && !op.LoadOp? ==> b.current == a.current)
            && (op.MissOp? && AllFrom(a.slots, a.current) ==> AllFrom(b.slots, b.current))
  {
    hide SetPte, NewPte, RemovePte, Handled;
  }

  /** Without a bare lcr3 the TLB never holds a page of a directory other than the current one. */
  lemma {:induction false} NoLoads(a: Memory, pages: set<nat>, ops: seq<Op>)
    requires Sane(a) && AllFrom(a.slots, a.current) && forall i :: 0 <= i < |ops| ==> !ops[i].LoadOp?
    ensures var b := After(a, pages, ops); AllFrom(b.slots, b.current)
  {
    hide Step;
    if ops != [] {
      NoLoads(a, pages, ops[..|ops| - 1]);
      StepSlots(After(a, pages, ops[..|ops| - 1]), pages, ops[|ops| - 1]);
    }
  }

  // Nothing from position i on flushes.
  predicate Lasts(dirs: set<nat>, pages: set<nat>, ops: seq<Op>, i: nat) {
    forall k :: i < k < |ops| ==> !Flushes(dirs, pages, ops[k])
  }

  // A miss comes before a bare lcr3, and nothing after it flushes.
  ghost predicate Exposed(dirs: set<nat>, pages: set<nat>, ops: seq<Op>) {
    exists i, j :: 0 <= i < j < |ops| && ops[i].MissOp? && ops[j].LoadOp? && Lasts(dirs, pages, ops, i)
  }

  // A miss that nothing after it flushes.
  ghost predicate Filled(dirs: set<nat>, pages: set<nat>, ops: seq<Op>) {
    exists i :: 0 <= i < |ops| && ops[i].MissOp? && Lasts(dirs, pages, ops, i)
  }

  lemma {:induction false} ExposedOnly(a: Memory, pages: set<nat>, ops: seq<Op>)
    requires Sane(a) && AllFree(a.slots)
    ensures var b := After(a, pages, ops);
            && (AllFree(b.slots) || Filled(a.dirs.Keys, pages, ops))
            && (AllFrom(b.slots, b.current) || Exposed(a.dirs.Keys, pages, ops))
  {
    hide Step, Flushes, Filled, Exposed;
    if ops != [] {
      var n := |ops| - 1;
      ExposedOnly(a, pages, ops[..n]);
      StepSlots(After(a, pages, ops[..n]), pages, ops[n]);
      if !Flushes(a.dirs.Keys, pages, ops[n]) {
        ExposedLonger(a.dirs.Keys, pages, ops);
      }
    }
  }

  lemma ExposedLonger(dirs: set<nat>, pages: set<nat>, ops: seq<Op>)
    requires ops != [] && !Flushes(dirs, pages, ops[|ops| - 1])
    ensures var was, op := ops[..|ops| - 1], ops[|ops| - 1];
            && (Filled(dirs, pages, was) ==> Filled(dirs, pages, ops))
            && (Exposed(dirs, pages, was) ==> Exposed(dirs, pages, ops))
            && (op.MissOp? ==> Filled(dirs, pages, ops))
            && (op.LoadOp? && Filled(dirs, pages, was) ==> Exposed(dirs, pages, ops))
  {}

  // ---- runs

  // One operation on the machine.
  method Do(m: Mmu, op: Op)
    requires m.Ok()
    modifies m, m.tlb
    ensures m.Ok() && m.refs.Keys == old(m.refs.Keys) && Sane(old(MemoryOf(m)))
    ensures MemoryOf(m) == Step(old(MemoryOf(m)), m.refs.Keys, op)
  {
    hide TablesOk, Backed, SetPte, NewPte, RemovePte, Handled;
    BackedLength(m.tlb[..], m.dirs, m.slots);
    match op {
      case InsertOp(d, page, va, perm, table) =>
        if d in m.dirs && page in m.refs && page < 0x8_0000 && perm < PGSIZE {
          var ok, freed := m.PageInsert(d, page, va, perm, table);
        }
      case RemoveOp(d, va) =>
        if d in m.dirs {
          var freed := m.PageRemovePte(d, va);
        }
      case SwitchOp(d) =>
        if d in m.dirs {
          m.ProcRun(d);
        }
      case LoadOp(d) =>
        if d in m.dirs {
          m.Lcr3(d);
        }
      case MissOp(va, write, inKernel) =>
        if !Unmapped(va) {
          var r := m.TlbMiss(va, write, inKernel);
        }
    }
  }

  /**
    Any sequence of mappings, removals, context switches, bare lcr3 calls and TLB misses.  What the hardware answers is
    what the page tables say at that moment, of the directory from which the entry came in.  This is what the current
    directory says, for every address, exactly if the current directory agrees on the pages that the TLB holds; so it
    always is without a bare lcr3, and also if whenever a bare lcr3 follows a miss a flush follows that miss.
   */
  method Serve(m: Mmu, ops: seq<Op>)
    requires m.Ok()
    modifies m, m.tlb
    ensures m.Ok() && m.refs.Keys == old(m.refs.Keys) && Sane(old(MemoryOf(m)))
    ensures MemoryOf(m) == After(old(MemoryOf(m)), m.refs.Keys, ops)
    ensures forall va: Word, write: bool :: !Unmapped(va) ==>
              Lookup(m.tlb[..], va, write) == Through(m.dirs, m.slots, va, write)
    ensures AllFaithful(m.tlb[..], m.dirs[m.current]) <==> AllAlike(m.dirs, m.slots, m.dirs[m.current])
    ensures old(AllFrom(m.slots, m.current)) && (forall i :: 0 <= i < |ops| ==> !ops[i].LoadOp?) ==>
              AllFaithful(m.tlb[..], m.dirs[m.current])
    ensures old(AllFree(m.slots)) && !Exposed(m.dirs.Keys, m.refs.Keys, ops) ==>
              AllFaithful(m.tlb[..], m.dirs[m.current])
  {
    hide TablesOk, Backed, Step, Lookup, Through, AllFaithful, AllAlike, Exposed;
    ghost var a, pages := MemoryOf(m), m.refs.Keys;
    BackedLength(m.tlb[..], m.dirs, m.slots);
    for i := 0 to |ops|
      invariant m.Ok() && m.refs.Keys == pages && MemoryOf(m) == After(a, pages, ops[..i])
    {
      assert ops[..i + 1][..i] == ops[..i];
      Do(m, ops[i]);
    }
    assert ops[..|ops|] == ops;
    Answers(m.tlb[..], m.dirs, m.slots, m.current);
    if AllFrom(a.slots, a.current) && forall i :: 0 <= i < |ops| ==> !ops[i].LoadOp? {
      NoLoads(a, pages, ops);
    }
    if AllFree(a.slots) && !Exposed(m.dirs.Keys, pages, ops) {
      ExposedOnly(a, pages, ops);
    }
  }

  lemma Answers(tlb: seq<Entry>, dirs: map<nat, Directory>, slots: seq<Slot>, d: nat)
    requires Backed(tlb, dirs, slots) && d in dirs
    ensures forall va: Word, write: bool :: !Unmapped(va) ==> Lookup(tlb, va, write) == Through(dirs, slots, va, write)
    ensures AllFaithful(tlb, dirs[d]) <==> AllAlike(dirs, slots, dirs[d])
    ensures AllFrom(slots, d) ==> AllFaithful(tlb, dirs[d])
  {
    hide Backed, Lookup, Through, AllFaithful, AllAlike, Coherent, Unmapped;
    forall va: Word, write: bool | !Unmapped(va) ensures Lookup(tlb, va, write) == Through(dirs, slots, va, write) {
      HardwareWalks(tlb, dirs, slots, va, write);
    }
    RightExactly(tlb, dirs, slots, dirs[d]);
    if AllFrom(slots, d) {
      BackedIsCoherent(tlb, dirs, slots, d);
      CoherentIsFaithful(tlb, dirs[d]);
    }
  }

  // ---- the bare lcr3 calls

  // The TLB has an entry for the page of va.
  ghost predicate Resident(slots: seq<Slot>, va: Word) {
    exists i :: 0 <= i < |slots| && slots[i].Holds? && slots[i].pair == va / 0x2000
  }

  /**
    lcr3 from directory c, the only one with pages in the TLB, to d without a flush: translations are then those of d
    exactly if d agrees with c on every page in the TLB.  If d maps nothing, as boot_pgdir, that is exactly if no page
    in the TLB is present in c.
   */
  lemma LoadExactly(tlb: seq<Entry>, dirs: map<nat, Directory>, slots: seq<Slot>, c: nat, d: nat)
    requires Backed(tlb, dirs, slots) && AllFrom(slots, c) && c in dirs && d in dirs
    ensures AllFaithful(tlb, dirs[d]) <==>
              forall va: Word :: !Unmapped(va) && Resident(slots, va) ==> Alike(dirs[c], dirs[d], va)
    ensures (forall vpn :: !Present(PteOf(dirs[d], vpn))) ==>
              (AllFaithful(tlb, dirs[d]) <==>
                 forall va: Word :: !Unmapped(va) && Resident(slots, va) ==> !Present(PteOf(dirs[c], va / PGSIZE)))
  {
    hide Backed, AllFaithful, Alike, Unmapped, FirstSlot, Resident;
    RightExactly(tlb, dirs, slots, dirs[d]);
    forall va: Word ensures FirstSlot(slots, va / 0x2000) < |slots| <==> Resident(slots, va) {
      ResidentIsFirst(slots, va);
    }
    forall va: Word | forall vpn :: !Present(PteOf(dirs[d], vpn))
      ensures Alike(dirs[c], dirs[d], va) <==> !Present(PteOf(dirs[c], va / PGSIZE))
    {
      AlikeNothing(dirs[c], dirs[d], va);
    }
  }

  lemma ResidentIsFirst(slots: seq<Slot>, va: Word)
    ensures FirstSlot(slots, va / 0x2000) < |slots| <==> Resident(slots, va)
  {
    hide FirstSlot;
    if Resident(slots, va) {
      var i :| 0 <= i < |slots| && slots[i].Holds? && slots[i].pair == va / 0x2000;
      SlotExists(slots, va / 0x2000, i);
    }
  }

  lemma AlikeNothing(c: Directory, d: Directory, va: Word)
    requires forall vpn :: !Present(PteOf(d, vpn))
    ensures Alike(c, d, va) <==> !Present(PteOf(c, va / PGSIZE))
  {
    hide Present, Writable, Target;
  }

  // What load_icode does before it switches: map pages into directory d, and meet TLB misses.
  predicate Loading(op: Op, d: nat, pages: set<nat>) {
    match op
    case InsertOp(e, page, _, perm, _) => e == d && page in pages && page < 0x8_0000 && perm < PGSIZE
    case MissOp(va, _, _) => !Unmapped(va)
    case _ => false
  }

  predicate Maps(op: Op) {
    op.InsertOp? && op.table
  }

  predicate Blank(d: Directory) {
    forall vpn :: vpn in d ==> d[vpn] == 0
  }

  /**
    load_icode: pages are mapped into a directory that is not current, and lcr3 then makes it current without a flush.
    As each mapping flushed, and a directory without entries fills no slot, the TLB is coherent with the new directory.
   */
  method MapThenLoad(m: Mmu, d: nat, ops: seq<Op>)
    requires m.Ok() && d in m.dirs && d != m.current && Blank(m.dirs[m.current])
    requires forall i :: 0 <= i < |ops| ==> Loading(ops[i], d, m.refs.Keys)
    requires exists i :: 0 <= i < |ops| && Maps(ops[i])
    modifies m, m.tlb
    ensures m.Ok() && m.current == d && AllFree(m.slots) && Coherent(m.tlb[..], m.dirs[d])
  {
    hide TablesOk, Backed, NewPte, Coherent;
    var boot := m.current;
    for i := 0 to |ops|
      invariant m.Ok() && m.current == boot && d in m.dirs && m.dirs[boot] == old(m.dirs[boot])
      invariant m.refs.Keys == old(m.refs.Keys) && (AllFree(m.slots) || forall j :: 0 <= j < i ==> !Maps(ops[j]))
    {
      assert Loading(ops[i], d, m.refs.Keys);
      match ops[i] {
        case InsertOp(e, page, va, perm, table) =>
          var ok, freed := m.PageInsert(d, page, va, perm, table);
        case MissOp(va, write, inKernel) =>
          var r := m.TlbMiss(va, write, inKernel);
      }
    }
    m.Lcr3(d);
    BackedIsCoherent(m.tlb[..], m.dirs, m.slots, d);
  }

  // Without the flush an entry of the previous directory answers: page 5 where the current directory has page 6.
  method StaleAfterLcr3() returns (m: Mmu)
    ensures fresh(m) && m.Ok() && m.current == 2 && 2 in m.dirs
    ensures Target(m.dirs[2], 0) == 6 * PGSIZE && Lookup(m.tlb[..], 0, false) == Answer(true, false, 5 * PGSIZE)
  {
    hide TablesOk, Backed, Lookup, MakePte, Target;
    m := new Mmu({5, 6}, {1, 2});
    m.ProcRun(1);
    var ok, freed := m.PageInsert(2, 6, 0, 7, true);
    MapAndTouch(m, 5, 0, 7);
    TargetIs(m.dirs[2], 0, 6, 7);
    m.Lcr3(2);
  }

  // A page mapped into the current directory is reached after one miss, at its own frame; stores need the permission.
  method MapAndTouch(m: Mmu, page: nat, va: Word, perm: nat)
    requires m.Ok() && page in m.refs && page < 0x8_0000 && perm < PGSIZE && !Unmapped(va)
    modifies m, m.tlb
    ensures m.Ok() && m.current == old(m.current) && AllFrom(m.slots, m.current)
    ensures m.dirs == SetPte(old(m.dirs), m.current, va / PGSIZE, NewPte(page, perm))
    ensures Lookup(m.tlb[..], va, false) == Answer(true, false, page * PGSIZE + va % PGSIZE)
    ensures Lookup(m.tlb[..], va, true).valid <==> perm / 2 % 2 == 1
  {
    hide TablesOk, Backed, Coherent, Lookup, MakePte, Target;
    MadePte(page, perm);
    var ok, freed := m.PageInsert(m.current, page, va, perm, true);
    var r := m.TlbMiss(va, false, true);
    TargetIs(m.dirs[m.current], va, page, perm);
    BackedIsCoherent(m.tlb[..], m.dirs, m.slots, m.current);
    LookupIsCoherent(m.tlb[..], m.dirs[m.current], va);
  }

  // The permission bits PTE_U and PTE_W.
  predicate MayUse(perm: nat, write: bool) {
    perm / 4 % 2 == 1 && (write ==> perm / 2 % 2 == 1)
  }

  /**
    A user access to a page just mapped into the current directory: the miss is refilled exactly if the permission has
    the user bit and, for a store, the write bit, and the access then reaches the page's own frame; otherwise it is
    refused and the TLB stays as the mapping left it.
   */
  method UserTouch(m: Mmu, page: nat, va: Word, perm: nat, write: bool) returns (r: Miss)
    requires m.Ok() && page in m.refs && page < 0x8_0000 && perm < PGSIZE && !Unmapped(va)
    modifies m, m.tlb
    ensures m.Ok() && m.current == old(m.current)
    ensures m.dirs == SetPte(old(m.dirs), m.current, va / PGSIZE, NewPte(page, perm))
    ensures r == if MayUse(perm, write) then Refilled else Denied
    ensures r == Refilled ==> Lookup(m.tlb[..], va, write) == Answer(true, false, page * PGSIZE + va % PGSIZE)
    ensures r == Denied ==> m.slots == NoSlots() && m.index == old(m.index) && !Lookup(m.tlb[..], va, write).valid
  {
    hide TablesOk, Backed, Coherent, Lookup, MakePte, Target, Handled, Present, Writable, UserBit, FrameNo, PteAddr;
    MadePte(page, perm);
    var ok, freed := m.PageInsert(m.current, page, va, perm, true);
    NotZero(NewPte(page, perm));
    r := m.TlbMiss(va, write, false);
    ghost var d := m.dirs[m.current];
    assert PteOf(d, va / PGSIZE) == NewPte(page, perm);
    TargetIs(d, va, page, perm);
    if r == Refilled {
      TouchHits(m.tlb[..], m.dirs, m.slots, old(m.index) % ENTRIES, m.current, va, write);
    } else {
      EmptyMisses(m.tlb[..], m.dirs, m.slots, va, write);
    }
  }

  lemma NotZero(pte: Word)
    requires Present(pte)
    ensures pte != 0
  {}

  lemma TouchHits(tlb: seq<Entry>, dirs: map<nat, Directory>, slots: seq<Slot>, i: nat, d: nat, va: Word, write: bool)
    requires Backed(tlb, dirs, slots) && AllFrom(slots, d) && d in dirs && !Unmapped(va)
    requires i < |slots| && slots[i] == Holds(va / 0x2000, d)
    requires var pte := PteOf(dirs[d], va / PGSIZE); Present(pte) && (write ==> Writable(pte))
    ensures Lookup(tlb, va, write) == Answer(true, false, Target(dirs[d], va))
  {
    hide Backed, Lookup, Target, Present, Writable;
    SlotExists(slots, va / 0x2000, i);
    HardwareWalks(tlb, dirs, slots, va, write);
  }

  lemma EmptyMisses(tlb: seq<Entry>, dirs: map<nat, Directory>, slots: seq<Slot>, va: Word, write: bool)
    requires Backed(tlb, dirs, slots) && slots == NoSlots() && !Unmapped(va)
    ensures !Lookup(tlb, va, write).valid
  {
    hide Backed, Lookup;
    HardwareWalks(tlb, dirs, slots, va, write);
  }

  // ---- what a miss finds, from the operations alone

  datatype Mapping = Unset | To(page: nat, perm: nat)

  // The last word on page vpn of directory d.
  function LastMapping(dirs: set<nat>, pages: set<nat>, ops: seq<Op>, d: nat, vpn: nat): Mapping {
    if ops == [] then Unset
    else
      var op := ops[|ops| - 1];
      if op.InsertOp? && Flushes(dirs, pages, op) && op.d == d && op.va / PGSIZE == vpn then To(op.page, op.perm)
      else if op.RemoveOp? && Flushes(dirs, pages, op) && op.d == d && op.va / PGSIZE == vpn then Unset
      else LastMapping(dirs, pages, ops[..|ops| - 1], d, vpn)
  }

  predicate Means(pte: Word, m: Mapping) {
    match m
    case Unset => pte == 0
    case To(page, perm) => page < 0x8_0000 && perm < PGSIZE && pte == NewPte(page, perm)
  }

  lemma {:induction false} TablesTell(a: Memory, pages: set<nat>, ops: seq<Op>, d: nat, vpn: nat)
    requires Sane(a) && d in a.dirs && forall e :: e in a.dirs ==> a.dirs[e] == map[]
    ensures Means(PteOf(After(a, pages, ops).dirs[d], vpn), LastMapping(a.dirs.Keys, pages, ops, d, vpn))
  {
    hide Step, NewPte;
    if ops != [] {
      var n := |ops| - 1;
      TablesTell(a, pages, ops[..n], d, vpn);
      StepPte(After(a, pages, ops[..n]), pages, ops[n], d, vpn,
              LastMapping(a.dirs.Keys, pages, ops[..n], d, vpn));
    }
  }

  // What one operation does to one entry.
  lemma StepPte(b: Memory, pages: set<nat>, op: Op, d: nat, vpn: nat, m: Mapping)
    requires Sane(b) && d in b.dirs && Means(PteOf(b.dirs[d], vpn), m)
    ensures var pte := PteOf(Step(b, pages, op).dirs[d], vpn);
            if op.InsertOp? && Flushes(b.dirs.Keys, pages, op) && op.d == d && op.va / PGSIZE == vpn then
              Means(pte, To(op.page, op.perm))
            else if op.RemoveOp? && Flushes(b.dirs.Keys, pages, op) && op.d == d && op.va / PGSIZE == vpn then pte == 0
            else Means(pte, m)
  {
    if m.To? {
      MadePte(m.page, m.perm);
    }
    hide MakePte, Handled, Unmapped, FrameNo, PteAddr, Writable, UserBit;
  }

  /**
    What handle_tlbmiss does, after any operations from the start: a page fault exactly for a page that was never mapped
    or has been removed, a refusal exactly for a user access that the permission of the last mapping does not allow, and
    a refill otherwise.
   */
  lemma MissExactly(a: Memory, pages: set<nat>, ops: seq<Op>, va: Word, write: bool, inKernel: bool)
    requires Sane(a) && forall e :: e in a.dirs ==> a.dirs[e] == map[]
    ensures var b := After(a, pages, ops);
            var last := LastMapping(a.dirs.Keys, pages, ops, b.current, va / PGSIZE);
            Handled(PteOf(b.dirs[b.current], va / PGSIZE), write, inKernel) ==
              if last.Unset? then Fault else if inKernel || MayUse(last.perm, write) then Refilled else Denied
  {
    hide Step, After, LastMapping, MakePte, Present, Writable, UserBit, FrameNo, PteAddr;
    var b := After(a, pages, ops);
    TablesTell(a, pages, ops, b.current, va / PGSIZE);
    var last := LastMapping(a.dirs.Keys, pages, ops, b.current, va / PGSIZE);
    if last.To? {
      MadePte(last.page, last.perm);
      NotZero(NewPte(last.page, last.perm));
    }
  }

  lemma TargetIs(d: Directory, va: Word, page: nat, perm: nat)
    requires page < 0x8_0000 && perm < PGSIZE && PteOf(d, va / PGSIZE) == MakePte(page, perm)
    ensures Target(d, va) == page * PGSIZE + va % PGSIZE
  {
    hide MakePte, PteOf;
    MadePte(page, perm);
  }
}
