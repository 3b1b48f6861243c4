/**
  The address space of ucore/kern/mm/vmm.c: a sorted list of disjoint areas with
  a one-entry cache.
 */
module Vmas {
  import opened Options
  import opened Paging

  const USERBASE: nat := 0x1000_0000
  const USERTOP: nat := 0x8000_0000
  const LIMIT: nat := 0x1_0000_0000

  datatype VmFlags = VmFlags(read: bool, write: bool, exec: bool, stack: bool)

  datatype Vma = Vma(start: nat, end: nat, flags: VmFlags)

  datatype Result = Mapped | Invalid | NoMem

  // Non-empty user areas, in order, that do not overlap.
  predicate Sorted(list: seq<Vma>) {
    && (forall i :: 0 <= i < |list| ==> list[i].start < list[i].end <= USERTOP)
    && (forall i, j :: 0 <= i < j < |list| ==> list[i].end <= list[j].start)
  }

  // The first area that ends after addr.
  function Find(list: seq<Vma>, addr: nat): Option<Vma> {
    if list == [] then None else if addr < list[0].end then Some(list[0]) else Find(list[1..], addr)
  }

  lemma {:induction false} FindAt(list: seq<Vma>, addr: nat, k: nat)
    requires k <= |list| && (forall i :: 0 <= i < k ==> list[i].end <= addr) && (k < |list| ==> addr < list[k].end)
    ensures Find(list, addr) == if k < |list| then Some(list[k]) else None
    decreases |list|
  {
    if k > 0 {
      assert k < |list| ==> list[1..][k - 1] == list[k];
      FindAt(list[1..], addr, k - 1);
    }
  }

  // An area that holds addr is the one the search finds: the cache cannot mislead it.
  lemma HolderIsFound(list: seq<Vma>, v: Vma, addr: nat)
    requires Sorted(list) && v in list && v.start <= addr < v.end
    ensures Find(list, addr) == Some(v)
  {
    var k :| 0 <= k < |list| && list[k] == v;
    FindAt(list, addr, k);
  }

  lemma InUserRange(list: seq<Vma>, v: Vma)
    requires Sorted(list) && v in list
    ensures v.start < v.end <= USERTOP
  {}

  predicate Overlap(v: Vma, start: nat, end: nat) {
    v.start < end && start < v.end
  }

  function RoundDown(a: nat): nat {
    a / PGSIZE * PGSIZE
  }

  // Rounding up in 32 bits.
  function RoundUp(a: nat): nat {
    RoundDown((a + PGSIZE - 1) % LIMIT)
  }

  predicate UserAccess(start: nat, end: nat) {
    USERBASE <= start < end <= USERTOP
  }

  function MapStart(addr: nat): nat { RoundDown(addr) }
  function MapEnd(addr: nat, len: nat): nat { RoundUp((addr + len) % LIMIT) }

  // Page p has a byte of the range, or addr lies inside it.
  predicate Touches(addr: nat, len: nat, p: nat) {
    p * PGSIZE < addr + len && addr < (p + 1) * PGSIZE
  }

  // All pages of the range are user pages, and there is one.
  ghost predicate UserPages(addr: nat, len: nat) {
    && (exists p: nat :: Touches(addr, len, p))
    && forall p: nat :: Touches(addr, len, p) ==> USERBASE <= p * PGSIZE && (p + 1) * PGSIZE <= USERTOP
  }

  // Some page of the range meets an area.
  ghost predicate MeetsArea(list: seq<Vma>, addr: nat, len: nat) {
    exists v, p: nat :: v in list && Touches(addr, len, p) && Overlap(v, p * PGSIZE, (p + 1) * PGSIZE)
  }

  lemma RoundedDown(a: nat)
    ensures RoundDown(a) <= a < RoundDown(a) + PGSIZE && RoundDown(a) % PGSIZE == 0
  {}

  // The limits of an area that can be mapped, without a carry out of 32 bits: the pages around the range.
  lemma MapLimits(addr: nat, len: nat)
    requires addr + len + PGSIZE - 1 < LIMIT
    ensures var start, end := MapStart(addr), MapEnd(addr, len);
            && start % PGSIZE == 0 && end % PGSIZE == 0 && start <= addr < start + PGSIZE
            && end - PGSIZE < addr + len <= end
  {
    RoundedDown(addr);
    RoundedDown(addr + len + PGSIZE - 1);
    hide RoundDown;
  }

  // A range for which the limits make a user area has no carry, unless addr + len itself has one.
  lemma NoCarry(addr: nat, len: nat)
    requires addr < LIMIT && len < LIMIT && UserAccess(MapStart(addr), MapEnd(addr, len)) && addr + len < LIMIT
    ensures addr + len + PGSIZE - 1 < LIMIT
  {}

  // The pages of a range are those between its rounded limits.
  lemma PagesBetween(addr: nat, len: nat, p: nat)
    requires addr + len + PGSIZE - 1 < LIMIT
    ensures Touches(addr, len, p) <==> MapStart(addr) <= p * PGSIZE < MapEnd(addr, len)
  {
    MapLimits(addr, len);
    hide MapStart, MapEnd;
    var start, end := MapStart(addr), MapEnd(addr, len);
    Multiples(start, p);
    Multiples(end, p);
  }

  lemma Multiples(a: nat, p: nat)
    requires a % PGSIZE == 0
    ensures a < (p + 1) * PGSIZE <==> a <= p * PGSIZE
    ensures p * PGSIZE < a <==> (p + 1) * PGSIZE <= a
  {
    assert a == a / PGSIZE * PGSIZE;
  }

  /** The test of mm_map on the rounded limits, said of the pages that the range touches. */
  lemma UserPagesExactly(addr: nat, len: nat)
    requires addr + len + PGSIZE - 1 < LIMIT
    ensures UserAccess(MapStart(addr), MapEnd(addr, len)) <==> UserPages(addr, len)
  {
    hide MapStart, MapEnd;
    MapLimits(addr, len);
    var start, end := MapStart(addr), MapEnd(addr, len);
    forall p: nat ensures Touches(addr, len, p) <==> start <= p * PGSIZE < end {
      PagesBetween(addr, len, p);
    }
    var first, last := start / PGSIZE, end / PGSIZE - 1;
    assert start == first * PGSIZE && end == (last + 1) * PGSIZE;
    hide Touches;
    if start < end {
      assert Touches(addr, len, first);
      assert last >= 0;
      assert Touches(addr, len, last);
    }
    if UserAccess(start, end) {
      forall p: nat | Touches(addr, len, p) ensures USERBASE <= p * PGSIZE && (p + 1) * PGSIZE <= USERTOP {
        Multiples(end, p);
      }
    }
  }

  lemma MeetsExactly(list: seq<Vma>, addr: nat, len: nat)
    requires Sorted(list) && addr + len + PGSIZE - 1 < LIMIT && MapStart(addr) < MapEnd(addr, len)
    ensures (exists v :: v in list && Overlap(v, MapStart(addr), MapEnd(addr, len))) <==> MeetsArea(list, addr, len)
  {
    hide MapStart, MapEnd, Sorted;
    MapLimits(addr, len);
    var start, end := MapStart(addr), MapEnd(addr, len);
    if v :| v in list && Overlap(v, start, end) {
      InUserRange(list, v);
      SharedPage(list, v, addr, len);
    }
    if v, p: nat :| v in list && Touches(addr, len, p) && Overlap(v, p * PGSIZE, (p + 1) * PGSIZE) {
      PagesBetween(addr, len, p);
      Multiples(end, p);
      assert Overlap(v, start, end);
    }
  }

  lemma SharedPage(list: seq<Vma>, v: Vma, addr: nat, len: nat)
    requires v in list && addr + len + PGSIZE - 1 < LIMIT && v.start < v.end
    requires Overlap(v, MapStart(addr), MapEnd(addr, len)) && MapStart(addr) < MapEnd(addr, len)
    ensures MeetsArea(list, addr, len)
  {
    hide MapStart, MapEnd;
    MapLimits(addr, len);
    var start, end := MapStart(addr), MapEnd(addr, len);
    var a := if v.start < start then start else v.start;
    var p := a / PGSIZE;
    assert p * PGSIZE <= a < (p + 1) * PGSIZE;
    Multiples(start, p);
    PagesBetween(addr, len, p);
    assert Touches(addr, len, p) && Overlap(v, p * PGSIZE, (p + 1) * PGSIZE);
  }

  // What user_mem_check asks of one byte.
  predicate Permits(v: Vma, a: nat, write: bool) {
    && v.start <= a < v.end && (if write then v.flags.write else v.flags.read)
    && (write && v.flags.stack ==> a >= v.start + PGSIZE)
  }

  ghost predicate ByteOk(list: seq<Vma>, a: nat, write: bool) {
    exists v :: v in list && Permits(v, a, write)
  }

  // Only the area found can hold a byte.
  lemma OnlyFound(list: seq<Vma>, a: nat, write: bool)
    requires Sorted(list)
    ensures ByteOk(list, a, write) <==> Find(list, a).Some? && Permits(Find(list, a).value, a, write)
    ensures Find(list, a).Some? ==> Find(list, a).value in list
  {
    FoundInList(list, a);
    if v :| v in list && Permits(v, a, write) {
      HolderIsFound(list, v, a);
    }
  }

  lemma {:induction false} FoundInList(list: seq<Vma>, a: nat)
    ensures Find(list, a).Some? ==> Find(list, a).value in list && a < Find(list, a).value.end
    decreases |list|
  {
    if list != [] {
      FoundInList(list[1..], a);
    }
  }

  class Mm {
    var list: seq<Vma>
    var cache: Option<Vma>
    var mapCount: nat

    constructor ()
      ensures Ok() && list == []
    {
      list, cache, mapCount := [], None, 0;
    }

    // The cache, if set, names an area of the list.
    predicate Ok()
      reads this
    {
      Sorted(list) && mapCount == |list| && (cache.Some? ==> cache.value in list)
    }

    // The cached search gives what the search without a cache would.
    method FindVma(addr: nat) returns (r: Option<Vma>)
      requires Ok()
      modifies `cache
      ensures Ok() && r == Find(list, addr)
    {
      r := cache;
      if r.Some? && r.value.start <= addr < r.value.end {
        HolderIsFound(list, r.value, addr);
      } else {
        r := None;
        var i := 0;
        while i < |list|
          invariant i <= |list| && r == None && forall j :: 0 <= j < i ==> list[j].end <= addr
        {
          if addr < list[i].end {
            r := Some(list[i]);
            break;
          }
          i := i + 1;
        }
        FindAt(list, addr, i);
      }
      if r.Some? {
        FoundInList(list, addr);
        cache := r;
      }
    }

    // insert_vma_struct, for an area that overlaps none: the three checks against its neighbours hold.
    method InsertVma(v: Vma)
      requires Ok() && v.start < v.end <= USERTOP && forall i :: 0 <= i < |list| ==> !Overlap(list[i], v.start, v.end)
      modifies `list, `mapCount
      ensures Ok() && exists k :: 0 <= k <= old(|list|) && list == old(list)[..k] + [v] + old(list)[k..]
    {
      var k := 0;
      while k < |list| && list[k].start <= v.start
        invariant k <= |list| && forall j :: 0 <= j < k ==> list[j].start <= v.start
      {
        k := k + 1;
      }
      if k > 0 {
        assert !Overlap(list[k - 1], v.start, v.end);
        assert list[k - 1].start < list[k - 1].end <= v.start < v.end;
      }
      if k < |list| {
        assert !Overlap(list[k], v.start, v.end);
        assert v.start < v.end <= list[k].start < list[k].end;
      }
      InsertSorted(list, v, k);
      list := list[..k] + [v] + list[k..];
      mapCount := mapCount + 1;
      assert list == old(list)[..k] + [v] + old(list)[k..];
    }

    // mm_map; memory tells whether vma_create gets its memory.
    method MmMap(addr: nat, len: nat, flags: VmFlags, memory: bool) returns (r: Result)
      requires Ok() && addr < LIMIT && len < LIMIT
      modifies this
      ensures Ok()
      ensures var start, end := MapStart(addr), MapEnd(addr, len);
              && (r == Invalid <==> !UserAccess(start, end) || exists v :: v in old(list) && Overlap(v, start, end))
              && (r == NoMem ==> !memory) && (r == Mapped ==> memory)
              && (r == Mapped ==>
                    exists k ::
                      0 <= k <= old(|list|) && list == old(list)[..k] + [Vma(start, end, flags)] + old(list)[k..])
      ensures r != Mapped ==> list == old(list)
      ensures addr + len + PGSIZE - 1 < LIMIT ==>
                (r == Invalid <==> !UserPages(addr, len) || MeetsArea(old(list), addr, len))
      ensures r == Mapped ==>
                exists v :: v in list && Around(v, addr, len) && v.flags == flags
    {
      var start, end := MapStart(addr), MapEnd(addr, len);
      Explain(list, addr, len);
      if !UserAccess(start, end) {
        return Invalid;
      }
      var v := FindVma(start);
      NoneOverlaps(list, start, end);
      if v.Some? && end > v.value.start {
        FoundInList(list, start);
        return Invalid;
      }
      if !memory {
        return NoMem;
      }
      InsertVma(Vma(start, end, flags));
      r := Mapped;
    }

    // user_mem_check on a user address space: the byte by byte condition, decided area by area.
    method UserMemCheck(addr: nat, len: nat, write: bool) returns (ok: bool)
      requires Ok() && addr < LIMIT && len < LIMIT
      modifies `cache
      ensures Ok()
      ensures ok <==>
                && UserAccess(addr, (addr + len) % LIMIT)
                && forall a :: addr <= a < addr + len ==> ByteOk(list, a, write)
    {
      var end := (addr + len) % LIMIT;
      if !UserAccess(addr, end) {
        return false;
      }
      var start := addr;
      while start < end
        invariant addr <= start && Ok() && forall a :: addr <= a < start && a < end ==> ByteOk(list, a, write)
        decreases end - start
      {
        var v := FindVma(start);
        OnlyFound(list, start, write);
        if v.None? || start < v.value.start {
          return false;
        }
        if !(if write then v.value.flags.write else v.value.flags.read) {
          return false;
        }
        if write && v.value.flags.stack && start < v.value.start + PGSIZE {
          return false;
        }
        FoundInList(list, start);
        forall a | start <= a < v.value.end ensures ByteOk(list, a, write) {
          assert Permits(v.value, a, write);
        }
        start := v.value.end;
      }
      ok := true;
    }
  }

  // An area made for a range: whole user pages, and exactly those of the range unless it runs past the address space.
  predicate Around(v: Vma, addr: nat, len: nat) {
    && v.start % PGSIZE == 0 && v.end % PGSIZE == 0 && v.start <= addr < v.start + PGSIZE
    && UserAccess(v.start, v.end)
    && (addr + len < LIMIT ==> v.end - PGSIZE < addr + len <= v.end)
    && (addr + len >= LIMIT ==> v.end == v.start + PGSIZE)
  }

  /** An area made for a range covers it exactly if the range stays inside the address space. */
  lemma CoversExactly(v: Vma, addr: nat, len: nat)
    requires Around(v, addr, len)
    ensures v.start <= addr && addr + len <= v.end <==> addr + len < LIMIT
  {}

  // The conditions of mm_map in terms of the range.
  lemma Explain(list: seq<Vma>, addr: nat, len: nat)
    requires Sorted(list) && addr < LIMIT && len < LIMIT
    ensures var start, end := MapStart(addr), MapEnd(addr, len);
            && (addr + len + PGSIZE - 1 < LIMIT ==>
                  && (UserAccess(start, end) <==> UserPages(addr, len))
                  && (start < end ==>
                        ((exists v :: v in list && Overlap(v, start, end)) <==> MeetsArea(list, addr, len))))
            && (UserAccess(start, end) ==> forall flags :: Around(Vma(start, end, flags), addr, len))
  {
    hide MapStart, MapEnd;
    var start, end := MapStart(addr), MapEnd(addr, len);
    if addr + len + PGSIZE - 1 < LIMIT {
      UserPagesExactly(addr, len);
      if start < end {
        MeetsExactly(list, addr, len);
      }
    }
    if UserAccess(start, end) {
      if addr + len < LIMIT {
        NoCarry(addr, len);
        MapLimits(addr, len);
      } else {
        Carried(addr, len);
      }
    }
  }

  // A range that runs past the address space passes for one page exactly if it ends in the page where it begins, behind
  // the first byte of that page.
  lemma Carried(addr: nat, len: nat)
    requires addr < LIMIT && len < LIMIT && addr + len >= LIMIT
    ensures var start, end, e := MapStart(addr), MapEnd(addr, len), addr + len - LIMIT;
            && (UserAccess(start, end) <==>
                  USERBASE <= addr < USERTOP && e / PGSIZE == addr / PGSIZE && e % PGSIZE != 0)
            && (UserAccess(start, end) ==>
                  end == start + PGSIZE && start % PGSIZE == 0 && end % PGSIZE == 0 && start <= addr < start + PGSIZE)
  {
    var e := addr + len - LIMIT;
    assert e < addr && (addr + len) % LIMIT == e;
    RoundedDown(addr);
    if e + PGSIZE - 1 < LIMIT {
      RoundedDown(e + PGSIZE - 1);
      assert MapEnd(addr, len) == RoundDown(e + PGSIZE - 1);
      UpToNext(e);
      var start, end := MapStart(addr), MapEnd(addr, len);
      assert end <= e + PGSIZE - 1 < start + 2 * PGSIZE;
      if start < end {
        Between(start, end);
      }
    } else {
      assert MapEnd(addr, len) == 0;
    }
  }

  lemma UpToNext(e: nat)
    ensures RoundDown(e + PGSIZE - 1) == if e % PGSIZE == 0 then e else (e / PGSIZE + 1) * PGSIZE
  {}

  lemma Between(start: nat, end: nat)
    requires start % PGSIZE == 0 && end % PGSIZE == 0 && start < end < start + 2 * PGSIZE
    ensures end == start + PGSIZE
  {}

  lemma InsertSorted(list: seq<Vma>, v: Vma, k: nat)
    requires Sorted(list) && v.start < v.end <= USERTOP && k <= |list|
    requires k > 0 ==> list[k - 1].end <= v.start
    requires k < |list| ==> v.end <= list[k].start
    ensures Sorted(list[..k] + [v] + list[k..])
  {
    forall i | 0 <= i < k ensures list[i].end <= v.start {
      if i < k - 1 {
        assert list[i].end <= list[k - 1].start;
      }
    }
    forall i | k <= i < |list| ensures v.end <= list[i].start {
      if i > k {
        assert list[k].end <= list[i].start;
      }
    }
    InsertBetween(list, v, k);
  }

  lemma InsertBetween(list: seq<Vma>, v: Vma, k: nat)
    requires Sorted(list) && v.start < v.end <= USERTOP && k <= |list|
    requires forall i :: 0 <= i < k ==> list[i].end <= v.start
    requires forall i :: k <= i < |list| ==> v.end <= list[i].start
    ensures Sorted(list[..k] + [v] + list[k..])
  {
    var s := list[..k] + [v] + list[k..];
    forall i | 0 <= i < |s| ensures s[i] == if i < k then list[i] else if i == k then v else list[i - 1] {}
  }

  // A range overlaps some area exactly if it reaches into the first one that ends after its start.
  lemma NoneOverlaps(list: seq<Vma>, start: nat, end: nat)
    requires Sorted(list) && start < end
    ensures (exists v :: v in list && Overlap(v, start, end)) <==>
              Find(list, start).Some? && end > Find(list, start).value.start
  {
    FoundInList(list, start);
    if v :| v in list && Overlap(v, start, end) {
      FirstStartsLower(list, v, start);
    }
  }

  lemma {:induction false} FirstStartsLower(list: seq<Vma>, v: Vma, addr: nat)
    requires Sorted(list) && v in list && addr < v.end
    ensures Find(list, addr).Some? && Find(list, addr).value.start <= v.start
    decreases |list|
  {
    if addr >= list[0].end {
      FirstStartsLower(list[1..], v, addr);
    } else if v != list[0] {
      var k :| 0 < k < |list| && list[k] == v;
    }
  }

  // ---- mapping and then checking

  // Of the bytes of an area, the area alone decides.
  lemma AreaDecides(list: seq<Vma>, v: Vma, a: nat, write: bool)
    requires Sorted(list) && v in list && v.start <= a < v.end
    ensures ByteOk(list, a, write) <==> Permits(v, a, write)
  {
    HolderIsFound(list, v, a);
    OnlyFound(list, a, write);
  }

  /**
    After mm_map a check of any part of the range succeeds exactly if the flags allow the access and a write to a stack
    stays out of its first page.
   */
  method MapThenCheck(mm: Mm, addr: nat, len: nat, flags: VmFlags, a: nat, n: nat, write: bool)
    returns (r: Result, ok: bool)
    requires mm.Ok() && addr + len < LIMIT && 0 < n && addr <= a && a + n <= addr + len
    modifies mm
    ensures mm.Ok()
    ensures r == Mapped ==>
              (ok <==> (if write then flags.write else flags.read)
                       && (write && flags.stack ==> a / PGSIZE > addr / PGSIZE))
  {
    hide Sorted, MapStart, MapEnd, UserPages, MeetsArea, ByteOk;
    r := mm.MmMap(addr, len, flags, true);
    ok := false;
    if r == Mapped {
      ghost var v :| v in mm.list && Around(v, addr, len) && v.flags == flags;
      InUserRange(mm.list, v);
      ok := mm.UserMemCheck(a, n, write);
      PartOk(mm.list, v, addr, a, n, write);
    }
  }

  lemma PartOk(list: seq<Vma>, v: Vma, addr: nat, a: nat, n: nat, write: bool)
    requires Sorted(list) && v in list && v.start % PGSIZE == 0 && v.start <= addr < v.start + PGSIZE
    requires 0 < n && addr <= a && a + n <= v.end
    ensures (forall x :: a <= x < a + n ==> ByteOk(list, x, write)) <==>
              (if write then v.flags.write else v.flags.read)
              && (write && v.flags.stack ==> a / PGSIZE > addr / PGSIZE)
  {
    forall x | a <= x < a + n ensures ByteOk(list, x, write) <==> Permits(v, x, write) {
      AreaDecides(list, v, x, write);
    }
    hide ByteOk, Sorted;
    var p := v.start / PGSIZE;
    assert v.start == p * PGSIZE && addr / PGSIZE == p;
    assert a / PGSIZE > p <==> a >= v.start + PGSIZE;
    assert Permits(v, a, write) ==> forall x :: a <= x < a + n ==> Permits(v, x, write);
  }

  // A range of nearly 4 GB that wraps around into the page where it begins is mapped, as one page.
  method MapAroundTheWorld() returns (mm: Mm, r: Result)
    ensures fresh(mm) && r == Mapped
    ensures exists v :: v in mm.list && v.start == 0x1000_0000 && v.end == 0x1000_1000
  {
    mm := new Mm();
    var flags := VmFlags(true, true, false, false);
    assert MapStart(0x1000_0800) == 0x1000_0000 && MapEnd(0x1000_0800, 0xFFFF_FF00) == 0x1000_1000;
    r := mm.MmMap(0x1000_0800, 0xFFFF_FF00, flags, true);
  }
}
