/**
  The page allocator as its callers see it: sets of page numbers.  alloc_pages
  takes a run of free pages out of one zone, free_pages puts one back.
 */
module BuddyPages {
  import opened Options
  import opened Bits
  import opened BuddyBlocks
  import opened BuddyTables
  import opened BuddyPmm

  predicate PageInRun(g: nat, a: nat, n: nat) {
    a <= g < a + n
  }

  ghost function PageSet(a: nat, n: nat): set<nat> {
    set g: nat | g < a + n && PageInRun(g, a, n)
  }

  ghost predicate IsFree(v: View, p: nat)
    requires Ok(v)
  {
    Managed(v, p) && FrameOf(v, p) in Held(v.blocks)
  }

  ghost function FreePageSet(v: View): set<nat>
    requires Ok(v)
  {
    set p: nat | p < |v.pages| && IsFree(v, p)
  }

  // The n pages from a lie in one zone.
  ghost predicate Zoned(v: View, a: nat, n: nat)
    requires Ok(v)
  {
    Managed(v, a) && FrameOf(v, a).idx + n <= v.sizes[FrameOf(v, a).zone]
  }

  // The same pages in the same zones.
  ghost predicate SameZones(v: View, w: View) {
    SamePlace(v.pages, w.pages) && w.memBase == v.memBase && w.sizes == v.sizes
  }

  lemma SameFrames(v: View, w: View, p: nat)
    requires Ok(v) && Ok(w) && SameZones(v, w)
    ensures Managed(w, p) == Managed(v, p) && (Managed(v, p) ==> FrameOf(w, p) == FrameOf(v, p))
  {
    hide ListsOk, BlocksLinked, Canonical, Held;
  }

  lemma SameZoned(v: View, w: View, a: nat, n: nat)
    requires Ok(v) && Ok(w) && SameZones(v, w)
    ensures Zoned(w, a, n) == Zoned(v, a, n)
  {
    SameFrames(v, w, a);
    hide Ok, SamePlace;
  }

  // Page numbers and frames of a run correspond.
  lemma RunPages(v: View, a: nat, n: nat, g: nat)
    requires Ok(v) && Zoned(v, a, n)
    ensures var f := FrameOf(v, a);
            PageInRun(g, a, n) <==> Managed(v, g) && InRun(f.zone, f.idx, n, FrameOf(v, g))
  {
    hide ListsOk, BlocksLinked, Canonical, Held;
    var f := FrameOf(v, a);
    PagesAreFrames(v, a, f);
    PagesAreFrames(v, g, f);
    if PageInRun(g, a, n) {
      PagesAreFrames(v, g, Frame(f.zone, f.idx + (g - a)));
    }
  }

  ghost function FramesAt(v: View, a: nat, n: nat): set<Frame>
    requires Ok(v) && Zoned(v, a, n)
  {
    Run(FrameOf(v, a).zone, FrameOf(v, a).idx, n)
  }

  lemma RunPage(v: View, w: View, a: nat, n: nat, g: nat)
    requires Ok(v) && Ok(w) && SameZones(v, w) && Zoned(v, a, n)
    ensures PageInRun(g, a, n) <==> Managed(v, g) && FrameOf(v, g) in FramesAt(v, a, n)
    ensures Managed(w, g) == Managed(v, g) && (Managed(v, g) ==> FrameOf(w, g) == FrameOf(v, g))
  {
    SameFrames(v, w, g);
    RunPages(v, a, n, g);
    RunMembers(FrameOf(v, a).zone, FrameOf(v, a).idx, n);
    hide Ok, Run, SamePlace;
  }

  lemma TakenPages(v: View, w: View, a: nat, n: nat)
    requires Ok(v) && Ok(w) && SameZones(v, w) && Zoned(v, a, n) && FramesAt(v, a, n) <= Held(v.blocks)
    requires Held(w.blocks) == Held(v.blocks) - FramesAt(v, a, n)
    ensures PageSet(a, n) <= FreePageSet(v) && FreePageSet(w) == FreePageSet(v) - PageSet(a, n)
  {
    hide Ok, SamePlace, FramesAt, Held;
    forall g: nat
      ensures PageInRun(g, a, n) ==> g < |v.pages| && IsFree(v, g)
      ensures g in FreePageSet(w) <==> g in FreePageSet(v) && g !in PageSet(a, n)
    {
      RunPage(v, w, a, n, g);
    }
  }

  lemma GivenPages(v: View, w: View, a: nat, n: nat)
    requires Ok(v) && Ok(w) && SameZones(v, w) && Zoned(v, a, n)
    requires Held(w.blocks) == Held(v.blocks) + FramesAt(v, a, n)
    ensures FreePageSet(w) == FreePageSet(v) + PageSet(a, n)
  {
    hide Ok, SamePlace, FramesAt, Held;
    forall g: nat ensures g in FreePageSet(w) <==> g in FreePageSet(v) || g in PageSet(a, n) {
      RunPage(v, w, a, n, g);
    }
  }

  // Pages that are not free have frames that are not free.
  lemma ApartFromFree(v: View, a: nat, n: nat)
    requires Ok(v) && Zoned(v, a, n) && PageSet(a, n) !! FreePageSet(v)
    ensures FramesAt(v, a, n) !! Held(v.blocks)
  {
    hide ListsOk, ZonesOk, BlocksLinked, Canonical, Held, SamePlace;
    PagesAreFrames(v, a, FrameOf(v, a));
    forall f | f in FramesAt(v, a, n) ensures f !in Held(v.blocks) {
      RunMembers(FrameOf(v, a).zone, FrameOf(v, a).idx, n);
      var g := PageOfFrame(v, f);
      RunPages(v, a, n, g);
      assert g in PageSet(a, n) && g < |v.pages|;
    }
  }

  lemma PageOfFrame(v: View, f: Frame) returns (g: nat)
    requires Ok(v) && InZone(v.sizes, f)
    ensures Managed(v, g) && FrameOf(v, g) == f
  {
    g := PageNo(v.memBase, f);
    PagesAreFrames(v, g, f);
  }

  /** The free pages determine the free blocks. */
  lemma SamePagesSameBlocks(v: View, w: View)
    requires Ok(v) && Ok(w) && SameZones(v, w) && FreePageSet(v) == FreePageSet(w)
    ensures w.blocks == v.blocks
  {
    forall f ensures f in Held(v.blocks) <==> f in Held(w.blocks) {
      SameHeld(v, w, f);
    }
    assert Held(v.blocks) == Held(w.blocks);
    CanonicalFormIsUnique(v.sizes, v.blocks, w.blocks);
  }

  lemma SameHeld(v: View, w: View, f: Frame)
    requires Ok(v) && Ok(w) && SameZones(v, w) && FreePageSet(v) == FreePageSet(w)
    ensures f in Held(v.blocks) <==> f in Held(w.blocks)
  {
    if f in Held(v.blocks) {
      HeldInZone(v, f);
    }
    if f in Held(w.blocks) {
      HeldInZone(w, f);
    }
    hide Ok, Held, SamePlace;
    if InZone(v.sizes, f) {
      var g := PageOfFrame(v, f);
      SameFrames(v, w, g);
      assert g in FreePageSet(v) <==> IsFree(v, g);
      assert g in FreePageSet(w) <==> IsFree(w, g);
    }
  }

  // No free block of the order that n pages need, or larger.
  ghost predicate NoRoom(v: View, n: nat)
    requires Ok(v)
  {
    0 < n <= Pow2(MAX_ORDER) && FirstArea(v.areas, OrderFor(n)) > MAX_ORDER
  }

  lemma {:induction false} PageSetSize(a: nat, n: nat)
    ensures |PageSet(a, n)| == n
    decreases n
  {
    if n == 0 {
      assert PageSet(a, 0) == {};
    } else {
      PageSetSize(a, n - 1);
      assert PageSet(a, n) == PageSet(a, n - 1) + {a + n - 1};
    }
  }

  /** There is no room for one page exactly when no page is free. */
  lemma NoRoomForOne(v: View)
    requires Ok(v)
    ensures NoRoom(v, 1) <==> FreePageSet(v) == {}
  {
    NoPageLeft(v);
    hide ListsOk, ZonesOk, BlocksLinked, Canonical, FreeCount, Held, FirstArea, OrderFrom;
    assert 1 <= Pow2(MAX_ORDER);
    if f :| f in Held(v.blocks) {
      HeldInZone(v, f);
      var g := PageOfFrame(v, f);
      assert g in FreePageSet(v);
    }
  }

  // alloc_pages
  method GetPages(pmm: BuddyManager, n: nat) returns (r: Option<nat>)
    requires pmm.Valid() && 0 < n <= Pow2(MAX_ORDER)
    modifies pmm`blocks, pmm.pages, pmm.freeArea
    ensures pmm.Valid() && SameZones(old(pmm.Tables()), pmm.Tables())
    ensures r.None? <==> old(NoRoom(pmm.Tables(), n))
    ensures r.None? ==> pmm.Tables() == old(pmm.Tables())
    ensures r.Some? ==>
              && Zoned(pmm.Tables(), r.value, n) && PageSet(r.value, n) <= old(FreePageSet(pmm.Tables()))
              && FreePageSet(pmm.Tables()) == old(FreePageSet(pmm.Tables())) - PageSet(r.value, n)
  {
    hide Ok, Held, Run, FirstArea, OrderFrom, Pow2, SamePlace, RefsCleared;
    ghost var v := pmm.Tables();
    var got := pmm.AllocPages(n);
    if !got.Allocated? {
      return None;
    }
    SameZoned(v, pmm.Tables(), got.page, n);
    SameFrames(v, pmm.Tables(), got.page);
    TakenPages(v, pmm.Tables(), got.page, n);
    r := Some(got.page);
  }

  // free_pages
  method PutPages(pmm: BuddyManager, a: nat, n: nat)
    requires pmm.Valid() && 0 < n <= Pow2(MAX_ORDER) && Zoned(pmm.Tables(), a, n)
    requires PageSet(a, n) !! FreePageSet(pmm.Tables())
    modifies pmm`blocks, pmm.pages, pmm.freeArea
    ensures pmm.Valid() && SameZones(old(pmm.Tables()), pmm.Tables())
    ensures FreePageSet(pmm.Tables()) == old(FreePageSet(pmm.Tables())) + PageSet(a, n)
  {
    hide ListsOk, ZonesOk, BlocksLinked, Canonical, Held, Run, SamePlace, RefsCleared, HoldsBigRun;
    ghost var v := pmm.Tables();
    ApartFromFree(v, a, n);
    TooShort(FrameOf(v, a).idx, n);
    var panicked := pmm.FreePages(a, n);
    assert !panicked;
    GivenPages(v, pmm.Tables(), a, n);
  }
}
