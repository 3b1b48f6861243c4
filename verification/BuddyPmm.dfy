/**
  The buddy allocator of ucore/kern/mm/buddy_pmm.c, updating its page array and
  free areas in place.
 */
module BuddyPmm {
  import opened Options
  import opened Bits
  import opened Lists
  import opened BuddyBlocks
  import opened BuddyTables

  // What alloc_pages does: the getorder panic, a NULL page, or a page.
  datatype AllocResult = Panic | NoMemory | Allocated(page: nat)

  // The smallest order from `order` up whose list is not empty, or MAX_ORDER + 1.
  function FirstArea(fa: seq<FreeArea>, order: nat): (k: nat)
    requires |fa| == MAX_ORDER + 1 && order <= MAX_ORDER + 1
    ensures order <= k <= MAX_ORDER + 1
    ensures forall o: nat :: order <= o < k ==> fa[o].freeList == []
    ensures k <= MAX_ORDER ==> fa[k].freeList != []
    decreases MAX_ORDER + 1 - order
  {
    if order == MAX_ORDER + 1 || fa[order].freeList != [] then order else FirstArea(fa, order + 1)
  }

  // A non-empty list gives a free aligned run of any smaller order.
  lemma FoundRunIsFree(v: View, k: nat, order: nat) returns (r: Block)
    requires Ok(v) && order <= k <= MAX_ORDER && v.areas[k].freeList != []
    ensures Fits(v.sizes, r) && r.order == order && Frames(r) <= Held(v.blocks)
  {
    var f := ListHead(v, k);
    var b := Block(f.zone, f.idx, k);
    BlockIsHeld(v.blocks, b);
    SubBlock(v.sizes, b, f, order);
    r := BlockAt(f, order);
  }

  // A free aligned run lies in a block of some list of its order or above.
  lemma FreeRunIsListed(v: View, r: Block) returns (o: nat)
    requires Ok(v) && Fits(v.sizes, r) && Frames(r) <= Held(v.blocks)
    ensures r.order <= o <= MAX_ORDER && v.areas[o].freeList != []
  {
    o := FullRunIsHeld(v.sizes, v.blocks, r);
    var b := BlockAt(Frame(r.zone, r.idx), o);
    assert b in v.blocks;
    HeadFacts(v, b);
    assert AreaOk(v.pages, v.areas[o], o) && Listed(v.pages, Head(v.memBase, b), o);
    assert Head(v.memBase, b) in v.areas[o].freeList;
  }

  /** The search through the lists fails exactly when no aligned run of 2^order frames is free. */
  lemma SearchIsComplete(v: View, order: nat)
    requires Ok(v) && order <= MAX_ORDER
    ensures FirstArea(v.areas, order) > MAX_ORDER <==>
            forall r :: Fits(v.sizes, r) && r.order == order ==> !(Frames(r) <= Held(v.blocks))
  {
    var k := FirstArea(v.areas, order);
    if k <= MAX_ORDER {
      var r := FoundRunIsFree(v, k, order);
    } else {
      forall r | Fits(v.sizes, r) && r.order == order
        ensures !(Frames(r) <= Held(v.blocks))
      {
        if Frames(r) <= Held(v.blocks) {
          var o := FreeRunIsListed(v, r);
        }
      }
    }
  }

  // A page on free list o heads a free block of order o.
  lemma ListedFrame(v: View, p: nat, o: nat) returns (f: Frame)
    requires Ok(v) && Listed(v.pages, p, o)
    ensures Managed(v, p) && f == FrameOf(v, p) && Block(f.zone, f.idx, o) in v.blocks
    ensures Head(v.memBase, Block(f.zone, f.idx, o)) == p && o <= MAX_ORDER && f.zone < |v.memBase|
  {
    f := FrameOf(v, p);
    PagesAreFrames(v, p, f);
  }

  lemma ListHead(v: View, o: nat) returns (f: Frame)
    requires Ok(v) && o < |v.areas| && v.areas[o].freeList != []
    ensures var p := v.areas[o].freeList[0];
            && Managed(v, p) && f == FrameOf(v, p) && Block(f.zone, f.idx, o) in v.blocks
            && Head(v.memBase, Block(f.zone, f.idx, o)) == p && f.zone < |v.memBase|
            && Remove(v.areas[o].freeList, p) == v.areas[o].freeList[1..]
  {
    assert AreaOk(v.pages, v.areas[o], o) && v.areas[o].freeList[0] in v.areas[o].freeList;
    f := ListedFrame(v, v.areas[o].freeList[0], o);
  }

  // A managed page that is not free heads no free block.
  lemma NotFreeNotMarked(v: View, f: Frame)
    requires Ok(v) && InZone(v.sizes, f) && f !in Held(v.blocks)
    ensures Managed(v, PageNo(v.memBase, f)) && !v.pages[PageNo(v.memBase, f)].property
  {
    PagesAreFrames(v, 0, f);
    var b := Block(f.zone, f.idx, v.pages[PageNo(v.memBase, f)].order);
    if b in v.blocks {
      BlockIsHeld(v.blocks, b);
    }
  }

  // Reference counts play no part in the tables.
  lemma RefsDoNotMatter(v: View, ps': seq<Page>)
    requires Ok(v) && |ps'| == |v.pages|
    requires forall p :: 0 <= p < |ps'| ==> ps'[p] == v.pages[p].(ref := ps'[p].ref)
    ensures Ok(v.(pages := ps'))
  {
    ZonesKept(v, ps');
    assert forall p: nat, o: nat :: Listed(ps', p, o) <==> Listed(v.pages, p, o);
    forall o: nat | o < |v.areas|
      ensures AreaOk(ps', v.areas[o], o)
    {
      assert AreaOk(v.pages, v.areas[o], o);
    }
  }

  // Pages keep their zone and their reserved flag.
  ghost predicate SamePlace(ps: seq<Page>, ps': seq<Page>) {
    |ps'| == |ps| && forall p :: 0 <= p < |ps| ==> ps'[p].reserved == ps[p].reserved && ps'[p].zoneNum == ps[p].zoneNum
  }

  // Pages keep everything but their block mark: the property flag and the order.
  ghost predicate SameButMarks(ps: seq<Page>, ps': seq<Page>) {
    |ps'| == |ps| && forall p :: 0 <= p < |ps| ==> ps'[p] == ps[p].(property := ps'[p].property, order := ps'[p].order)
  }

  // Exactly the n pages from `base` have their reference count cleared.
  ghost predicate RefsCleared(ps: seq<Page>, ps': seq<Page>, base: nat, n: nat) {
    |ps'| == |ps| && forall p :: 0 <= p < |ps| ==> ps'[p].ref == if base <= p < base + n then 0 else ps[p].ref
  }

  // The block of the given order whose first page is p.
  ghost function BlockFrom(v: View, p: nat, order: nat): Block
    requires Managed(v, p) && ZonesOk(v.pages, v.memBase, v.sizes)
  {
    Block(FrameOf(v, p).zone, FrameOf(v, p).idx, order)
  }

  // The pages of a block that is not free are managed, consecutive, and head no free block.
  lemma BlockPages(v: View, b: Block)
    requires Ok(v) && Fits(v.sizes, b) && Frames(b) !! Held(v.blocks)
    ensures Head(v.memBase, b) + Pow2(b.order) <= |v.pages|
    ensures forall q :: Head(v.memBase, b) <= q < Head(v.memBase, b) + Pow2(b.order) ==>
              !v.pages[q].reserved && !v.pages[q].property
  {
    var h := Head(v.memBase, b);
    RunMembers(b.zone, b.idx, Pow2(b.order));
    var last := Frame(b.zone, b.idx + Pow2(b.order) - 1);
    PagesAreFrames(v, 0, last);
    forall q | h <= q < h + Pow2(b.order)
      ensures !v.pages[q].reserved && !v.pages[q].property
    {
      var f := Frame(b.zone, b.idx + (q - h));
      assert f in Frames(b);
      NotFreeNotMarked(v, f);
    }
  }

  predicate BigAligned(a: nat) {
    Floor(a, MAX_ORDER + 1) == a
  }

  // The n indices from idx on contain an aligned run of twice the largest block size.
  ghost predicate HoldsBigRun(idx: nat, n: nat) {
    exists a: nat :: idx <= a && BigAligned(a) && a + Pow2(MAX_ORDER + 1) <= idx + n
  }

  // No aligned index of the largest alignment lies between idx and i.
  ghost predicate NoBigRunBefore(idx: nat, i: nat) {
    forall a: nat :: idx <= a && BigAligned(a) ==> i <= a
  }

  lemma BigRunAt(idx: nat, i: nat, n: nat)
    requires idx <= i && Floor(i, MAX_ORDER + 1) == i && i + Pow2(MAX_ORDER + 1) <= idx + n
    ensures HoldsBigRun(idx, n)
  {
    assert BigAligned(i);
  }

  // If bit `order` of an aligned index is set, the next aligned index is 2^order further.
  lemma SkipUnaligned(idx: nat, i: nat, order: nat)
    requires idx <= i && order <= MAX_ORDER && Floor(i, order) == i && Bit(i, order) == 1 && NoBigRunBefore(idx, i)
    ensures Floor(i + Pow2(order), order + 1) == i + Pow2(order) && NoBigRunBefore(idx, i + Pow2(order))
  {
    hide Floor;
    FloorStep(i, order);
    FloorNext(i, order);
    forall a: nat | idx <= a && BigAligned(a)
      ensures i + Pow2(order) <= a
    {
      FloorWeaken(a, order, MAX_ORDER + 1);
      FloorWeaken(a, order + 1, MAX_ORDER + 1);
      if a < i + Pow2(order) {
        FloorUnique(a, i, order);
      }
    }
  }

  lemma NoBigRun(idx: nat, i: nat, n: nat, order: nat)
    requires idx <= i && NoBigRunBefore(idx, i) && order <= MAX_ORDER + 1 && idx + n < i + Pow2(order)
    ensures !HoldsBigRun(idx, n)
  {
    Pow2Monotone(order, MAX_ORDER + 1);
  }

  lemma AlignedFurther(i: nat, order: nat)
    requires Floor(i, order) == i && Bit(i, order) != 1
    ensures Floor(i, order + 1) == i
  {
    XorPow2(i, order);
    FloorNext(i, order);
  }

  lemma FloorZero(i: nat)
    ensures Floor(i, 0) == i && NoBigRunBefore(i, i) && Pow2(0) == 1 && !HoldsBigRun(i, 1)
  {}

  lemma NothingRun(zone: nat, idx: nat)
    ensures Run(zone, idx, 0) == {}
  {}

  // `count` pages from `first`, which lie in one zone from index `idx` on.
  datatype PageRun = PageRun(zone: nat, idx: nat, first: nat, count: nat)

  // The smallest order from o on whose block size is at least n, or MAX_ORDER + 1.
  function OrderFrom(n: nat, o: nat): (r: nat)
    requires o <= MAX_ORDER + 1
    ensures o <= r <= MAX_ORDER + 1
    ensures r <= MAX_ORDER ==> n <= Pow2(r)
    ensures r > o ==> Pow2(r - 1) < n
    decreases MAX_ORDER + 1 - o
  {
    if o == MAX_ORDER + 1 || n <= Pow2(o) then o else OrderFrom(n, o + 1)
  }

  function OrderFor(n: nat): nat {
    OrderFrom(n, 0)
  }

  lemma OrderIsUnique(n: nat, o: nat)
    requires o <= MAX_ORDER && n <= Pow2(o) && (o > 0 ==> Pow2(o - 1) < n)
    ensures OrderFor(n) == o
  {
    var o' := OrderFor(n);
    if o' < o {
      Pow2Monotone(o', o - 1);
    } else if o < o' {
      Pow2Monotone(o, o' - 1);
    }
  }

  /** The search for one page fails exactly when nothing is free. */
  lemma NoPageLeft(v: View)
    requires Ok(v)
    ensures FirstArea(v.areas, OrderFor(1)) > MAX_ORDER <==> Held(v.blocks) == {}
  {
    hide Ok, Held, FirstArea;
    OrderIsUnique(1, 0);
    SearchIsComplete(v, 0);
    if f :| f in Held(v.blocks) {
      OneFrame(v, f);
    } else {
      forall r | Fits(v.sizes, r) && r.order == 0 ensures !(Frames(r) <= Held(v.blocks)) {
        RunMembers(r.zone, r.idx, 1);
        assert Frame(r.zone, r.idx) in Frames(r);
      }
    }
  }

  lemma HeldInZone(v: View, f: Frame)
    requires Ok(v) && f in Held(v.blocks)
    ensures InZone(v.sizes, f)
  {
    var b :| b in v.blocks && f in Frames(b);
    RunMembers(b.zone, b.idx, Pow2(b.order));
  }

  lemma OneFrame(v: View, f: Frame)
    requires Ok(v) && f in Held(v.blocks)
    ensures var b := Block(f.zone, f.idx, 0); Fits(v.sizes, b) && Frames(b) == {f} <= Held(v.blocks)
  {
    hide Ok, Held;
    HeldInZone(v, f);
    RunMembers(f.zone, f.idx, 1);
    assert Pow2(0) == 1;
  }

  lemma Unchanged(ps: seq<Page>, p: nat)
    ensures SamePlace(ps, ps) && RefsCleared(ps, ps, p, 0)
  {}

  lemma SamePages(ps0: seq<Page>, ps1: seq<Page>, ps2: seq<Page>, p: nat, n: nat)
    requires SameButMarks(ps0, ps1) && SamePlace(ps1, ps2) && RefsCleared(ps1, ps2, p, n)
    ensures SamePlace(ps0, ps2) && RefsCleared(ps0, ps2, p, n)
  {}

  lemma TooShort(idx: nat, n: nat)
    requires n < Pow2(MAX_ORDER + 1)
    ensures !HoldsBigRun(idx, n)
  {}

  lemma TailPage(v: View, f: Frame, n: nat)
    requires ZonesOk(v.pages, v.memBase, v.sizes)
    requires f.zone < |v.sizes| && f.idx + n < v.sizes[f.zone]
    ensures Managed(v, PageNo(v.memBase, f)) && PageNo(v.memBase, Frame(f.zone, f.idx + n)) == PageNo(v.memBase, f) + n
    ensures Managed(v, PageNo(v.memBase, f) + n) && FrameOf(v, PageNo(v.memBase, f) + n) == Frame(f.zone, f.idx + n)
  {
    PagesAreFrames(v, 0, f);
    PagesAreFrames(v, 0, Frame(f.zone, f.idx + n));
  }

  lemma WholeBlock(v: View, p: nat, order: nat)
    requires Ok(v) && Managed(v, p) && Fits(v.sizes, BlockFrom(v, p, order))
    ensures FrameOf(v, p).zone < |v.sizes| && FrameOf(v, p).idx + Pow2(order) <= v.sizes[FrameOf(v, p).zone]
  {}

  lemma {:induction false} ZeroAligned(o: nat)
    ensures Floor(0, o) == 0
  {
    if o > 0 {
      ZeroAligned(o - 1);
    }
  }

  // Adding a zone over reserved pages keeps the tables in order; none of its frames is free yet.
  lemma AddZone(v: View, base: nat, n: nat, ps': seq<Page>)
    requires Ok(v) && |v.memBase| < MAX_ZONE_NUM && base + n <= |v.pages| == |ps'|
    requires forall p :: base <= p < base + n ==> v.pages[p].reserved
    requires forall p :: 0 <= p < |ps'| ==>
               ps'[p] == if base <= p < base + n then Page(0, false, false, 0, |v.memBase|) else v.pages[p]
    ensures Ok(v.(pages := ps', memBase := v.memBase + [base], sizes := v.sizes + [n]))
    ensures forall f :: f in Held(v.blocks) ==> f.zone != |v.memBase|
  {
    assert forall p: nat, o: nat :: Listed(ps', p, o) <==> Listed(v.pages, p, o);
    AddZoneZones(v, base, n, ps');
    assert ListsOk(ps', v.areas) by {
      forall o: nat | o < |v.areas|
        ensures AreaOk(ps', v.areas[o], o)
      {
        assert AreaOk(v.pages, v.areas[o], o);
      }
    }
    var sizes', memBase' := v.sizes + [n], v.memBase + [base];
    forall b: Block | InZone(sizes', Frame(b.zone, b.idx))
      ensures b in v.blocks <==> Listed(ps', Head(memBase', b), b.order)
    {
      if b.zone < |v.sizes| {
        assert InZone(v.sizes, Frame(b.zone, b.idx)) && Head(memBase', b) == Head(v.memBase, b);
      }
    }
    assert forall b :: Fits(v.sizes, b) ==> Fits(sizes', b);
    forall f | f in Held(v.blocks)
      ensures f.zone != |v.memBase|
    {
      HeldIffCovered(v.sizes, v.blocks, f);
    }
  }

  lemma AddZoneZones(v: View, base: nat, n: nat, ps': seq<Page>)
    requires ZonesOk(v.pages, v.memBase, v.sizes) && |v.memBase| < MAX_ZONE_NUM && base + n <= |v.pages| == |ps'|
    requires forall p :: base <= p < base + n ==> v.pages[p].reserved
    requires forall p :: 0 <= p < |ps'| ==>
               ps'[p] == if base <= p < base + n then Page(0, false, false, 0, |v.memBase|) else v.pages[p]
    ensures ZonesOk(ps', v.memBase + [base], v.sizes + [n])
  {
    var sizes', memBase' := v.sizes + [n], v.memBase + [base];
    forall p: nat | p < |ps'| && !ps'[p].reserved
      ensures PageInZone(ps', memBase', sizes', p)
    {
      assert !(base <= p < base + n) ==> PageInZone(v.pages, v.memBase, v.sizes, p);
    }
    forall f | InZone(sizes', f)
      ensures OwnedBy(ps', PageNo(memBase', f), f.zone)
    {
      if f.zone < |v.sizes| {
        assert InZone(v.sizes, f) && OwnedBy(v.pages, PageNo(v.memBase, f), f.zone);
      }
    }
  }

  // In a zone whose first frames are free and the rest not, the next aligned block can be inserted.
  lemma NextBlockIsPending(v: View, b: Block, free0: set<Frame>)
    requires Ok(v) && Fits(v.sizes, b) && (b.order < MAX_ORDER ==> Floor(b.idx, b.order + 1) == b.idx)
    requires Held(v.blocks) == free0 + Run(b.zone, 0, b.idx) && forall f :: f in free0 ==> f.zone != b.zone
    ensures Pending(v, b, free0 + Run(b.zone, 0, b.idx + Pow2(b.order)))
    ensures b.order < MAX_ORDER ==> Sib(b) !in v.blocks
  {
    hide Floor, Canonical, BlocksLinked, ZonesOk, ListsOk, Held, Run;
    RunMembers(b.zone, b.idx, Pow2(b.order));
    RunSplit(b.zone, 0, b.idx, Pow2(b.order));
    assert Frames(b) !! free0;
    if b.order < MAX_ORDER {
      UpperSibNotHeld(v.blocks, b, free0);
    }
  }

  lemma UpperSibNotHeld(blocks: set<Block>, b: Block, free0: set<Frame>)
    requires Floor(b.idx, b.order + 1) == b.idx && Floor(b.idx, b.order) == b.idx
    requires Held(blocks) == free0 + Run(b.zone, 0, b.idx) && forall f :: f in free0 ==> f.zone != b.zone
    ensures Sib(b) !in blocks
  {
    hide Floor, Sibling, Held;
    SiblingCases(b.idx, b.order);
    RunMembers(b.zone, 0, b.idx);
    if Sib(b) in blocks {
      BlockIsHeld(blocks, Sib(b));
    }
  }

  // getorder, with None for the panic.
  method GetOrder(n: nat) returns (r: Option<nat>)
    ensures r.None? <==> n > Pow2(MAX_ORDER)
    ensures r.Some? ==> r.value <= MAX_ORDER && n <= Pow2(r.value) && (r.value > 0 ==> Pow2(r.value - 1) < n)
  {
    var order, orderSize := 0, 1;
    while order <= MAX_ORDER
      invariant order <= MAX_ORDER + 1 && orderSize == Pow2(order)
      invariant order > 0 ==> Pow2(order - 1) < n
    {
      if n <= orderSize {
        Pow2Monotone(order, MAX_ORDER);
        return Some(order);
      }
      order, orderSize := order + 1, orderSize * 2;
    }
    return None;
  }

  // The inner loop of buddy_free_pages' second loop: the largest block size that is at most n.
  method HalveBelow(n: nat, from: nat, fromSize: nat, ghost i: nat) returns (order: nat, orderSize: nat)
    requires 0 < n < fromSize == Pow2(from) && Floor(i, from) == i
    ensures order < from && orderSize == Pow2(order) && orderSize <= n < 2 * orderSize && Floor(i, order) == i
  {
    hide Floor;
    order, orderSize := from, fromSize;
    while n < orderSize
      invariant order <= from && orderSize == Pow2(order) && n < 2 * orderSize && Floor(i, order) == i
      invariant order == from ==> n < orderSize
    {
      FloorWeaken(i, order - 1, order);
      order, orderSize := order - 1, orderSize / 2;
    }
  }

  lemma NothingCounted(fa: seq<FreeArea>)
    ensures FreeCount(fa, 0) == 0
  {}

  lemma CountNext(fa: seq<FreeArea>, k: nat)
    requires k < |fa|
    ensures FreeCount(fa, k + 1) == FreeCount(fa, k) + fa[k].nrFree * Pow2(k)
  {}

  lemma StillThere(v: View, w: View, p: nat)
    requires ZonesOk(v.pages, v.memBase, v.sizes) && ZonesOk(w.pages, w.memBase, w.sizes)
    requires SamePlace(v.pages, w.pages) && w.memBase == v.memBase && Managed(v, p)
    ensures Managed(w, p) && FrameOf(w, p) == FrameOf(v, p)
  {}

  lemma PowerNext(o: nat)
    ensures Pow2(0) == 1 && Pow2(o + 1) == 2 * Pow2(o)
  {}

  lemma MarksSame(a: seq<Page>)
    ensures SameButMarks(a, a)
  {}

  lemma MarksTwice(a: seq<Page>, b: seq<Page>, c: seq<Page>)
    requires SameButMarks(a, b) && SameButMarks(b, c)
    ensures SameButMarks(a, c)
  {}

  lemma PageOfRun(v: View, r: PageRun, done: nat)
    requires ZonesOk(v.pages, v.memBase, v.sizes) && done < r.count
    requires r.zone < |v.sizes| && r.idx + r.count <= v.sizes[r.zone]
    requires PageNo(v.memBase, Frame(r.zone, r.idx)) == r.first
    ensures r.zone < |v.memBase| && v.memBase[r.zone] + r.idx == r.first && Managed(v, r.first + done)
    ensures FrameOf(v, r.first + done) == Frame(r.zone, r.idx + done)
  {
    PagesAreFrames(v, 0, Frame(r.zone, r.idx + done));
  }

  class BuddyManager {
    const pages: array<Page>
    const freeArea: array<FreeArea>
    var memBase: seq<nat>  // zones[i].mem_base for i < zone_num
    ghost var sizes: seq<nat>
    ghost var blocks: set<Block>

    ghost function Tables(): View
      reads this, pages, freeArea
    {
      View(pages[..], freeArea[..], memBase, sizes, blocks)
    }

    ghost predicate Valid()
      reads this, pages, freeArea
    {
      freeArea.Length == MAX_ORDER + 1 && Ok(Tables())
    }

    ghost function Free(): set<Frame>
      reads this
    {
      Held(blocks)
    }

    // The frames of the n pages from `base`, which lie in one zone.
    ghost predicate InOneZone(base: nat, n: nat)
      reads this, pages, freeArea
      requires Valid()
    {
      n > 0 ==> Managed(Tables(), base) && FrameOf(Tables(), base).idx + n <= sizes[FrameOf(Tables(), base).zone]
    }

    ghost function FramesFrom(base: nat, n: nat): set<Frame>
      reads this, pages, freeArea
      requires Valid() && InOneZone(base, n)
    {
      if n == 0 then {} else Run(FrameOf(Tables(), base).zone, FrameOf(Tables(), base).idx, n)
    }

    // buddy_init, on a page array in which page_init has reserved every page
    constructor (initial: seq<Page>)
      ensures Valid() && Free() == {} && memBase == [] && fresh(pages) && fresh(freeArea)
      ensures |initial| == pages.Length && forall p :: 0 <= p < |initial| ==> pages[p] == initial[p].(reserved := true)
    {
      pages := new Page[|initial|](i requires 0 <= i < |initial| => initial[i].(reserved := true));
      freeArea := new FreeArea[MAX_ORDER + 1](i => FreeArea([], 0));
      memBase, sizes, blocks := [], [], {};
      new;
      EmptyTables(Tables());
    }

    // buddy_init_memmap
    method InitMemmap(base: nat, n: nat)
      requires Valid() && n > 0 && |memBase| < MAX_ZONE_NUM && base + n <= pages.Length
      requires forall p :: base <= p < base + n ==> pages[p].reserved
      modifies this, pages, freeArea
      ensures Valid() && memBase == old(memBase) + [base] && sizes == old(sizes) + [n]
      ensures Free() == old(Free()) + Run(|old(memBase)|, 0, n)
      ensures forall p :: 0 <= p < pages.Length && !(base <= p < base + n) ==> pages[p] == old(pages[p])
    {
      hide Canonical, BlocksLinked, ListsOk, Held, Run, Floor;
      ghost var v := Tables();
      ghost var free0 := Free();
      var zone := |memBase|;
      SetUpPages(base, n, zone);
      AddZone(v, base, n, pages[..]);
      memBase, sizes := memBase + [base], sizes + [n];
      assert Tables() == v.(pages := pages[..], memBase := memBase, sizes := sizes);
      NothingRun(zone, 0);
      LayBlocks(zone, base, n, free0, pages[..]);
    }

    // The first loop of buddy_init_memmap.
    method SetUpPages(base: nat, n: nat, zone: nat)
      requires base + n <= pages.Length
      requires forall p :: base <= p < base + n ==> pages[p].reserved
      modifies pages
      ensures forall p :: 0 <= p < pages.Length ==>
                pages[p] == if base <= p < base + n then Page(0, false, false, 0, zone) else old(pages[p])
    {
      var p := base;
      while p != base + n
        invariant base <= p <= base + n
        invariant forall q :: 0 <= q < pages.Length ==>
                    pages[q] == if base <= q < p then Page(0, false, false, 0, zone) else old(pages[q])
      {
        assert pages[p].reserved;
        pages[p] := Page(0, false, false, 0, zone);
        p := p + 1;
      }
    }

    // The first done pages of the zone that starts at base are free, and no page outside it has changed.
    ghost predicate Laid(zone: nat, base: nat, count: nat, done: nat, free0: set<Frame>, ps0: seq<Page>)
      reads this, pages, freeArea
    {
      && Valid() && zone < |memBase| && memBase[zone] == base && |sizes| == |memBase| && sizes[zone] == count
      && (forall f :: f in free0 ==> f.zone != zone) && Free() == free0 + Run(zone, 0, done)
      && |ps0| == pages.Length
      && forall p :: 0 <= p < pages.Length && !(base <= p < base + count) ==> pages[p] == ps0[p]
    }

    // The second loop of buddy_init_memmap: cover the zone with blocks, the largest first.
    method LayBlocks(zone: nat, base: nat, count: nat, ghost free0: set<Frame>, ghost ps0: seq<Page>)
      requires Laid(zone, base, count, 0, free0, ps0)
      modifies this`blocks, pages, freeArea
      ensures Laid(zone, base, count, count, free0, ps0)
    {
      hide Laid, Floor;
      var p: nat, n: nat := base, count;
      var order: nat, orderSize: nat := MAX_ORDER, Pow2(MAX_ORDER);
      ghost var done: nat := 0;
      ZeroAligned(MAX_ORDER);
      while n != 0
        invariant order <= MAX_ORDER || n == 0
        invariant n != 0 ==> orderSize == Pow2(order) && Floor(done, order) == done
        invariant n != 0 && order < MAX_ORDER ==> n < 2 * orderSize && Floor(done, order + 1) == done
        invariant done + n == count && p == base + done && Laid(zone, base, count, done, free0, ps0)
        decreases n, order
      {
        p, n, done := LayOrder(p, n, order, orderSize, zone, base, count, done, free0, ps0);
        assert order == 0 ==> n == 0;
        order := if order == 0 then 0xFFFF_FFFF else order - 1;  // size_t wraps on the last round
        orderSize := orderSize / 2;
        if n != 0 {
          FloorWeaken(done, order, order + 1);
        }
      }
    }

    // The inner loop: blocks of one order, as many as fit.
    method LayOrder(p0: nat, n0: nat, order: nat, orderSize: nat, ghost zone: nat, ghost base: nat, ghost count: nat,
                    ghost done0: nat, ghost free0: set<Frame>, ghost ps0: seq<Page>)
      returns (p: nat, n: nat, ghost done: nat)
      requires order <= MAX_ORDER && orderSize == Pow2(order) && Floor(done0, order) == done0
      requires order < MAX_ORDER ==> n0 < 2 * orderSize && Floor(done0, order + 1) == done0
      requires done0 + n0 == count && p0 == base + done0 && Laid(zone, base, count, done0, free0, ps0)
      modifies this`blocks, pages, freeArea
      ensures n <= n0 && n < orderSize && Floor(done, order) == done
      ensures done + n == count && p == base + done && Laid(zone, base, count, done, free0, ps0)
    {
      hide Laid, Floor, Pow2;
      p, n, done := p0, n0, done0;
      while n >= orderSize
        invariant n <= n0 && Floor(done, order) == done
        invariant order < MAX_ORDER ==> n < 2 * orderSize && (n >= orderSize ==> Floor(done, order + 1) == done)
        invariant done + n == count && p == base + done && Laid(zone, base, count, done, free0, ps0)
      {
        LayOne(p, order, zone, base, count, done, free0, ps0);
        FloorStep(done, order);
        done, n, p := done + orderSize, n - orderSize, p + orderSize;
      }
    }

    method LayOne(p: nat, order: nat, ghost zone: nat, ghost base: nat, ghost count: nat, ghost done: nat,
                  ghost free0: set<Frame>, ghost ps0: seq<Page>)
      requires p == base + done && Laid(zone, base, count, done, free0, ps0)
      requires order <= MAX_ORDER && done + Pow2(order) <= count && Floor(done, order) == done
      requires order < MAX_ORDER ==> Floor(done, order + 1) == done
      modifies this`blocks, pages, freeArea
      ensures Laid(zone, base, count, done + Pow2(order), free0, ps0)
    {
      hide Canonical, BlocksLinked, ZonesOk, ListsOk, Held, Floor, Run;
      ghost var v, b := Tables(), Block(zone, done, order);
      NextBlockIsPending(v, b, free0);
      InsertCompletes(v, b, free0 + Run(zone, 0, done + Pow2(order)));
      PushBlock(p, order, b);
    }

    // buddy_alloc_pages_sub
    method AllocPagesSub(order: nat) returns (r: Option<nat>)
      requires Valid() && order <= MAX_ORDER
      modifies this`blocks, pages, freeArea
      ensures Valid() && SameButMarks(old(pages[..]), pages[..])
      ensures var k := FirstArea(old(freeArea[..]), order);
              r == if k > MAX_ORDER then None else Some(old(freeArea[..])[k].freeList[0])
      ensures r.None? ==> Tables() == old(Tables()) && pages[..] == old(pages[..])
      ensures r.Some? ==> Managed(Tables(), r.value) && Fits(sizes, BlockAt(FrameOf(Tables(), r.value), order))
      ensures r.Some? ==>
                var b := BlockAt(FrameOf(Tables(), r.value), order);
                && b.idx == FrameOf(Tables(), r.value).idx
                && Frames(b) <= old(Free()) && Free() == old(Free()) - Frames(b)
    {
      var curOrder := order;
      while curOrder <= MAX_ORDER
        invariant order <= curOrder <= MAX_ORDER + 1
        invariant Tables() == old(Tables())
        invariant FirstArea(freeArea[..], order) == FirstArea(freeArea[..], curOrder)
      {
        if freeArea[curOrder].freeList != [] {
          var page := SplitFrom(curOrder, order);
          return Some(page);
        }
        curOrder := curOrder + 1;
      }
      return None;
    }

    // The body of the search loop of buddy_alloc_pages_sub once a list with an entry is found.
    method SplitFrom(found: nat, order: nat) returns (page: nat)
      requires Valid() && order <= found <= MAX_ORDER && freeArea[found].freeList != []
      modifies this`blocks, pages, freeArea
      ensures Valid() && SameButMarks(old(pages[..]), pages[..])
      ensures page == old(freeArea[found].freeList[0])
      ensures Managed(Tables(), page)
      ensures var b := BlockAt(FrameOf(Tables(), page), order);
              && b.idx == FrameOf(Tables(), page).idx && Fits(sizes, b)
              && Frames(b) <= old(Free()) && Free() == old(Free()) - Frames(b)
    {
      hide Canonical, BlocksLinked, ZonesOk, ListsOk, Held, Run, Floor, Fits;
      page := freeArea[found].freeList[0];
      ghost var v := Tables();
      ghost var total := Free();
      ghost var f := ListHead(v, found);
      ghost var b := Block(f.zone, f.idx, found);
      TakeIsPending(v, b);
      freeArea[found] := FreeArea(freeArea[found].freeList[1..], freeArea[found].nrFree - 1);
      v := Take(v, b);
      assert freeArea[..] == v.areas;
      v := SplitDown(page, found, order, v, f, total);
      pages[page] := pages[page].(property := false);
      blocks := v.blocks;
      assert Tables() == v;
      PendingResult(v, Block(f.zone, f.idx, order), total);
    }

    // The inner loop: halve the block at `page`, whose flag is still set, until it has the order asked for.
    method SplitDown(page: nat, found: nat, order: nat, ghost v0: View, ghost f: Frame, ghost total: set<Frame>)
      returns (ghost v: View)
      requires order <= found <= MAX_ORDER && page < pages.Length
      requires v0.memBase == memBase && f.zone < |memBase| && PageNo(memBase, f) == page
      requires Pending(v0, Block(f.zone, f.idx, found), total)
      requires TakePages(pages[..], page) == v0.pages && freeArea[..] == v0.areas
      modifies pages, freeArea
      ensures v == v0.(pages := v.pages, areas := v.areas, blocks := v.blocks)
      ensures Pending(v, Block(f.zone, f.idx, order), total)
      ensures TakePages(pages[..], page) == v.pages && freeArea[..] == v.areas
      ensures SameButMarks(old(pages[..]), pages[..])
    {
      hide Ok, Held, Run, Floor, Fits;
      v := v0;
      var curOrder, size := found, Pow2(found);
      while curOrder > order
        invariant order <= curOrder <= found && size == Pow2(curOrder)
        invariant v == v0.(pages := v.pages, areas := v.areas, blocks := v.blocks)
        invariant Pending(v, Block(f.zone, f.idx, curOrder), total)
        invariant TakePages(pages[..], page) == v.pages && freeArea[..] == v.areas
        invariant SameButMarks(old(pages[..]), pages[..])
      {
        ghost var b := Block(f.zone, f.idx, curOrder);
        curOrder := curOrder - 1;
        size := size / 2;
        assert size == Pow2(curOrder);
        var buddy := page + size;
        ghost var hi := Block(f.zone, f.idx + size, curOrder);
        SplitStaysPending(v, b, total, Block(f.zone, f.idx, curOrder), hi);
        AddToList(buddy, curOrder);
        v := Push(v, hi);
      }
    }

    // buddy_free_pages_sub
    method FreePagesSub(base: nat, order: nat)
      requires Valid() && Managed(Tables(), base)
      requires BlockFrom(Tables(), base, order).order <= MAX_ORDER
      requires Fits(sizes, BlockFrom(Tables(), base, order))
      requires Frames(BlockFrom(Tables(), base, order)) !! Free()
      modifies this`blocks, pages, freeArea
      ensures Valid() && SamePlace(old(pages[..]), pages[..])
      ensures Free() == old(Free()) + Frames(old(BlockFrom(Tables(), base, order)))
      ensures RefsCleared(old(pages[..]), pages[..], base, Pow2(order))
    {
      hide Canonical, BlocksLinked, ListsOk, Held, Run, Floor;
      ghost var v := Tables();
      ghost var b := BlockFrom(v, base, order);
      var pageIdx := base - memBase[pages[base].zoneNum];
      AndMask(pageIdx, order);
      assert And(pageIdx, Pow2(order) - 1) == 0;
      BlockPages(v, b);
      ClearPages(base, Pow2(order));
      RefsDoNotMatter(v, pages[..]);
      v := v.(pages := pages[..]);
      assert Tables() == v;
      MergeAndInsert(pages[base].zoneNum, pageIdx, order, old(Free()) + Frames(b));
    }

    // The first loop of buddy_free_pages_sub; the pages are neither reserved nor block heads.
    method ClearPages(base: nat, n: nat)
      requires base + n <= pages.Length
      requires forall q :: base <= q < base + n ==> !pages[q].reserved && !pages[q].property
      modifies pages
      ensures forall q :: 0 <= q < pages.Length ==>
                pages[q] == if base <= q < base + n then old(pages[q]).(ref := 0) else old(pages[q])
    {
      var p := base;
      while p != base + n
        invariant base <= p <= base + n
        invariant forall q :: 0 <= q < pages.Length ==>
                    pages[q] == if base <= q < p then old(pages[q]).(ref := 0) else old(pages[q])
      {
        assert !pages[p].reserved && !pages[p].property;
        pages[p] := pages[p].(reserved := false, property := false, ref := 0);
        p := p + 1;
      }
    }

    // The merge loop and the final insertion of buddy_free_pages_sub.
    method MergeAndInsert(zoneNum: nat, idx: nat, from: nat, ghost total: set<Frame>)
      requires Valid() && zoneNum < |memBase| && Pending(Tables(), Block(zoneNum, idx, from), total)
      modifies this`blocks, pages, freeArea
      ensures Valid() && Free() == total && SameButMarks(old(pages[..]), pages[..])
    {
      hide Ok, Pending, SameButMarks, Held, Run, Floor;
      ghost var ps0 := pages[..];
      MarksSame(ps0);
      var order, pageIdx, merged := from, idx, true;
      while order < MAX_ORDER
        invariant Valid() && Pending(Tables(), Block(zoneNum, pageIdx, order), total)
        invariant SameButMarks(ps0, pages[..])
        decreases MAX_ORDER - order
      {
        ghost var ps := pages[..];
        merged, pageIdx := Absorb(zoneNum, pageIdx, order, total);
        MarksTwice(ps0, ps, pages[..]);
        if !merged {
          break;
        }
        order := order + 1;
      }
      ghost var ps := pages[..];
      InsertBlock(zoneNum, pageIdx, order, total);
      MarksTwice(ps0, ps, pages[..]);
    }

    // One round: if the buddy is free, it leaves its list and the block doubles.
    method Absorb(zoneNum: nat, idx: nat, order: nat, ghost total: set<Frame>) returns (merged: bool, pageIdx: nat)
      requires Valid() && zoneNum < |memBase| && order < MAX_ORDER
      requires Pending(Tables(), Block(zoneNum, idx, order), total)
      modifies this`blocks, pages, freeArea
      ensures Valid() && SameButMarks(old(pages[..]), pages[..])
      ensures Pending(Tables(), Block(zoneNum, pageIdx, if merged then order + 1 else order), total)
      ensures !merged ==> Sib(Block(zoneNum, pageIdx, order)) !in blocks
    {
      hide Canonical, BlocksLinked, ZonesOk, ListsOk, Held, Run, Floor;
      ghost var v, b := Tables(), Block(zoneNum, idx, order);
      var buddyIdx := Xor(idx, Pow2(order));
      var buddy := memBase[zoneNum] + buddyIdx;
      BuddyTestIsExact(v, b, total);
      merged := PageIsBuddy(pages[..], buddy, order, zoneNum);
      pageIdx := idx;
      if merged {
        MergeStaysPending(v, b, total);
        AndSibling(idx, order);
        TakeBlock(buddy, order, Sib(b));
        pageIdx := And(idx, buddyIdx);
      }
    }

    method InsertBlock(zoneNum: nat, pageIdx: nat, order: nat, ghost total: set<Frame>)
      requires Valid() && zoneNum < |memBase| && Pending(Tables(), Block(zoneNum, pageIdx, order), total)
      requires order < MAX_ORDER ==> Sib(Block(zoneNum, pageIdx, order)) !in blocks
      modifies this`blocks, pages, freeArea
      ensures Valid() && Free() == total && SameButMarks(old(pages[..]), pages[..])
    {
      hide Canonical, BlocksLinked, ZonesOk, ListsOk, Held, Run, Floor;
      InsertCompletes(Tables(), Block(zoneNum, pageIdx, order), total);
      PushBlock(memBase[zoneNum] + pageIdx, order, Block(zoneNum, pageIdx, order));
    }

    // page2idx
    function Page2Idx(p: nat): nat
      reads this, pages
      requires p < pages.Length && 0 <= pages[p].zoneNum < |memBase| && memBase[pages[p].zoneNum] <= p
    {
      p - memBase[pages[p].zoneNum]
    }

    // Of a run of pages of one zone the first `done` have been freed since the tables were (ps0, free0).
    ghost predicate Freed(r: PageRun, done: nat, ps0: seq<Page>, free0: set<Frame>)
      reads this, pages, freeArea
    {
      && Valid() && done <= r.count
      && r.zone < |sizes| && r.idx + r.count <= sizes[r.zone] && PageNo(memBase, Frame(r.zone, r.idx)) == r.first
      && Run(r.zone, r.idx, r.count) !! free0
      && SamePlace(ps0, pages[..])
      && Free() == free0 + Run(r.zone, r.idx, done)
      && RefsCleared(ps0, pages[..], r.first, done)
    }

    lemma NextPage(r: PageRun, done: nat, ps0: seq<Page>, free0: set<Frame>)
      requires Freed(r, done, ps0, free0) && done < r.count
      ensures var p := r.first + done;
              && p < pages.Length && pages[p].zoneNum == r.zone < |memBase| && memBase[r.zone] <= p
              && Page2Idx(p) == r.idx + done
              && Managed(Tables(), p) && FrameOf(Tables(), p) == Frame(r.zone, r.idx + done)
    {
      hide ListsOk, BlocksLinked, Canonical, Held, Run, SamePlace, RefsCleared;
      PageOfRun(Tables(), r, done);
    }

    // Free the next aligned block of the run.
    method FreeNext(p: nat, order: nat, ghost r: PageRun, ghost done: nat, ghost ps0: seq<Page>,
                    ghost free0: set<Frame>)
      requires Freed(r, done, ps0, free0) && p == r.first + done && order <= MAX_ORDER
      requires Floor(r.idx + done, order) == r.idx + done && done + Pow2(order) <= r.count
      modifies this`blocks, pages, freeArea
      ensures Freed(r, done + Pow2(order), ps0, free0)
    {
      hide Ok, Held, Run, Floor;
      RunSplit(r.zone, r.idx, done, Pow2(order));
      RunSplit(r.zone, r.idx, done + Pow2(order), r.count - done - Pow2(order));
      NextPage(r, done, ps0, free0);
      FreePagesSub(p, order);
    }

    // buddy_free_pages; `panicked` tells whether the assertion on the order fired.
    method FreePages(base: nat, n: nat) returns (panicked: bool)
      requires Valid() && n > 0 && InOneZone(base, n) && FramesFrom(base, n) !! Free()
      modifies this`blocks, pages, freeArea
      ensures Valid() && SamePlace(old(pages[..]), pages[..])
      ensures panicked <==> HoldsBigRun(old(FrameOf(Tables(), base).idx), n)
      ensures !panicked ==> Free() == old(Free()) + old(FramesFrom(base, n))
      ensures !panicked ==> RefsCleared(old(pages[..]), pages[..], base, n)
    {
      hide Canonical, BlocksLinked, ListsOk, Held, Run, Floor;
      ghost var r := PageRun(FrameOf(Tables(), base).zone, FrameOf(Tables(), base).idx, base, n);
      PagesAreFrames(Tables(), base, FrameOf(Tables(), base));
      NothingRun(r.zone, r.idx);
      assert Freed(r, 0, pages[..], Free());
      if n == 1 {
        FloorZero(r.idx);
        FreeNext(base, 0, r, 0, pages[..], Free());
        panicked := false;
      } else {
        panicked := FreeRun(base, n, r);
      }
    }

    // Both loops of buddy_free_pages.
    method FreeRun(first: nat, count: nat, ghost r: PageRun) returns (panicked: bool)
      requires Freed(r, 0, pages[..], Free()) && r.first == first && r.count == count > 0
      modifies this`blocks, pages, freeArea
      ensures Valid() && SamePlace(old(pages[..]), pages[..])
      ensures panicked <==> HoldsBigRun(r.idx, count)
      ensures !panicked ==> Freed(r, count, old(pages[..]), old(Free()))
    {
      hide Valid, Floor, HoldsBigRun;
      var base, n, order;
      panicked, base, n, order := FreeAscending(first, count, r, pages[..], Free());
      if !panicked {
        FreeDescending(base, n, order, r, old(pages[..]), old(Free()));
      }
    }

    // The first loop: blocks of growing order, up to where the index is aligned as far as the rest is long.
    method FreeAscending(first: nat, count: nat, ghost r: PageRun, ghost ps0: seq<Page>, ghost free0: set<Frame>)
      returns (panicked: bool, base: nat, n: nat, order: nat)
      requires Freed(r, 0, ps0, free0) && r.first == first && r.count == count > 0
      modifies this`blocks, pages, freeArea
      ensures panicked <==> HoldsBigRun(r.idx, count)
      ensures n <= count && base == first + (count - n) && Freed(r, count - n, ps0, free0)
      ensures !panicked ==>
                order <= MAX_ORDER + 1 && n < Pow2(order) && Floor(r.idx + count - n, order) == r.idx + count - n
    {
      hide Freed, Valid, Floor, HoldsBigRun, NoBigRunBefore, Bit, And, Pow2;
      base, n, order := first, count, 0;
      var orderSize: nat := 1;
      PowerNext(0);
      ghost var done: nat, i: nat := 0, r.idx;
      FloorZero(i);
      while n >= orderSize
        invariant orderSize == Pow2(order) && base == first + done && done + n == count && i == r.idx + done
        invariant order <= MAX_ORDER + 1 && Floor(i, order) == i
        invariant NoBigRunBefore(r.idx, i)
        invariant Freed(r, done, ps0, free0)
        decreases MAX_ORDER + 1 - order
      {
        if order > MAX_ORDER {
          BigRunAt(r.idx, i, count);
          return true, base, n, order;
        }
        NextPage(r, done, ps0, free0);
        AndPow2(i, order);
        if And(Page2Idx(base), orderSize) != 0 {
          SkipUnaligned(r.idx, i, order);
          FreeNext(base, order, r, done, ps0, free0);
          i, done, base, n := i + Pow2(order), done + orderSize, base + orderSize, n - orderSize;
        } else {
          AlignedFurther(i, order);
        }
        PowerNext(order);
        order, orderSize := order + 1, orderSize * 2;
      }
      NoBigRun(r.idx, i, count, order);
      panicked := false;
    }

    // The second loop: blocks of falling order.
    method FreeDescending(from: nat, rest: nat, top: nat, ghost r: PageRun, ghost ps0: seq<Page>,
                          ghost free0: set<Frame>)
      requires rest <= r.count && Freed(r, r.count - rest, ps0, free0) && from == r.first + (r.count - rest)
      requires top <= MAX_ORDER + 1 && rest < Pow2(top) && Floor(r.idx + r.count - rest, top) == r.idx + r.count - rest
      modifies this`blocks, pages, freeArea
      ensures Freed(r, r.count, ps0, free0)
    {
      hide Freed, Valid, Floor, Pow2;
      var base: nat, n: nat, order: nat, orderSize: nat := from, rest, top, Pow2(top);
      ghost var done: nat := r.count - rest;
      while n != 0
        invariant orderSize == Pow2(order) && base == r.first + done && done + n == r.count
        invariant order <= MAX_ORDER + 1 && Floor(r.idx + done, order) == r.idx + done && n < orderSize
        invariant Freed(r, done, ps0, free0)
      {
        order, orderSize := HalveBelow(n, order, orderSize, r.idx + done);
        FreeNext(base, order, r, done, ps0, free0);
        FloorStep(r.idx + done, order);
        done, base, n := done + orderSize, base + orderSize, n - orderSize;
      }
    }

    // buddy_alloc_pages
    method AllocPages(n: nat) returns (r: AllocResult)
      requires Valid() && n > 0
      modifies this`blocks, pages, freeArea
      ensures Valid() && SamePlace(old(pages[..]), pages[..])
      ensures r.Panic? <==> n > Pow2(MAX_ORDER)
      ensures r.NoMemory? <==> n <= Pow2(MAX_ORDER) && FirstArea(old(freeArea[..]), OrderFor(n)) > MAX_ORDER
      ensures !r.Allocated? ==> Tables() == old(Tables())
      ensures r.Allocated? ==>
                && r.page == old(freeArea[..])[FirstArea(old(freeArea[..]), OrderFor(n))].freeList[0]
                && InOneZone(r.page, n)
                && FramesFrom(r.page, n) <= old(Free()) && Free() == old(Free()) - FramesFrom(r.page, n)
                && RefsCleared(old(pages[..]), pages[..], r.page + n, Pow2(OrderFor(n)) - n)
    {
      hide Ok, Held, Run, Floor, FirstArea, SamePlace, SameButMarks, RefsCleared, Pow2, OrderFrom, Fits;
      var o := GetOrder(n);
      Unchanged(pages[..], 0);
      if o.None? {
        return Panic;
      }
      var order, orderSize := o.value, Pow2(o.value);
      OrderIsUnique(n, order);
      var page := AllocPagesSub(order);
      if page.None? {
        return NoMemory;
      }
      ghost var ps := pages[..];
      if n != orderSize {
        TrimTail(page.value, n, order);
      } else {
        WholeBlock(Tables(), page.value, order);
        Unchanged(ps, page.value + n);
      }
      SamePages(old(pages[..]), ps, pages[..], page.value + n, orderSize - n);
      r := Allocated(page.value);
    }

    // The call of free_pages in buddy_alloc_pages: give back what lies beyond the n pages asked for.
    method TrimTail(page: nat, n: nat, order: nat)
      requires Valid() && order <= MAX_ORDER && 0 < n < Pow2(order) && Managed(Tables(), page)
      requires Fits(sizes, BlockFrom(Tables(), page, order)) && Frames(BlockFrom(Tables(), page, order)) !! Free()
      modifies this`blocks, pages, freeArea
      ensures Valid() && SamePlace(old(pages[..]), pages[..])
      ensures Managed(Tables(), page) && FrameOf(Tables(), page) == old(FrameOf(Tables(), page))
      ensures var f := FrameOf(Tables(), page);
              && f.zone < |sizes| && f.idx + n <= sizes[f.zone]
              && Run(f.zone, f.idx, Pow2(order)) == Run(f.zone, f.idx, n) + Run(f.zone, f.idx + n, Pow2(order) - n)
              && Run(f.zone, f.idx, n) !! Run(f.zone, f.idx + n, Pow2(order) - n)
              && Free() == old(Free()) + Run(f.zone, f.idx + n, Pow2(order) - n)
      ensures RefsCleared(old(pages[..]), pages[..], page + n, Pow2(order) - n)
    {
      hide Canonical, BlocksLinked, ZonesOk, ListsOk, Held, Run, Floor, Pow2;
      hide SamePlace, RefsCleared, HoldsBigRun, FreeCount;
      ghost var v, f := Tables(), FrameOf(Tables(), page);
      RunSplit(f.zone, f.idx, n, Pow2(order) - n);
      TailPage(Tables(), f, n);
      PagesAreFrames(Tables(), page, f);
      ghost var tail := Frame(f.zone, f.idx + n);
      assert FrameOf(Tables(), page + n) == tail;
      var panicked := FreePages(page + n, Pow2(order) - n);
      StillThere(v, Tables(), page);
      Pow2Monotone(order, MAX_ORDER + 1);
      TooShort(tail.idx, Pow2(order) - n);
    }

    // buddy_nr_free_pages
    method NrFreePages() returns (ret: nat)
      requires Valid()
      ensures ret == |Free()|
    {
      hide ListsOk, ZonesOk, BlocksLinked, Canonical, Held, FreeCount, Pow2;
      ret := 0;
      var order := 0;
      NothingCounted(freeArea[..]);
      while order <= MAX_ORDER
        invariant order <= MAX_ORDER + 1 && ret == FreeCount(freeArea[..], order)
      {
        CountNext(freeArea[..], order);
        ret := ret + freeArea[order].nrFree * Pow2(order);
        order := order + 1;
      }
    }

    // p->property = order, SetPageProperty(p), nr_free(order) ++, list_add
    method AddToList(p: nat, order: nat)
      requires p < pages.Length && order < freeArea.Length
      modifies pages, freeArea
      ensures pages[..] == PushPages(old(pages[..]), p, order)
      ensures freeArea[..] == PushAreas(old(freeArea[..]), p, order)
    {
      pages[p] := pages[p].(order := order, property := true);
      freeArea[order] := FreeArea([p] + freeArea[order].freeList, freeArea[order].nrFree + 1);
    }

    // The two list updates, with the block they move.
    method PushBlock(p: nat, order: nat, ghost b: Block)
      requires p == Head(memBase, b) < pages.Length && order == b.order < freeArea.Length
      modifies this`blocks, pages, freeArea
      ensures Tables() == Push(old(Tables()), b)
    {
      AddToList(p, order);
      blocks := blocks + {b};
    }

    method TakeBlock(p: nat, order: nat, ghost b: Block)
      requires p == Head(memBase, b) < pages.Length && order == b.order < freeArea.Length && freeArea[order].nrFree > 0
      modifies this`blocks, pages, freeArea
      ensures Tables() == Take(old(Tables()), b)
    {
      RemoveFromList(p, order);
      blocks := blocks - {b};
    }

    // nr_free(order) --, list_del, ClearPageProperty(p)
    method RemoveFromList(p: nat, order: nat)
      requires p < pages.Length && order < freeArea.Length && freeArea[order].nrFree > 0
      modifies pages, freeArea
      ensures pages[..] == TakePages(old(pages[..]), p)
      ensures freeArea[..] == TakeAreas(old(freeArea[..]), p, order)
    {
      freeArea[order] := FreeArea(Remove(freeArea[order].freeList, p), freeArea[order].nrFree - 1);
      pages[p] := pages[p].(property := false);
    }
  }

  lemma PendingResult(v: View, b: Block, total: set<Frame>)
    requires Pending(v, b, total)
    ensures var p := Head(v.memBase, b);
            && Managed(v, p) && FrameOf(v, p) == Frame(b.zone, b.idx) && BlockAt(FrameOf(v, p), b.order) == b
            && Frames(b) <= total && Held(v.blocks) == total - Frames(b)
  {
    PendingHead(v, b, total);
  }

  lemma EmptyTables(v: View)
    requires |v.areas| == MAX_ORDER + 1 && v.memBase == [] && v.sizes == [] && v.blocks == {}
    requires forall o :: 0 <= o < |v.areas| ==> v.areas[o] == FreeArea([], 0)
    requires forall p :: 0 <= p < |v.pages| ==> v.pages[p].reserved
    ensures Ok(v) && Held(v.blocks) == {}
  {
    NothingListed(v.areas, MAX_ORDER + 1);
    forall o: nat | o < |v.areas|
      ensures AreaOk(v.pages, v.areas[o], o)
    {
      assert v.areas[o] == FreeArea([], 0);
    }
  }

  lemma {:induction false} NothingListed(fa: seq<FreeArea>, k: nat)
    requires k <= |fa| && forall o :: 0 <= o < |fa| ==> fa[o] == FreeArea([], 0)
    ensures FreeCount(fa, k) == 0
  {
    if k > 0 {
      NothingListed(fa, k - 1);
    }
  }
}
