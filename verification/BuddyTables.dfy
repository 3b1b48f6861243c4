/**
  The tables of the buddy allocator of ucore/kern/mm/buddy_pmm.c as one value, and
  the steps that move a block between the free lists and a caller.  Pages are
  numbered by their index in the `pages` array; a list is a sequence, head first.
 */
module BuddyTables {
  import opened Bits
  import opened Lists
  import opened BuddyBlocks

  const MAX_ZONE_NUM: nat := 10

  // struct Page: `reserved` and `property` are the two flag bits the allocator uses,
  // `order` is the field the source calls property.
  datatype Page = Page(ref: int, reserved: bool, property: bool, order: nat, zoneNum: int)

  datatype FreeArea = FreeArea(freeList: seq<nat>, nrFree: nat)

  // sizes[z] is the number of pages zone z was set up with, blocks the set of free blocks.
  datatype View = View(pages: seq<Page>, areas: seq<FreeArea>, memBase: seq<nat>, sizes: seq<nat>, blocks: set<Block>)

  // idx2page
  function PageNo(memBase: seq<nat>, f: Frame): nat {
    if f.zone < |memBase| then memBase[f.zone] + f.idx else 0
  }

  function Head(memBase: seq<nat>, b: Block): nat {
    PageNo(memBase, Frame(b.zone, b.idx))
  }

  predicate InZone(sizes: seq<nat>, f: Frame) {
    f.zone < |sizes| && f.idx < sizes[f.zone]
  }

  predicate Managed(v: View, p: nat) {
    p < |v.pages| && !v.pages[p].reserved
  }

  // page2idx
  function FrameOf(v: View, p: nat): Frame
    requires Managed(v, p) && ZonesOk(v.pages, v.memBase, v.sizes)
  {
    Frame(v.pages[p].zoneNum, p - v.memBase[v.pages[p].zoneNum])
  }

  predicate OwnedBy(ps: seq<Page>, p: nat, z: nat) {
    p < |ps| && !ps[p].reserved && ps[p].zoneNum == z
  }

  predicate PageInZone(ps: seq<Page>, memBase: seq<nat>, sizes: seq<nat>, p: nat)
    requires p < |ps| && |sizes| == |memBase|
  {
    0 <= ps[p].zoneNum < |memBase| && memBase[ps[p].zoneNum] <= p < memBase[ps[p].zoneNum] + sizes[ps[p].zoneNum]
  }

  // Every unreserved page lies in the zone it names, and every frame of a zone names it.
  ghost predicate ZonesOk(ps: seq<Page>, memBase: seq<nat>, sizes: seq<nat>) {
    && |sizes| == |memBase| <= MAX_ZONE_NUM
    && (forall p: nat :: p < |ps| && !ps[p].reserved ==> PageInZone(ps, memBase, sizes, p))
    && (forall f :: InZone(sizes, f) ==> OwnedBy(ps, PageNo(memBase, f), f.zone))
  }

  predicate Listed(ps: seq<Page>, p: nat, o: nat) {
    p < |ps| && !ps[p].reserved && ps[p].property && ps[p].order == o
  }

  ghost predicate AreaOk(ps: seq<Page>, a: FreeArea, o: nat) {
    && a.nrFree == |a.freeList|
    && Distinct(a.freeList)
    && (forall p: nat :: p in a.freeList <==> Listed(ps, p, o))
  }

  // Free list o holds exactly the pages flagged with order o, each once, and counts them.
  ghost predicate ListsOk(ps: seq<Page>, fa: seq<FreeArea>) {
    && |fa| == MAX_ORDER + 1
    && (forall o: nat :: o < |fa| ==> AreaOk(ps, fa[o], o))
    && (forall p: nat :: p < |ps| && !ps[p].reserved && ps[p].property ==> ps[p].order <= MAX_ORDER)
  }

  // A block is free exactly when its first page carries its order in the property flag.
  ghost predicate BlocksLinked(ps: seq<Page>, memBase: seq<nat>, sizes: seq<nat>, blocks: set<Block>) {
    forall b: Block :: InZone(sizes, Frame(b.zone, b.idx)) ==> (b in blocks <==> Listed(ps, Head(memBase, b), b.order))
  }

  // Sum over orders below k of nr_free(o) * 2^o.
  ghost function FreeCount(fa: seq<FreeArea>, k: nat): nat
    requires k <= |fa|
  {
    if k == 0 then 0 else FreeCount(fa, k - 1) + fa[k - 1].nrFree * Pow2(k - 1)
  }

  ghost predicate Ok(v: View) {
    && ListsOk(v.pages, v.areas)
    && ZonesOk(v.pages, v.memBase, v.sizes)
    && BlocksLinked(v.pages, v.memBase, v.sizes, v.blocks)
    && Canonical(v.sizes, v.blocks)
    && FreeCount(v.areas, MAX_ORDER + 1) == |Held(v.blocks)|
  }

  // ---- list updates

  lemma {:induction false} FreeCountUpdate(fa: seq<FreeArea>, o: nat, a: FreeArea, k: nat)
    requires o < |fa| && k <= |fa|
    ensures FreeCount(fa[o := a], k) == FreeCount(fa, k) + if o < k then (a.nrFree - fa[o].nrFree) * Pow2(o) else 0
  {
    if k > 0 {
      FreeCountUpdate(fa, o, a, k - 1);
    }
  }

  // list_add of page p to free list o, with its flag and order set.
  function PushPages(ps: seq<Page>, p: nat, o: nat): seq<Page>
    requires p < |ps|
  {
    ps[p := ps[p].(property := true, order := o)]
  }

  function PushAreas(fa: seq<FreeArea>, p: nat, o: nat): seq<FreeArea>
    requires o < |fa|
  {
    fa[o := FreeArea([p] + fa[o].freeList, fa[o].nrFree + 1)]
  }

  // list_del of page p from free list o, with its flag cleared.
  function TakePages(ps: seq<Page>, p: nat): seq<Page>
    requires p < |ps|
  {
    ps[p := ps[p].(property := false)]
  }

  function TakeAreas(fa: seq<FreeArea>, p: nat, o: nat): seq<FreeArea>
    requires o < |fa| && fa[o].nrFree > 0
  {
    fa[o := FreeArea(Remove(fa[o].freeList, p), fa[o].nrFree - 1)]
  }

  lemma PushLists(ps: seq<Page>, fa: seq<FreeArea>, p: nat, o: nat)
    requires ListsOk(ps, fa) && p < |ps| && o <= MAX_ORDER && !ps[p].reserved && !ps[p].property
    ensures ListsOk(PushPages(ps, p, o), PushAreas(fa, p, o))
    ensures FreeCount(PushAreas(fa, p, o), MAX_ORDER + 1) == FreeCount(fa, MAX_ORDER + 1) + Pow2(o)
  {
    var ps', fa' := PushPages(ps, p, o), PushAreas(fa, p, o);
    FreeCountUpdate(fa, o, fa'[o], MAX_ORDER + 1);
    forall o': nat | o' < |fa|
      ensures AreaOk(ps', fa'[o'], o')
    {
      assert AreaOk(ps, fa[o'], o');
      if o' == o {
        PushArea(ps, fa[o], p, o);
      }
    }
  }

  lemma PushArea(ps: seq<Page>, a: FreeArea, p: nat, o: nat)
    requires AreaOk(ps, a, o) && p < |ps| && !ps[p].reserved && !ps[p].property
    ensures AreaOk(PushPages(ps, p, o), FreeArea([p] + a.freeList, a.nrFree + 1), o)
  {
    assert p !in a.freeList;
    var s := [p] + a.freeList;
    forall i, j | 0 <= i < j < |s|
      ensures s[i] != s[j]
    {
      assert s[j] in a.freeList;
    }
  }

  lemma TakeArea(ps: seq<Page>, a: FreeArea, p: nat, o: nat)
    requires AreaOk(ps, a, o) && Listed(ps, p, o)
    ensures a.nrFree > 0 && p in a.freeList
    ensures AreaOk(TakePages(ps, p), FreeArea(Remove(a.freeList, p), a.nrFree - 1), o)
  {
    RemoveFacts(a.freeList, p);
    RemoveLength(a.freeList, p);
  }

  lemma TakeCount(fa: seq<FreeArea>, p: nat, o: nat, k: nat)
    requires o < k <= |fa| && fa[o].nrFree > 0
    ensures FreeCount(TakeAreas(fa, p, o), k) == FreeCount(fa, k) - Pow2(o)
  {
    var a := TakeAreas(fa, p, o)[o];
    FreeCountUpdate(fa, o, a, k);
    assert a.nrFree - fa[o].nrFree == -1;
  }

  lemma TakeLists(ps: seq<Page>, fa: seq<FreeArea>, p: nat, o: nat)
    requires ListsOk(ps, fa) && o <= MAX_ORDER && Listed(ps, p, o)
    ensures fa[o].nrFree > 0 && p in fa[o].freeList
    ensures ListsOk(TakePages(ps, p), TakeAreas(fa, p, o))
    ensures FreeCount(TakeAreas(fa, p, o), MAX_ORDER + 1) == FreeCount(fa, MAX_ORDER + 1) - Pow2(o)
  {
    assert AreaOk(ps, fa[o], o);
    TakeArea(ps, fa[o], p, o);
    var ps', fa' := TakePages(ps, p), TakeAreas(fa, p, o);
    TakeCount(fa, p, o, MAX_ORDER + 1);
    forall o': nat | o' < |fa|
      ensures AreaOk(ps', fa'[o'], o')
    {
      assert AreaOk(ps, fa[o'], o');
    }
  }

  // ---- pages and frames

  /** page2idx and idx2page are inverse to each other on the managed pages. */
  lemma PagesAreFrames(v: View, p: nat, f: Frame)
    requires ZonesOk(v.pages, v.memBase, v.sizes)
    ensures Managed(v, p) ==> InZone(v.sizes, FrameOf(v, p)) && PageNo(v.memBase, FrameOf(v, p)) == p
    ensures InZone(v.sizes, f) ==> Managed(v, PageNo(v.memBase, f)) && FrameOf(v, PageNo(v.memBase, f)) == f
  {
    if Managed(v, p) {
      assert PageInZone(v.pages, v.memBase, v.sizes, p);
    }
    if InZone(v.sizes, f) {
      assert OwnedBy(v.pages, PageNo(v.memBase, f), f.zone);
    }
  }

  lemma HeadFacts(v: View, b: Block)
    requires ZonesOk(v.pages, v.memBase, v.sizes) && Fits(v.sizes, b)
    ensures InZone(v.sizes, Frame(b.zone, b.idx))
    ensures Managed(v, Head(v.memBase, b)) && FrameOf(v, Head(v.memBase, b)) == Frame(b.zone, b.idx)
  {
    PagesAreFrames(v, 0, Frame(b.zone, b.idx));
  }

  // ---- moving a block

  function Push(v: View, b: Block): View
    requires Head(v.memBase, b) < |v.pages| && b.order < |v.areas|
  {
    var p := Head(v.memBase, b);
    v.(pages := PushPages(v.pages, p, b.order), areas := PushAreas(v.areas, p, b.order), blocks := v.blocks + {b})
  }

  function Take(v: View, b: Block): View
    requires Head(v.memBase, b) < |v.pages| && b.order < |v.areas| && v.areas[b.order].nrFree > 0
  {
    var p := Head(v.memBase, b);
    v.(pages := TakePages(v.pages, p), areas := TakeAreas(v.areas, p, b.order), blocks := v.blocks - {b})
  }

  lemma PushLinked(v: View, b: Block)
    requires ZonesOk(v.pages, v.memBase, v.sizes) && BlocksLinked(v.pages, v.memBase, v.sizes, v.blocks)
    requires Fits(v.sizes, b) && b !in v.blocks && b.order < |v.areas|
    requires Head(v.memBase, b) < |v.pages| && !v.pages[Head(v.memBase, b)].property
    ensures var v' := Push(v, b);
            ZonesOk(v'.pages, v.memBase, v.sizes) && BlocksLinked(v'.pages, v.memBase, v.sizes, v'.blocks)
  {
    var v' := Push(v, b);
    HeadFacts(v, b);
    ZonesKept(v, v'.pages);
    forall c: Block | InZone(v.sizes, Frame(c.zone, c.idx))
      ensures c in v'.blocks <==> Listed(v'.pages, Head(v.memBase, c), c.order)
    {
      PagesAreFrames(v, 0, Frame(c.zone, c.idx));
    }
  }

  lemma TakeLinked(v: View, b: Block)
    requires ZonesOk(v.pages, v.memBase, v.sizes) && BlocksLinked(v.pages, v.memBase, v.sizes, v.blocks)
    requires Fits(v.sizes, b) && b in v.blocks && b.order < |v.areas| && v.areas[b.order].nrFree > 0
    requires Head(v.memBase, b) < |v.pages|
    ensures var v' := Take(v, b);
            ZonesOk(v'.pages, v.memBase, v.sizes) && BlocksLinked(v'.pages, v.memBase, v.sizes, v'.blocks)
  {
    var v' := Take(v, b);
    HeadFacts(v, b);
    ZonesKept(v, v'.pages);
    forall c: Block | InZone(v.sizes, Frame(c.zone, c.idx))
      ensures c in v'.blocks <==> Listed(v'.pages, Head(v.memBase, c), c.order)
    {
      PagesAreFrames(v, 0, Frame(c.zone, c.idx));
    }
  }

  lemma ZonesKept(v: View, ps': seq<Page>)
    requires ZonesOk(v.pages, v.memBase, v.sizes) && |ps'| == |v.pages|
    requires forall p :: 0 <= p < |ps'| ==>
               ps'[p].reserved == v.pages[p].reserved && ps'[p].zoneNum == v.pages[p].zoneNum
    ensures ZonesOk(ps', v.memBase, v.sizes)
  {
    forall p: nat | p < |ps'| && !ps'[p].reserved
      ensures PageInZone(ps', v.memBase, v.sizes, p)
    {
      assert PageInZone(v.pages, v.memBase, v.sizes, p);
    }
    forall f | InZone(v.sizes, f)
      ensures OwnedBy(ps', PageNo(v.memBase, f), f.zone)
    {
      assert OwnedBy(v.pages, PageNo(v.memBase, f), f.zone);
    }
  }

  // The tables are in order, block b is out of them, and together they hold `total`.
  ghost predicate Pending(v: View, b: Block, total: set<Frame>) {
    && Ok(v)
    && Fits(v.sizes, b)
    && Frames(b) !! Held(v.blocks)
    && Held(v.blocks) + Frames(b) == total
  }

  lemma PendingHead(v: View, b: Block, total: set<Frame>)
    requires Pending(v, b, total)
    ensures Managed(v, Head(v.memBase, b)) && FrameOf(v, Head(v.memBase, b)) == Frame(b.zone, b.idx)
    ensures !v.pages[Head(v.memBase, b)].property && b.order < |v.areas| && b !in v.blocks
  {
    HeadFacts(v, b);
    var p := Head(v.memBase, b);
    MemberIffInRun(b, Frame(b.zone, b.idx));
    if v.pages[p].property || b in v.blocks {
      var c := if b in v.blocks then b else Block(b.zone, b.idx, v.pages[p].order);
      BlockIsHeld(v.blocks, c);
    }
  }

  /** Removing a free block leaves the tables in order, with the block in transit. */
  lemma TakeIsPending(v: View, b: Block)
    requires Ok(v) && b in v.blocks
    ensures b.order < |v.areas| && Head(v.memBase, b) < |v.pages| && v.areas[b.order].nrFree > 0
    ensures Pending(Take(v, b), b, Held(v.blocks))
  {
    RemoveBlock(v.sizes, v.blocks, b);
    HeadFacts(v, b);
    TakeLists(v.pages, v.areas, Head(v.memBase, b), b.order);
    TakeLinked(v, b);
    RunSize(b.zone, b.idx, Pow2(b.order));
    assert Held(v.blocks) == Held(v.blocks - {b}) + Frames(b);
  }

  /** Inserting a transit block that has no free sibling restores the tables. */
  lemma InsertCompletes(v: View, b: Block, total: set<Frame>)
    requires Pending(v, b, total)
    requires b.order < MAX_ORDER ==> Sib(b) !in v.blocks
    ensures b.order < |v.areas| && Head(v.memBase, b) < |v.pages|
    ensures Ok(Push(v, b)) && Held(Push(v, b).blocks) == total
  {
    PendingHead(v, b, total);
    AddBlock(v.sizes, v.blocks, b);
    PushLists(v.pages, v.areas, Head(v.memBase, b), b.order);
    PushLinked(v, b);
    RunSize(b.zone, b.idx, Pow2(b.order));
  }

  // Splitting a transit block: its upper half goes to the free list below.
  lemma SplitStaysPending(v: View, b: Block, total: set<Frame>, lo: Block, hi: Block)
    requires Pending(v, b, total) && b.order > 0
    requires lo == Block(b.zone, b.idx, b.order - 1) && hi == Block(b.zone, b.idx + Pow2(b.order - 1), b.order - 1)
    ensures hi.order < |v.areas| && Head(v.memBase, hi) < |v.pages|
    ensures Pending(Push(v, hi), lo, total)
  {
    var lo', hi' := Halves(v.sizes, b);
    assert Pending(v, hi, Held(v.blocks) + Frames(hi));
    MemberIffInRun(lo, Frame(lo.zone, lo.idx));
    if lo in v.blocks {
      BlockIsHeld(v.blocks, lo);
    }
    InsertCompletes(v, hi, Held(v.blocks) + Frames(hi));
  }

  // page_is_buddy
  predicate PageIsBuddy(ps: seq<Page>, p: nat, order: nat, zoneNum: int) {
    p < |ps| && ps[p].zoneNum == zoneNum && !ps[p].reserved && ps[p].property && ps[p].order == order
  }

  /** The test finds exactly a free sibling, also when the sibling's index lies outside the zone. */
  lemma BuddyTestIsExact(v: View, b: Block, total: set<Frame>)
    requires Pending(v, b, total)
    ensures PageIsBuddy(v.pages, Head(v.memBase, Sib(b)), b.order, b.zone) <==> Sib(b) in v.blocks
  {
    var s, p := Sib(b), Head(v.memBase, Sib(b));
    if PageIsBuddy(v.pages, p, b.order, b.zone) {
      assert PageInZone(v.pages, v.memBase, v.sizes, p);
      assert InZone(v.sizes, Frame(s.zone, s.idx));
    }
    if s in v.blocks {
      HeadFacts(v, s);
    }
  }

  // Merging: the free sibling leaves its list and the transit block doubles.
  lemma MergeStaysPending(v: View, b: Block, total: set<Frame>)
    requires Pending(v, b, total) && b.order < MAX_ORDER && Sib(b) in v.blocks
    ensures b.order < |v.areas| && Head(v.memBase, Sib(b)) < |v.pages| && v.areas[b.order].nrFree > 0
    ensures Pending(Take(v, Sib(b)), Parent(b), total)
  {
    hide Sibling, Floor, Run, ListsOk, ZonesOk, BlocksLinked, Canonical, FreeCount, Held;
    var s := Sib(b);
    TakeIsPending(v, s);
    MergeFits(v.sizes, b);
    ParentFrames(b);
    assert Held(v.blocks) == Held(v.blocks - {s}) + Frames(s);
  }
}
