/**
  The theory behind the buddy allocator: sets of aligned free blocks over zones.
  A frame is a page named by its zone and its index in that zone (page2idx).
  The main result, BlocksAreMaximal, says that in a canonical set the blocks are
  exactly the maximal aligned runs of the free frames, so the free frames alone
  determine the blocks.
 */
module BuddyBlocks {
  import opened Bits

  const MAX_ORDER: nat := 10

  datatype Frame = Frame(zone: nat, idx: nat)

  datatype Block = Block(zone: nat, idx: nat, order: nat)

  function Sib(b: Block): Block {
    Block(b.zone, Sibling(b.idx, b.order), b.order)
  }

  function Parent(b: Block): Block {
    Block(b.zone, Floor(b.idx, b.order + 1), b.order + 1)
  }

  function BlockAt(f: Frame, o: nat): Block {
    Block(f.zone, Floor(f.idx, o), o)
  }

  predicate InRun(zone: nat, idx: nat, n: nat, f: Frame) {
    f.zone == zone && idx <= f.idx < idx + n
  }

  // The n frames of a zone from index idx on.
  ghost function Run(zone: nat, idx: nat, n: nat): set<Frame> {
    set i: nat | i < idx + n && InRun(zone, idx, n, Frame(zone, i)) :: Frame(zone, i)
  }

  lemma RunMembers(zone: nat, idx: nat, n: nat)
    ensures forall f :: f in Run(zone, idx, n) <==> InRun(zone, idx, n, f)
  {
    forall f | InRun(zone, idx, n, f)
      ensures f in Run(zone, idx, n)
    {
      assert InRun(zone, idx, n, Frame(zone, f.idx));
    }
  }

  ghost function Frames(b: Block): set<Frame> {
    Run(b.zone, b.idx, Pow2(b.order))
  }

  lemma {:induction false} RunSize(zone: nat, idx: nat, n: nat)
    ensures |Run(zone, idx, n)| == n
  {
    RunMembers(zone, idx, n);
    if n == 0 {
      assert Run(zone, idx, 0) == {};
    } else {
      RunSize(zone, idx, n - 1);
      RunMembers(zone, idx, n - 1);
      assert Run(zone, idx, n) == Run(zone, idx, n - 1) + {Frame(zone, idx + n - 1)};
    }
  }

  lemma RunSplit(zone: nat, idx: nat, m: nat, n: nat)
    ensures Run(zone, idx, m + n) == Run(zone, idx, m) + Run(zone, idx + m, n)
    ensures Run(zone, idx, m) !! Run(zone, idx + m, n)
  {
    RunMembers(zone, idx, m);
    RunMembers(zone, idx + m, n);
    RunMembers(zone, idx, m + n);
  }

  // The block is aligned and lies inside its zone; sizes[z] is the number of frames of zone z.
  ghost predicate Fits(sizes: seq<nat>, b: Block) {
    && b.order <= MAX_ORDER
    && b.zone < |sizes|
    && Floor(b.idx, b.order) == b.idx
    && b.idx + Pow2(b.order) <= sizes[b.zone]
  }

  ghost predicate Covers(blocks: set<Block>, f: Frame, o: nat) {
    o <= MAX_ORDER && BlockAt(f, o) in blocks
  }

  ghost predicate Covered(blocks: set<Block>, f: Frame) {
    exists o: nat :: Covers(blocks, f, o)
  }

  // The frames the blocks hold.
  ghost function Held(blocks: set<Block>): set<Frame> {
    set b: Block, f: Frame | b in blocks && f in Frames(b) :: f
  }

  ghost predicate AllFit(sizes: seq<nat>, blocks: set<Block>) {
    forall b :: b in blocks ==> Fits(sizes, b)
  }

  // No frame lies in two blocks.
  ghost predicate Disjoint(blocks: set<Block>) {
    forall f: Frame, o: nat, o': nat :: Covers(blocks, f, o) && Covers(blocks, f, o') ==> o == o'
  }

  // No two siblings below the top order are both in the set.
  ghost predicate Coalesced(blocks: set<Block>) {
    forall b :: b in blocks && b.order < MAX_ORDER ==> Sib(b) !in blocks
  }

  ghost predicate Canonical(sizes: seq<nat>, blocks: set<Block>) {
    AllFit(sizes, blocks) && Disjoint(blocks) && Coalesced(blocks)
  }

  // ---- blocks as runs of frames

  lemma MemberIffInRun(b: Block, f: Frame)
    requires Floor(b.idx, b.order) == b.idx
    ensures f in Frames(b) <==> BlockAt(f, b.order) == b
  {
    RunMembers(b.zone, b.idx, Pow2(b.order));
    FloorRange(f.idx, b.order);
    if f in Frames(b) {
      FloorUnique(f.idx, b.idx, b.order);
    }
  }

  lemma HeldIffCovered(sizes: seq<nat>, blocks: set<Block>, f: Frame)
    requires AllFit(sizes, blocks)
    ensures f in Held(blocks) <==> Covered(blocks, f)
  {
    if f in Held(blocks) {
      var b :| b in blocks && f in Frames(b);
      MemberIffInRun(b, f);
      assert Covers(blocks, f, b.order);
    }
    if Covered(blocks, f) {
      var o :| Covers(blocks, f, o);
      MemberIffInRun(BlockAt(f, o), f);
    }
  }

  lemma SibFacts(b: Block)
    requires Floor(b.idx, b.order) == b.idx
    ensures Floor(Sib(b).idx, b.order) == Sib(b).idx && Sib(b) != b
    ensures Sib(Sib(b)) == b && Parent(Sib(b)) == Parent(b)
  {
    SiblingFacts(b.idx, b.order);
  }

  // A parent's frames are those of a block and of its sibling.
  lemma ParentFrames(b: Block)
    requires Floor(b.idx, b.order) == b.idx
    ensures Floor(Parent(b).idx, b.order + 1) == Parent(b).idx
    ensures Frames(Parent(b)) == Frames(b) + Frames(Sib(b)) && Frames(b) !! Frames(Sib(b))
    ensures Parent(b).idx == b.idx || Parent(b).idx == Sib(b).idx
  {
    hide Floor, Sibling;
    FloorFloor(b.idx, b.order + 1, b.order + 1);
    SiblingCases(b.idx, b.order);
    RunSplit(b.zone, Parent(b).idx, Pow2(b.order), Pow2(b.order));
  }

  lemma MergeFits(sizes: seq<nat>, b: Block)
    requires Fits(sizes, b) && Fits(sizes, Sib(b)) && b.order < MAX_ORDER
    ensures Fits(sizes, Parent(b))
  {
    hide Floor, Sibling;
    FloorFloor(b.idx, b.order + 1, b.order + 1);
    SiblingCases(b.idx, b.order);
  }

  // The halves of a fitting block are fitting siblings.
  lemma Halves(sizes: seq<nat>, b: Block) returns (lo: Block, hi: Block)
    requires Fits(sizes, b) && b.order > 0
    ensures lo == Block(b.zone, b.idx, b.order - 1) && hi == Block(b.zone, b.idx + Pow2(b.order - 1), b.order - 1)
    ensures Fits(sizes, lo) && Fits(sizes, hi) && Sib(lo) == hi && Sib(hi) == lo && Parent(lo) == b == Parent(hi)
    ensures Frames(b) == Frames(lo) + Frames(hi) && Frames(lo) !! Frames(hi)
  {
    hide Floor, Sibling;
    var o := b.order - 1;
    FloorWeaken(b.idx, o, o + 1);
    SiblingCases(b.idx, o);
    lo, hi := Block(b.zone, b.idx, o), Block(b.zone, b.idx + Pow2(o), o);
    SibFacts(lo);
    ParentFrames(lo);
  }

  // ---- the canonical form

  // If every frame of a fitting run is free, one free block holds the whole run.
  lemma {:induction false} FullRunIsHeld(sizes: seq<nat>, blocks: set<Block>, r: Block) returns (o: nat)
    requires Canonical(sizes, blocks) && Fits(sizes, r) && Frames(r) <= Held(blocks)
    ensures r.order <= o && Covers(blocks, Frame(r.zone, r.idx), o)
    decreases r.order
  {
    hide Held, Run, Disjoint, Floor, Sibling, Pow2;
    var f := Frame(r.zone, r.idx);
    if r.order == 0 {
      MemberIffInRun(r, f);
      HeldIffCovered(sizes, blocks, f);
      o :| Covers(blocks, f, o);
    } else {
      var lo, hi := Halves(sizes, r);
      o := FullRunIsHeld(sizes, blocks, lo);
      if o < r.order {
        assert lo in blocks;
        o := FullRunIsHeld(sizes, blocks, hi);
        assert o < r.order ==> hi in blocks;
        FloorFloor(lo.idx, r.order, o);
        FloorFloor(hi.idx, r.order, o);
      }
    }
  }

  // A maximal aligned run of a set of frames: its parent run is not in the set.
  ghost predicate MaximalRun(sizes: seq<nat>, free: set<Frame>, b: Block) {
    && Fits(sizes, b)
    && Frames(b) <= free
    && (b.order < MAX_ORDER ==> !(Fits(sizes, Parent(b)) && Frames(Parent(b)) <= free))
  }

  lemma BlockIsHeld(blocks: set<Block>, b: Block)
    requires b in blocks
    ensures Frames(b) <= Held(blocks) && Frame(b.zone, b.idx) in Held(blocks)
  {
    RunMembers(b.zone, b.idx, Pow2(b.order));
    assert Frame(b.zone, b.idx) in Frames(b);
  }

  /** The free blocks are exactly the maximal aligned runs of the free frames. */
  lemma BlocksAreMaximal(sizes: seq<nat>, blocks: set<Block>, b: Block)
    requires Canonical(sizes, blocks)
    ensures b in blocks <==> MaximalRun(sizes, Held(blocks), b)
  {
    var f := Frame(b.zone, b.idx);
    if b in blocks {
      BlockIsHeld(blocks, b);
      if b.order < MAX_ORDER && Fits(sizes, Parent(b)) && Frames(Parent(b)) <= Held(blocks) {
        var o := FullRunIsHeld(sizes, blocks, Parent(b));
        FloorFloor(b.idx, b.order + 1, o);
        assert Covers(blocks, f, o) && Covers(blocks, f, b.order);
      }
    }
    if MaximalRun(sizes, Held(blocks), b) && b !in blocks {
      var o := FullRunIsHeld(sizes, blocks, b);
      var big := BlockAt(f, o);
      BlockIsHeld(blocks, big);
      SubBlock(sizes, big, f, b.order + 1);
    }
  }

  // The aligned run of smaller order around a frame of a fitting block lies inside the block.
  lemma SubBlock(sizes: seq<nat>, big: Block, f: Frame, o: nat)
    requires Fits(sizes, big) && o <= big.order && BlockAt(f, big.order) == big
    ensures Fits(sizes, BlockAt(f, o)) && Frames(BlockAt(f, o)) <= Frames(big)
  {
    FloorNested(f.idx, o, big.order);
    FloorFloor(f.idx, o, o);
    RunMembers(big.zone, big.idx, Pow2(big.order));
    RunMembers(big.zone, Floor(f.idx, o), Pow2(o));
  }

  /** Canonical block sets with the same free frames are the same set. */
  lemma CanonicalFormIsUnique(sizes: seq<nat>, blocks: set<Block>, blocks': set<Block>)
    requires Canonical(sizes, blocks) && Canonical(sizes, blocks')
    requires Held(blocks) == Held(blocks')
    ensures blocks == blocks'
  {
    forall b
      ensures b in blocks <==> b in blocks'
    {
      BlocksAreMaximal(sizes, blocks, b);
      BlocksAreMaximal(sizes, blocks', b);
    }
  }

  // ---- adding and removing a block

  lemma RemoveBlock(sizes: seq<nat>, blocks: set<Block>, b: Block)
    requires Canonical(sizes, blocks) && b in blocks
    ensures Canonical(sizes, blocks - {b})
    ensures Frames(b) <= Held(blocks) && Held(blocks - {b}) == Held(blocks) - Frames(b)
  {
    BlockIsHeld(blocks, b);
    var rest := blocks - {b};
    assert forall f: Frame, o: nat :: Covers(rest, f, o) ==> Covers(blocks, f, o);
    forall f
      ensures f in Held(rest) <==> f in Held(blocks) && f !in Frames(b)
    {
      HeldIffCovered(sizes, blocks, f);
      HeldIffCovered(sizes, rest, f);
      MemberIffInRun(b, f);
      assert forall o: nat :: Covers(blocks, f, o) && BlockAt(f, o) != b ==> Covers(rest, f, o);
      assert f in Frames(b) ==> Covers(blocks, f, b.order);
      assert forall o: nat :: Covers(rest, f, o) ==> BlockAt(f, o) != b;
    }
  }

  lemma AddBlock(sizes: seq<nat>, blocks: set<Block>, b: Block)
    requires Canonical(sizes, blocks) && Fits(sizes, b)
    requires Frames(b) !! Held(blocks)
    requires b.order < MAX_ORDER ==> Sib(b) !in blocks
    ensures b !in blocks && Canonical(sizes, blocks + {b})
    ensures Held(blocks + {b}) == Held(blocks) + Frames(b)
  {
    var more := blocks + {b};
    MemberIffInRun(b, Frame(b.zone, b.idx));
    if b in blocks {
      BlockIsHeld(blocks, b);
      assert false;
    }
    forall f: Frame, o: nat | Covers(more, f, o)
      ensures (Covers(blocks, f, o) && f in Held(blocks)) || (o == b.order && f in Frames(b))
    {
      MemberIffInRun(b, f);
      HeldIffCovered(sizes, blocks, f);
      assert BlockAt(f, o) != b ==> Covers(blocks, f, o);
    }
    forall b' | b' in more && b'.order < MAX_ORDER
      ensures Sib(b') !in more
    {
      SibFacts(b');
    }
  }
}
