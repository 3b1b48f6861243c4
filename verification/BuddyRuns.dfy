/**
  Whole runs of the buddy allocator: any sequence of alloc_pages and free_pages
  calls in which every allocation is freed at most once.
 */
module BuddyRuns {
  import opened Bits
  import opened BuddyBlocks
  import opened BuddyTables
  import opened BuddyPmm

  // A client either asks for n pages or gives back its i-th live allocation.
  datatype Request = Alloc(n: nat) | Release(i: nat)

  // A live allocation: n pages from `page`, which are the frames from `frame` on.
  datatype Claim = Claim(page: nat, n: nat, frame: Frame)

  ghost function FramesOf(c: Claim): set<Frame> {
    Run(c.frame.zone, c.frame.idx, c.n)
  }

  ghost function AllFrames(live: seq<Claim>): set<Frame> {
    if live == [] then {} else FramesOf(live[0]) + AllFrames(live[1..])
  }

  function TotalPages(live: seq<Claim>): nat {
    if live == [] then 0 else live[0].n + TotalPages(live[1..])
  }

  ghost predicate ClaimOk(v: View, c: Claim) {
    && 0 < c.n <= Pow2(MAX_ORDER)
    && c.frame.zone < |v.sizes| && c.frame.idx + c.n <= v.sizes[c.frame.zone]
    && PageNo(v.memBase, c.frame) == c.page
  }

  // Live allocations are pairwise disjoint, disjoint from the free frames, and account for all of `total`.
  ghost predicate RunOk(v: View, live: seq<Claim>, total: set<Frame>) {
    && (forall i :: 0 <= i < |live| ==> ClaimOk(v, live[i]))
    && (forall i, j :: 0 <= i < j < |live| ==> FramesOf(live[i]) !! FramesOf(live[j]))
    && AllFrames(live) !! Held(v.blocks)
    && AllFrames(live) + Held(v.blocks) == total
  }

  lemma {:induction false} MemberFrames(live: seq<Claim>, i: nat)
    requires i < |live|
    ensures FramesOf(live[i]) <= AllFrames(live)
  {
    if i > 0 {
      MemberFrames(live[1..], i - 1);
    }
  }

  lemma {:induction false} AppendFrames(live: seq<Claim>, c: Claim)
    ensures AllFrames(live + [c]) == AllFrames(live) + FramesOf(c)
    ensures TotalPages(live + [c]) == TotalPages(live) + c.n
  {
    if live == [] {
      assert live + [c] == [c];
      assert AllFrames([c]) == FramesOf(c) + AllFrames([]);
    } else {
      assert (live + [c])[1..] == live[1..] + [c];
      AppendFrames(live[1..], c);
    }
  }

  lemma {:induction false} DropFrames(live: seq<Claim>, k: nat)
    requires k < |live|
    requires forall i, j :: 0 <= i < j < |live| ==> FramesOf(live[i]) !! FramesOf(live[j])
    ensures AllFrames(live[..k] + live[k + 1..]) == AllFrames(live) - FramesOf(live[k])
    ensures FramesOf(live[k]) <= AllFrames(live)
  {
    var rest := live[..k] + live[k + 1..];
    if k == 0 {
      assert rest == live[1..];
      DisjointFromRest(live[0], live[1..]);
    } else {
      assert live[1..][..k - 1] + live[1..][k..] == rest[1..];
      assert live[1..][k - 1] == live[k];
      DropFrames(live[1..], k - 1);
      assert rest[0] == live[0];
    }
  }

  lemma {:induction false} DisjointFromRest(c: Claim, live: seq<Claim>)
    requires forall i :: 0 <= i < |live| ==> FramesOf(c) !! FramesOf(live[i])
    ensures FramesOf(c) !! AllFrames(live)
  {
    if live != [] {
      DisjointFromRest(c, live[1..]);
    }
  }

  /** The frames of the live allocations number exactly the pages asked for. */
  lemma {:induction false} LiveSize(live: seq<Claim>)
    requires forall i, j :: 0 <= i < j < |live| ==> FramesOf(live[i]) !! FramesOf(live[j])
    ensures |AllFrames(live)| == TotalPages(live)
  {
    if live != [] {
      DisjointFromRest(live[0], live[1..]);
      LiveSize(live[1..]);
      RunSize(live[0].frame.zone, live[0].frame.idx, live[0].n);
    }
  }

  lemma AddClaim(v: View, v': View, live: seq<Claim>, total: set<Frame>, c: Claim)
    requires RunOk(v, live, total) && v'.sizes == v.sizes && v'.memBase == v.memBase && ClaimOk(v', c)
    requires FramesOf(c) <= Held(v.blocks) && Held(v'.blocks) == Held(v.blocks) - FramesOf(c)
    ensures RunOk(v', live + [c], total)
  {
    AppendFrames(live, c);
    forall i, j | 0 <= i < j < |live + [c]|
      ensures FramesOf((live + [c])[i]) !! FramesOf((live + [c])[j])
    {
      MemberFrames(live, i);
    }
  }

  lemma DropClaim(v: View, v': View, live: seq<Claim>, total: set<Frame>, k: nat)
    requires RunOk(v, live, total) && v'.sizes == v.sizes && v'.memBase == v.memBase && k < |live|
    requires Held(v'.blocks) == Held(v.blocks) + FramesOf(live[k])
    ensures RunOk(v', live[..k] + live[k + 1..], total)
  {
    DropFrames(live, k);
  }

  // A claim's pages can be handed to free_pages, and freeing them cannot panic.
  lemma ClaimCanBeFreed(v: View, c: Claim)
    requires Ok(v) && ClaimOk(v, c)
    ensures Managed(v, c.page) && FrameOf(v, c.page) == c.frame && !HoldsBigRun(c.frame.idx, c.n)
  {
    PagesAreFrames(v, c.page, c.frame);
    TooShort(c.frame.idx, c.n);
  }

  // No aligned run of the size that n pages need is among the given frames.
  ghost predicate NoRunFor(sizes: seq<nat>, free: set<Frame>, n: nat) {
    forall r :: Fits(sizes, r) && r.order == OrderFor(n) ==> !(Frames(r) <= free)
  }

  // What one request does to the live allocations: n of the frames that are not live are taken if they contain an
  // aligned run that is large enough, and a release gives back exactly its allocation.
  ghost predicate Answered(sizes: seq<nat>, total: set<Frame>, was: seq<Claim>, now: seq<Claim>, r: Request) {
    match r
    case Alloc(n) =>
      var free := total - AllFrames(was);
      if 0 < n <= Pow2(MAX_ORDER) && !NoRunFor(sizes, free, n) then
        |now| == |was| + 1 && now[..|was|] == was && now[|was|].n == n && FramesOf(now[|was|]) <= free
      else now == was
    case Release(i) => now == if i < |was| then was[..i] + was[i + 1..] else was
  }

  // The search of the lists, in terms of the frames that are not live.
  lemma SearchOfRun(v: View, live: seq<Claim>, total: set<Frame>, n: nat)
    requires Ok(v) && RunOk(v, live, total) && 0 < n <= Pow2(MAX_ORDER)
    ensures Held(v.blocks) == total - AllFrames(live)
    ensures FirstArea(v.areas, OrderFor(n)) > MAX_ORDER <==> NoRunFor(v.sizes, total - AllFrames(live), n)
  {
    hide Ok, Held, FirstArea, Fits;
    SmallOrder(n);
    SearchIsComplete(v, OrderFor(n));
  }

  lemma SmallOrder(n: nat)
    requires 0 < n <= Pow2(MAX_ORDER)
    ensures OrderFor(n) <= MAX_ORDER
  {}

  // Free frames and pages handed out.
  lemma Balance(v: View, live: seq<Claim>, total: set<Frame>)
    requires RunOk(v, live, total)
    ensures |Held(v.blocks)| + TotalPages(live) == |total| && (live == [] ==> Held(v.blocks) == total)
  {
    hide Held, FramesOf;
    LiveSize(live);
  }

  lemma NothingLive(v: View)
    ensures RunOk(v, [], Held(v.blocks))
  {}

  /**
    Any run keeps the tables in order and the live allocations apart from each other and from the
    free frames, loses no page, and hits no assertion; each request is answered as Answered says.
    Once nothing is live, the free blocks are exactly those of the start.
   */
  method Serve(pmm: BuddyManager, requests: seq<Request>)
    returns (live: seq<Claim>, panicked: bool, ghost states: seq<seq<Claim>>)
    requires pmm.Valid()
    modifies pmm, pmm.pages, pmm.freeArea
    ensures pmm.Valid() && pmm.memBase == old(pmm.memBase) && pmm.sizes == old(pmm.sizes)
    ensures !panicked && RunOk(pmm.Tables(), live, old(pmm.Free()))
    ensures |pmm.Free()| + TotalPages(live) == |old(pmm.Free())|
    ensures live == [] ==> pmm.blocks == old(pmm.blocks)
    ensures |states| == |requests| + 1 && states[0] == [] && states[|requests|] == live
    ensures forall i :: 0 <= i < |requests| ==>
              Answered(pmm.sizes, old(pmm.Free()), states[i], states[i + 1], requests[i])
  {
    hide Answered, RunOk, Ok, Held;
    live, panicked, states := [], false, [[]];
    NothingLive(pmm.Tables());
    var k := 0;
    while k < |requests|
      invariant 0 <= k <= |requests| && !panicked
      invariant pmm.Valid() && pmm.memBase == old(pmm.memBase) && pmm.sizes == old(pmm.sizes)
      invariant RunOk(pmm.Tables(), live, old(pmm.Free()))
      invariant |states| == k + 1 && states[0] == [] && states[k] == live
      invariant forall i :: 0 <= i < k ==>
                  Answered(pmm.sizes, old(pmm.Free()), states[i], states[i + 1], requests[i])
    {
      live, panicked := ServeOne(pmm, requests[k], live, old(pmm.Free()));
      states := states + [live];
      k := k + 1;
    }
    Balance(pmm.Tables(), live, old(pmm.Free()));
    if live == [] {
      SameFreeSameBlocks(pmm.Tables(), old(pmm.Tables()));
    }
  }

  method ServeOne(pmm: BuddyManager, request: Request, live0: seq<Claim>, ghost total: set<Frame>)
    returns (live: seq<Claim>, panicked: bool)
    requires pmm.Valid() && RunOk(pmm.Tables(), live0, total)
    modifies pmm, pmm.pages, pmm.freeArea
    ensures pmm.Valid() && pmm.memBase == old(pmm.memBase) && pmm.sizes == old(pmm.sizes)
    ensures !panicked && RunOk(pmm.Tables(), live, total)
    ensures Answered(pmm.sizes, total, live0, live, request)
  {
    hide Ok, Held, Run, FirstArea, Fits, OrderFrom, NoRunFor;
    live, panicked := live0, false;
    ghost var v := pmm.Tables();
    match request {
      case Alloc(n) =>
        if 0 < n <= Pow2(MAX_ORDER) {
          SearchOfRun(v, live, total, n);
          var r := pmm.AllocPages(n);
          if r.Allocated? {
            var c := ClaimAt(pmm, r.page, n);
            AddClaim(v, pmm.Tables(), live, total, c);
            live := live + [c];
          }
        }
      case Release(i) =>
        if i < |live| {
          MemberFrames(live, i);
          ClaimCanBeFreed(v, live[i]);
          panicked := pmm.FreePages(live[i].page, live[i].n);
          DropClaim(v, pmm.Tables(), live, total, i);
          live := live[..i] + live[i + 1..];
        }
    }
  }

  method ClaimAt(pmm: BuddyManager, page: nat, n: nat) returns (c: Claim)
    requires pmm.Valid() && 0 < n <= Pow2(MAX_ORDER) && pmm.InOneZone(page, n)
    ensures c.n == n && c.page == page && ClaimOk(pmm.Tables(), c) && FramesOf(c) == pmm.FramesFrom(page, n)
  {
    hide ListsOk, BlocksLinked, Canonical, Held, Run, FreeCount, Pow2;
    PagesAreFrames(pmm.Tables(), page, FrameOf(pmm.Tables(), page));
    c := Claim(page, n, Frame(pmm.pages[page].zoneNum, pmm.Page2Idx(page)));
  }

  lemma SameFreeSameBlocks(v: View, v': View)
    requires Ok(v) && Ok(v') && v.sizes == v'.sizes && Held(v.blocks) == Held(v'.blocks)
    ensures v.blocks == v'.blocks
  {
    CanonicalFormIsUnique(v.sizes, v.blocks, v'.blocks);
  }

  /** Allocating n pages and freeing the same n pages restores exactly the same free blocks. */
  method AllocThenFree(pmm: BuddyManager, n: nat) returns (r: AllocResult, panicked: bool)
    requires pmm.Valid() && n > 0
    modifies pmm, pmm.pages, pmm.freeArea
    ensures pmm.Valid() && !panicked && pmm.blocks == old(pmm.blocks)
  {
    hide ListsOk, ZonesOk, BlocksLinked, Canonical, Held, Run, HoldsBigRun;
    hide FirstArea, OrderFrom, SamePlace, RefsCleared, FreeCount;
    panicked := false;
    ghost var v, free := pmm.Tables(), pmm.Free();
    r := pmm.AllocPages(n);
    if r.Allocated? {
      TooShort(FrameOf(pmm.Tables(), r.page).idx, n);
      ghost var run := pmm.FramesFrom(r.page, n);
      panicked := pmm.FreePages(r.page, n);
      PutBack(free, run);
    }
    SameFreeSameBlocks(pmm.Tables(), v);
  }

  // ---- a run that is too long

  // Twice the largest block from the start of a zone.
  lemma ZoneStartIsBig()
    ensures HoldsBigRun(0, Pow2(MAX_ORDER + 1))
  {
    FloorRange(0, MAX_ORDER + 1);
    BigRunAt(0, 0, Pow2(MAX_ORDER + 1));
  }

  // Page by page, until there is none.
  method TakeEverything(pmm: BuddyManager)
    requires pmm.Valid()
    modifies pmm, pmm.pages, pmm.freeArea
    ensures pmm.Valid() && pmm.Free() == {} && pmm.memBase == old(pmm.memBase) && pmm.sizes == old(pmm.sizes)
    ensures SamePlace(old(pmm.pages[..]), pmm.pages[..])
  {
    hide Ok, Held, Run, FirstArea, OrderFrom, SamePlace, RefsCleared, Pow2;
    ghost var ps := pmm.pages[..];
    Unchanged(ps, 0);
    OnePage();
    var r := Panic;
    while !r.NoMemory?
      invariant pmm.Valid() && pmm.memBase == old(pmm.memBase) && pmm.sizes == old(pmm.sizes)
      invariant SamePlace(ps, pmm.pages[..]) && (r.NoMemory? ==> pmm.Free() == {})
      decreases |pmm.Free()|, !r.NoMemory?
    {
      ghost var v := pmm.Tables();
      r := pmm.AllocPages(1);
      PlaceTwice(ps, v.pages, pmm.pages[..]);
      if r.NoMemory? {
        NoPageLeft(v);
      } else {
        Smaller(v, pmm.Tables(), r.page);
      }
    }
  }

  lemma OnePage()
    ensures 1 <= Pow2(MAX_ORDER)
  {}

  lemma PlaceTwice(a: seq<Page>, b: seq<Page>, c: seq<Page>)
    requires SamePlace(a, b) && SamePlace(b, c)
    ensures SamePlace(a, c)
  {}

  lemma Smaller(v: View, w: View, page: nat)
    requires Ok(w) && Managed(w, page)
    requires Run(FrameOf(w, page).zone, FrameOf(w, page).idx, 1) <= Held(v.blocks)
    requires Held(w.blocks) == Held(v.blocks) - Run(FrameOf(w, page).zone, FrameOf(w, page).idx, 1)
    ensures |Held(w.blocks)| < |Held(v.blocks)|
  {
    hide ListsOk, ZonesOk, BlocksLinked, Canonical, FreeCount, Held;
    var f := FrameOf(w, page);
    RunSize(f.zone, f.idx, 1);
    var run := Run(f.zone, f.idx, 1);
    assert Held(v.blocks) == Held(w.blocks) + run;
  }

  /** A zone of 2048 pages, taken page by page and then given back in one call: the assertion fires. */
  method FreeTooMuch() returns (panicked: bool)
    ensures panicked
  {
    var n := Pow2(MAX_ORDER + 1);
    var pmm := new BuddyManager(seq(n, _ => Page(0, true, false, 0, 0)));
    pmm.InitMemmap(0, n);
    TakeEverything(pmm);
    WholeZone(pmm.Tables(), n);
    ZoneStartIsBig();
    hide Ok, Held, Run, HoldsBigRun, Pow2, SamePlace, RefsCleared;
    panicked := pmm.FreePages(0, n);
  }

  lemma WholeZone(v: View, n: nat)
    requires Ok(v) && v.memBase == [0] && v.sizes == [n] && n > 0
    ensures Managed(v, 0) && FrameOf(v, 0) == Frame(0, 0)
  {
    PagesAreFrames(v, 0, Frame(0, 0));
  }

  lemma PutBack(free: set<Frame>, run: set<Frame>)
    requires run <= free
    ensures free - run + run == free
  {}
}
