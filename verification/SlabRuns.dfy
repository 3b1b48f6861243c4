/**
  Whole runs of kmalloc and kfree over the buddy allocator.
 */
module SlabRuns {
  import opened Bits
  import opened SlabLayout
  import opened SlabPool
  import opened SlabPages
  import opened SlabAllocator
  import opened BuddyPages
  import BuddyTables

  // A caller asks for an object or gives back its i-th one.
  datatype Request = Alloc(size: nat) | Release(i: nat)

  // An object a caller holds, and the slot it is.
  datatype Claim = Claim(address: nat, size: nat)

  datatype Slot = Slot(slab: nat, index: nat)

  ghost predicate Holds(p: Pool, c: Claim, o: Slot) {
    User(p, o.slab, o.index) && c.address == Address(p, o.slab, o.index) && 0 < c.size <= Size(p, o.slab)
  }

  // The callers' objects are the claims, each once.
  ghost predicate Claims(p: Pool, live: seq<Claim>, slots: seq<Slot>) {
    && |slots| == |live| && (forall i :: 0 <= i < |live| ==> Holds(p, live[i], slots[i]))
    && (forall i, j :: 0 <= i < j < |slots| ==> slots[i] != slots[j])
    && (forall t, k :: User(p, t, k) ==> Slot(t, k) in slots)
  }

  lemma StillHolds(p: Pool, q: Pool, c: Claim, o: Slot)
    requires Holds(p, c, o) && User(q, o.slab, o.index) && (Kept(p, q) || Kept(q, p))
    ensures Holds(q, c, o)
  {
    hide Layout, IsHome;
  }

  lemma ClaimAdded(p: Pool, q: Pool, live: seq<Claim>, slots: seq<Slot>, c: Claim, o: Slot)
    requires Claims(p, live, slots) && OneMore(p, q, o.slab, o.index) && Kept(p, q) && Holds(q, c, o)
    ensures Claims(q, live + [c], slots + [o])
  {
    hide Holds, Kept, Live, IsHome;
    forall i | 0 <= i < |live| ensures Holds(q, live[i], slots[i]) && slots[i] != o {
      HolderIsUser(p, live[i], slots[i]);
      StillHolds(p, q, live[i], slots[i]);
    }
    forall t, k | User(q, t, k) ensures Slot(t, k) in slots + [o] {
      assert Slot(t, k) in slots || Slot(t, k) == o;
    }
  }

  lemma HolderIsUser(p: Pool, c: Claim, o: Slot)
    requires Holds(p, c, o)
    ensures User(p, o.slab, o.index) && Live(p, o.slab, o.index)
  {}

  lemma ClaimDropped(p: Pool, q: Pool, live: seq<Claim>, slots: seq<Slot>, n: nat)
    requires Claims(p, live, slots) && n < |live| && OneLess(p, q, slots[n].slab, slots[n].index) && Kept(q, p)
    ensures Claims(q, live[..n] + live[n + 1..], slots[..n] + slots[n + 1..])
  {
    hide Holds, Kept, User;
    var ls, os := live[..n] + live[n + 1..], slots[..n] + slots[n + 1..];
    forall i | 0 <= i < |ls| ensures Holds(q, ls[i], os[i]) {
      var k := if i < n then i else i + 1;
      assert ls[i] == live[k] && os[i] == slots[k] && slots[k] != slots[n];
      HolderIsUser(p, live[k], slots[k]);
      StillHolds(p, q, live[k], slots[k]);
    }
    forall t, k | User(q, t, k) ensures Slot(t, k) in os {
      var i :| 0 <= i < |slots| && slots[i] == Slot(t, k);
      assert os[if i < n then i else i - 1] == Slot(t, k);
    }
  }

  // The bytes asked for do not meet.
  lemma ClaimsApart(p: Pool, live: seq<Claim>, slots: seq<Slot>, i: nat, j: nat)
    requires PoolOk(p) && Claims(p, live, slots) && i < |live| && j < |live| && i != j
    ensures Apart(live[i].address, live[i].size, live[j].address, live[j].size)
  {
    hide PoolOk, Layout, IsHome, Pow2;
    assert Holds(p, live[i], slots[i]) && Holds(p, live[j], slots[j]);
    ObjectsApart(p, slots[i].slab, slots[i].index, slots[j].slab, slots[j].index);
  }

  /**
    An object allocated and freed again: callers hold the objects they held, and there are the same slabs and the same
    free blocks, also if caches grew on the way.
   */
  method AllocThenFree(slab: SlabAllocator, size: nat, ghost others: set<nat>, ghost total: set<nat>)
    returns (r: KResult)
    requires slab.Sound(others, total) && size > 0
    modifies slab, slab.pmm`blocks, slab.pmm.pages, slab.pmm.freeArea
    ensures slab.Sound(others, total) && slab.slabs.Keys == old(slab.slabs.Keys)
    ensures forall t, k :: User(slab.P(), t, k) <==> old(User(slab.P(), t, k))
    ensures slab.pmm.blocks == old(slab.pmm.blocks)
  {
    hide PoolOk, PagesOk, Accounts, InUse, Kept, Separate, Allotted, OneLess, SameZones, Layout, Pow2, User;
    ghost var p, v := slab.P(), slab.pmm.Tables();
    ghost var s, j;
    r, s, j := slab.KMalloc(size, others, total);
    if r.Got? {
      ghost var q, w := slab.P(), slab.pmm.Tables();
      GotOne(p, q, CacheFor(size), s, j, r.address, size);
      slab.KFree(r.address, s, j, others, total);
      ThereAndBack(p, q, slab.P(), s, j);
      ZonesTwice(v, w, slab.pmm.Tables());
      AccountsSame(slab.P(), p, slab.pmm.Tables(), others, total);
      AccountsFree(p, v, slab.pmm.Tables(), others, total);
      SamePagesSameBlocks(v, slab.pmm.Tables());
    }
  }

  lemma GotOne(p: Pool, q: Pool, c: nat, s: nat, j: nat, address: nat, size: nat)
    requires Allotted(p, q, c, s, j) && Separate(q, s, j, address, size)
    ensures OneMore(p, q, s, j) && User(q, s, j) && address == Address(q, s, j)
  {
    hide Layout, IsHome, Live, Pow2, Apart;
  }

  lemma ThereAndBack(p: Pool, q: Pool, r: Pool, s: nat, j: nat)
    requires PoolOk(p) && InUse(p) && PoolOk(r) && InUse(r) && Kept(p, q) && Kept(r, q)
    requires OneMore(p, q, s, j) && OneLess(q, r, s, j)
    ensures (forall t, k :: User(r, t, k) <==> User(p, t, k)) && r.slabs.Keys == p.slabs.Keys && Kept(r, p)
  {
    hide PoolOk, InUse, Kept, Live, IsHome;
    forall t, k ensures User(r, t, k) <==> User(p, t, k) {}
    ObjectsDetermineSlabs(p, q, r);
  }

  // What one request does to the objects that callers hold.
  ghost predicate Answered(was: seq<Claim>, now: seq<Claim>, r: Request) {
    match r
    case Alloc(size) =>
      || now == was
      || (0 < size <= Pow2(MAX_SIZE_ORDER) && |now| == |was| + 1 && now[..|was|] == was && now[|was|].size == size)
    case Release(i) => now == if i < |was| then was[..i] + was[i + 1..] else was
  }

  // A request that changes nothing: an impossible size, no object left, or a release of nothing.
  ghost predicate Refusable(p: Pool, v: BuddyTables.View, r: Request, live: seq<Claim>)
    requires BuddyTables.Ok(v) && Basic(p)
  {
    match r
    case Alloc(size) => size == 0 || size > Pow2(MAX_SIZE_ORDER) || NoObject(p, v, size)
    case Release(i) => i >= |live|
  }

  method ServeOne(slab: SlabAllocator, r: Request, live0: seq<Claim>, ghost slots0: seq<Slot>,
                  ghost others: set<nat>, ghost total: set<nat>)
    returns (live: seq<Claim>, ghost slots: seq<Slot>)
    requires slab.Sound(others, total) && Claims(slab.P(), live0, slots0)
    modifies slab, slab.pmm`blocks, slab.pmm.pages, slab.pmm.freeArea
    ensures slab.Sound(others, total) && Claims(slab.P(), live, slots)
    ensures SameZones(old(slab.pmm.Tables()), slab.pmm.Tables())
    ensures Answered(live0, live, r) && (live == live0 ==> Refusable(old(slab.P()), old(slab.pmm.Tables()), r, live0))
  {
    hide PoolOk, PagesOk, Accounts, InUse, Claims, Kept, Separate, OneMore, OneLess, SameZones, Layout, Pow2;
    live, slots := live0, slots0;
    ghost var p, v := slab.P(), slab.pmm.Tables();
    KeptSame(p, v);
    match r {
      case Alloc(size) =>
        if size > 0 {
          var got, s, j := slab.KMalloc(size, others, total);
          if got.Got? {
            NewHolder(slab.P(), s, j, got.address, size);
            ClaimAdded(p, slab.P(), live, slots, Claim(got.address, size), Slot(s, j));
            live, slots := live + [Claim(got.address, size)], slots + [Slot(s, j)];
          }
        }
      case Release(i) =>
        if i < |live| {
          ClaimHolds(p, live, slots, i);
          slab.KFree(live[i].address, slots[i].slab, slots[i].index, others, total);
          ClaimDropped(p, slab.P(), live, slots, i);
          live, slots := live[..i] + live[i + 1..], slots[..i] + slots[i + 1..];
        }
    }
  }

  lemma NewHolder(p: Pool, s: nat, j: nat, address: nat, size: nat)
    requires User(p, s, j) && Separate(p, s, j, address, size) && size > 0
    ensures Holds(p, Claim(address, size), Slot(s, j))
  {
    hide Layout, IsHome, Pow2;
  }

  lemma ClaimHolds(p: Pool, live: seq<Claim>, slots: seq<Slot>, i: nat)
    requires Claims(p, live, slots) && i < |live|
    ensures |slots| == |live| && User(p, slots[i].slab, slots[i].index)
    ensures live[i].address == Address(p, slots[i].slab, slots[i].index)
  {
    hide Layout, IsHome, Live, Pow2;
    assert Holds(p, live[i], slots[i]);
  }

  /**
    Any run keeps the objects that callers hold apart from each other and loses no page; pages of others are never
    touched.  Once every object has been given back there is no slab left and the buddy allocator has exactly the
    free blocks that it had at the start.
   */
  method Serve(slab: SlabAllocator, requests: seq<Request>, ghost others: set<nat>, ghost total: set<nat>)
    returns (live: seq<Claim>, ghost slots: seq<Slot>, ghost states: seq<seq<Claim>>)
    requires slab.Sound(others, total) && slab.slabs == map[]
    modifies slab, slab.pmm`blocks, slab.pmm.pages, slab.pmm.freeArea
    ensures slab.Sound(others, total) && Claims(slab.P(), live, slots)
    ensures forall i, j :: 0 <= i < j < |live| ==>
              Apart(live[i].address, live[i].size, live[j].address, live[j].size)
    ensures live == [] ==> slab.slabs == map[] && slab.pmm.blocks == old(slab.pmm.blocks)
    ensures |states| == |requests| + 1 && states[0] == [] && states[|requests|] == live
    ensures forall k :: 0 <= k < |requests| ==> Answered(states[k], states[k + 1], requests[k])
  {
    hide PoolOk, PagesOk, Accounts, InUse, Claims, SameZones, Apart, Answered, Refusable;
    ghost var v := slab.pmm.Tables();
    ghost var p := slab.P();
    live, slots, states := [], [], [[]];
    NoClaims(p);
    KeptSame(p, v);
    for k := 0 to |requests|
      invariant slab.Sound(others, total) && Claims(slab.P(), live, slots) && SameZones(v, slab.pmm.Tables())
      invariant |states| == k + 1 && states[0] == [] && states[k] == live
      invariant forall i :: 0 <= i < k ==> Answered(states[i], states[i + 1], requests[i])
    {
      ghost var w := slab.pmm.Tables();
      live, slots := ServeOne(slab, requests[k], live, slots, others, total);
      states := states + [live];
      ZonesTwice(v, w, slab.pmm.Tables());
    }
    forall i, j | 0 <= i < j < |live| ensures Apart(live[i].address, live[i].size, live[j].address, live[j].size) {
      ClaimsApart(slab.P(), live, slots, i, j);
    }
    if live == [] {
      AllGone(slab.P(), slots);
      AccountsAlike(p, slab.P(), v, others, total);
      AccountsFree(slab.P(), v, slab.pmm.Tables(), others, total);
      SamePagesSameBlocks(v, slab.pmm.Tables());
    }
  }

  lemma NoClaims(p: Pool)
    requires p.slabs == map[]
    ensures Claims(p, [], [])
  {}

  lemma AllGone(p: Pool, slots: seq<Slot>)
    requires PoolOk(p) && InUse(p) && Claims(p, [], slots)
    ensures p.slabs == map[]
  {
    hide PoolOk, InUse, User;
    if p.slabs != map[] {
      var t, k := SomeObject(p);
      assert false;
    }
  }

  lemma AccountsAlike(p: Pool, q: Pool, v: BuddyTables.View, others: set<nat>, total: set<nat>)
    requires Accounts(p, v, others, total) && p.slabs == map[] && q.slabs == map[]
    ensures Accounts(q, v, others, total)
  {
    AccountsSame(p, q, v, others, total);
  }
}
