/**
  kmalloc and kfree of ucore/kern/mm/kmalloc.c in place, on top of the buddy allocator.
 */
module SlabAllocator {
  import opened Options
  import opened Bits
  import opened Lists
  import opened Paging
  import opened SlabLayout
  import opened SlabPool
  import opened SlabPages
  import opened BuddyPages
  import BuddyPmm
  import BuddyTables

  // ---- addresses

  // The first byte of slot j of a slab of cache c that starts at page s.
  function AddressIn(c: nat, s: nat, j: nat): nat {
    s * PGSIZE + Layout(c).offset + j * Pow2(Layout(c).shift)
  }

  function Address(p: Pool, s: nat, j: nat): nat
    requires s in p.slabs
  {
    AddressIn(p.slabs[s].cache, s, j)
  }

  function Size(p: Pool, s: nat): nat
    requires s in p.slabs
  {
    Pow2(Layout(p.slabs[s].cache).shift)
  }

  // An object lies in the pages of its slab, past a management area that is there.
  lemma ObjectInside(c: nat, s: nat, j: nat)
    requires c < CACHES && j < Layout(c).num
    ensures s * PGSIZE + Layout(c).offset <= AddressIn(c, s, j)
    ensures AddressIn(c, s, j) + Pow2(Layout(c).shift) <= (s + Pages(c)) * PGSIZE
  {
    LayoutFits(c);
    SlotFits(j, Layout(c).num, Pow2(Layout(c).shift));
    assert (s + Pages(c)) * PGSIZE == s * PGSIZE + PGSIZE * Pow2(Layout(c).order);
  }

  lemma SlotFits(j: nat, num: nat, size: nat)
    requires j < num
    ensures j * size + size <= num * size
  {
    MulMonotone(size, j + 1, num);
  }

  lemma SlotsApart(j: nat, k: nat, size: nat)
    requires j != k
    ensures Apart(j * size, size, k * size, size)
  {
    if j < k {
      SlotFits(j, k, size);
    } else {
      SlotFits(k, j, size);
    }
  }

  /** Two live objects never share a byte. */
  lemma ObjectsApart(p: Pool, s: nat, j: nat, t: nat, k: nat)
    requires PoolOk(p) && Live(p, s, j) && Live(p, t, k) && (s != t || j != k)
    ensures Apart(Address(p, s, j), Size(p, s), Address(p, t, k), Size(p, t))
  {
    assert SlabOk(p.slabs[s], p.chains[s]) && SlabOk(p.slabs[t], p.chains[t]);
    var c, d := p.slabs[s].cache, p.slabs[t].cache;
    ObjectInside(c, s, j);
    ObjectInside(d, t, k);
    if s == t {
      SlotsApart(j, k, Pow2(Layout(c).shift));
    } else {
      assert Apart(s, Pages(c), t, Pages(d));
    }
    hide Layout, SlabOk, PoolOk;
  }

  /** No object touches a management area that lies in a slab's own pages. */
  lemma ObjectsOffManagement(p: Pool, s: nat, j: nat, t: nat)
    requires PoolOk(p) && Live(p, s, j) && t in p.slabs && p.slabs[t].home == Inside
    ensures Apart(Address(p, s, j), Size(p, s), t * PGSIZE, SLAB_T + Num(p.slabs[t]) * BUFCTL)
  {
    assert SlabOk(p.slabs[s], p.chains[s]) && SlabOk(p.slabs[t], p.chains[t]) && HomeOk(p, t);
    var c, d := p.slabs[s].cache, p.slabs[t].cache;
    ObjectInside(c, s, j);
    LayoutFits(d);
    ObjectInside(d, t, 0);
    if s != t {
      assert Apart(s, Pages(c), t, Pages(d));
    }
    hide Layout, SlabOk, PoolOk, HomeOk;
  }

  /** A management area outside is an object of its own, large enough for it, and nobody else's. */
  lemma OutsideManagementFits(p: Pool, s: nat)
    requires PoolOk(p) && s in p.slabs && p.slabs[s].home.Object?
    ensures var h := p.slabs[s].home;
            Live(p, h.slab, h.slot) && !User(p, h.slab, h.slot) && SLAB_T + Num(p.slabs[s]) * BUFCTL <= Size(p, h.slab)
  {
    assert HomeOk(p, s) && SlabOk(p.slabs[s], p.chains[s]);
    LayoutFits(p.slabs[s].cache);
  }

  // ---- which slab a page belongs to

  ghost predicate PagesOk(p: Pool, owner: map<nat, nat>) {
    forall s, g :: s in p.slabs && s <= g < s + Pages(p.slabs[s].cache) ==> g in owner && owner[g] == s
  }

  function Marked(owner: map<nat, nat>, page: nat, n: nat): map<nat, nat> {
    owner + map g: nat | page <= g < page + n && PageInRun(g, page, n) :: page
  }

  function Cleared(owner: map<nat, nat>, page: nat, n: nat): map<nat, nat> {
    owner - set g: nat | page <= g < page + n && PageInRun(g, page, n)
  }

  lemma MarkedOk(p: Pool, owner: map<nat, nat>, c: nat, page: nat, home: Home)
    requires Basic(p) && c < CACHES && PagesOk(p, owner) && NewRun(p, c, page)
    ensures PagesOk(Grow(p, c, page, home), Marked(owner, page, Pages(c)))
  {
    hide Layout, SlabOk, Fresh, All, Pages, Marked;
    var q, n := Grow(p, c, page, home), Marked(owner, page, Pages(c));
    MarkedIs(owner, page, Pages(c));
    forall s, g | s in q.slabs && s <= g < s + Pages(q.slabs[s].cache) ensures g in n && n[g] == s {
      assert s != page ==> Apart(page, Pages(c), s, Pages(p.slabs[s].cache));
    }
  }

  lemma MarkedIs(owner: map<nat, nat>, page: nat, n: nat)
    ensures forall g :: page <= g < page + n ==> g in Marked(owner, page, n) && Marked(owner, page, n)[g] == page
    ensures forall g :: g in owner && !(page <= g < page + n) ==>
              g in Marked(owner, page, n) && Marked(owner, page, n)[g] == owner[g]
  {}

  lemma ClearedOk(p: Pool, owner: map<nat, nat>, s: nat)
    requires PoolOk(p) && PagesOk(p, owner) && s in p.slabs && p.slabs[s].cache < CACHES
    ensures PagesOk(Drop(p, s), Cleared(owner, s, Pages(p.slabs[s].cache)))
  {
    hide Layout, SlabOk, Remove, Pages, ListsOk, HomesOk;
    var q, n := Drop(p, s), Cleared(owner, s, Pages(p.slabs[s].cache));
    forall t, g | t in q.slabs && t <= g < t + Pages(q.slabs[t].cache) ensures g in n && n[g] == t {
      assert Apart(t, Pages(p.slabs[t].cache), s, Pages(p.slabs[s].cache));
    }
  }

  // Taking or giving back a slot changes no page.
  lemma SamePages(p: Pool, q: Pool, owner: map<nat, nat>)
    requires PagesOk(p, owner) && q.slabs.Keys == p.slabs.Keys && forall s :: s in p.slabs ==>
               q.slabs[s].cache == p.slabs[s].cache
    ensures PagesOk(q, owner)
  {
    hide Pages;
  }

  // The page and the slot of an object, computed from its address.
  lemma FindObject(c: nat, s: nat, j: nat)
    requires c < CACHES && j < Layout(c).num
    ensures s <= AddressIn(c, s, j) / PGSIZE < s + Pages(c)
    ensures AddressIn(c, s, j) >= s * PGSIZE + Layout(c).offset
    ensures (AddressIn(c, s, j) - (s * PGSIZE + Layout(c).offset)) / Pow2(Layout(c).shift) == j
  {
    ObjectInside(c, s, j);
    var a, size := AddressIn(c, s, j), Pow2(Layout(c).shift);
    assert a - (s * PGSIZE + Layout(c).offset) == j * size;
    DivShift(0, size, j);
    hide Layout, Pow2;
    PageRange(a, s, Pages(c));
  }

  lemma PageRange(a: nat, s: nat, n: nat)
    requires s * PGSIZE <= a < (s + n) * PGSIZE
    ensures s <= a / PGSIZE < s + n
  {}

  // Slot j of slab s was the first free one of cache c, and has been taken.
  ghost predicate TookFrom(p: Pool, q: Pool, c: nat, s: nat, j: nat) {
    && Basic(p) && c < CACHES && p.notfull[c] != [] && IsNotFull(p, c, p.notfull[c][0])
    && s == p.notfull[c][0] && j == p.slabs[s].free && q == Take(p, c)
  }

  lemma TookPages(p: Pool, q: Pool, c: nat, s: nat, j: nat, owner: map<nat, nat>)
    requires PoolOk(p) && TookFrom(p, q, c, s, j) && PagesOk(p, owner)
    ensures PoolOk(q) && PagesOk(q, owner)
  {
    hide PoolOk, PagesOk, IsHome, Live;
    TakeOk(p, c);
    TakeCaches(p, c);
    SamePages(p, q, owner);
  }

  lemma TakeCaches(p: Pool, c: nat)
    requires Basic(p) && c < CACHES && p.notfull[c] != [] && IsNotFull(p, c, p.notfull[c][0])
    ensures Take(p, c).slabs.Keys == p.slabs.Keys && Kept(p, Take(p, c))
  {
    hide SlabOk, Layout;
  }

  lemma RoomToTake(p: Pool, c: nat)
    requires Basic(p) && c < CACHES && p.notfull[c] != [] && IsNotFull(p, c, p.notfull[c][0])
    ensures var s := p.notfull[c][0];
            && s in p.slabs && s in p.chains && p.chains[s] != []
            && p.slabs[s].free < |p.slabs[s].bufctl| && p.slabs[s].cache == c
  {
    assert SlabOk(p.slabs[p.notfull[c][0]], p.chains[p.notfull[c][0]]);
  }

  // The objects of callers are the same, one more, or one fewer.
  ghost predicate OneMore(p: Pool, q: Pool, s: nat, j: nat) {
    !Live(p, s, j) && forall t, k :: User(q, t, k) <==> User(p, t, k) || (t == s && k == j)
  }

  ghost predicate OneLess(p: Pool, q: Pool, s: nat, j: nat) {
    User(p, s, j) && forall t, k :: User(q, t, k) <==> User(p, t, k) && !(t == s && k == j)
  }

  lemma TookOneMore(p: Pool, q: Pool, c: nat, s: nat, j: nat)
    requires PoolOk(p) && TookFrom(p, q, c, s, j)
    ensures Allotted(p, q, c, s, j)
  {
    hide PoolOk, Take, Layout, IsHome, Live;
    TakeOk(p, c);
    TakeCaches(p, c);
    NotHomeYet(p, s, j);
    assert OneMore(p, q, s, j);
  }

  // A slot that is not live is nobody's management area.
  lemma NotHomeYet(p: Pool, s: nat, j: nat)
    requires PoolOk(p) && !Live(p, s, j)
    ensures !IsHome(p, s, j)
  {
    hide Layout, ListsOk, RunsOk, Basic;
    assert forall t :: t in p.slabs ==> HomeOk(p, t);
  }

  lemma GrowUsers(p: Pool, c: nat, page: nat, home: Home)
    requires PoolOk(p) && c < CACHES && NewRun(p, c, page) && HomeFor(p, c, home)
    ensures forall t, k :: User(Grow(p, c, page, home), t, k) <==> User(p, t, k) && home != Object(t, k)
    ensures forall t, k :: Live(Grow(p, c, page, home), t, k) <==> Live(p, t, k)
  {
    GrowOk(p, c, page, home);
    hide PoolOk, Grow, IsHome, Live, HomeFor, NewRun;
  }

  // Slot j of slab s of cache c is a new object.
  ghost predicate Allotted(p: Pool, q: Pool, c: nat, s: nat, j: nat) {
    OneMore(p, q, s, j) && User(q, s, j) && s in q.slabs && q.slabs[s].cache == c
  }

  lemma InsideHome(p: Pool, c: nat)
    requires !Layout(c).offSlab
    ensures HomeFor(p, c, Inside)
  {}

  lemma HomeFound(p: Pool, q: Pool, c: nat, s: nat, j: nat)
    requires c < CACHES && Layout(c).offSlab && Allotted(p, q, Layout(c).mgmtCache, s, j)
    ensures HomeFor(q, c, Object(s, j))
  {
    hide Layout, User;
  }

  // After the management area, the slab and the slot, there is one object more.
  lemma GrownAndTaken(p: Pool, q: Pool, r: Pool, c: nat, a: nat, home: Home, s: nat, j: nat)
    requires PoolOk(q) && c < CACHES && NewRun(q, c, a) && HomeFor(q, c, home) && a !in p.slabs
    requires if Layout(c).offSlab then home.Object? && Allotted(p, q, Layout(c).mgmtCache, home.slab, home.slot)
             else q == p
    requires PoolOk(Grow(q, c, a, home)) && TookFrom(Grow(q, c, a, home), r, c, s, j)
    ensures Allotted(p, r, c, s, j)
  {
    hide PoolOk, Grow, Take, Layout, IsHome, NewRun, User;
    BasicOf(q);
    GrowUsers(q, c, a, home);
    var g := Grow(q, c, a, home);
    TookOneMore(g, r, c, s, j);
    GrowFirst(q, c, a, home);
    LayoutFits(c);
    assert !Live(p, s, j);
    hide HomeFor, TookFrom, Live;
    NotUserBefore(p, q, c, home);
    UsersAfter(p, q, g, r, home, s, j);
  }

  lemma UsersAfter(p: Pool, q: Pool, g: Pool, r: Pool, home: Home, s: nat, j: nat)
    requires if home.Object? then OneMore(p, q, home.slab, home.slot) && !User(p, home.slab, home.slot) else q == p
    requires (forall t, k :: User(g, t, k) <==> User(q, t, k) && home != Object(t, k)) && OneMore(g, r, s, j)
    requires !Live(p, s, j)
    ensures OneMore(p, r, s, j)
  {
    hide User, Live;
    forall t, k ensures User(r, t, k) <==> User(p, t, k) || (t == s && k == j) {
      assert User(g, t, k) <==> User(q, t, k) && home != Object(t, k);
    }
  }

  lemma NotUserBefore(p: Pool, q: Pool, c: nat, home: Home)
    requires Layout(c).offSlab ==> home.Object? && Allotted(p, q, Layout(c).mgmtCache, home.slab, home.slot)
    ensures Layout(c).offSlab ==> !User(p, home.slab, home.slot)
  {
    hide Layout;
  }

  lemma GrowFirst(p: Pool, c: nat, a: nat, home: Home)
    requires Basic(p) && c < CACHES
    ensures var g := Grow(p, c, a, home); |g.notfull| == CACHES && g.notfull[c] != [] && g.notfull[c][0] == a
    ensures var g := Grow(p, c, a, home);
            && g.slabs.Keys == p.slabs.Keys + {a} && g.slabs[a].cache == c
            && forall s :: s in p.slabs && s != a ==> g.slabs[s] == p.slabs[s]
  {
    hide Layout, SlabOk, Fresh, All;
  }

  datatype KResult = Got(address: nat) | Null | Panicked

  // The cache for objects of a size.
  function CacheFrom(size: nat, c: nat): nat
    decreases CACHES - c
  {
    if c >= CACHES || size <= Pow2(c + MIN_SIZE_ORDER) then c else CacheFrom(size, c + 1)
  }

  function CacheFor(size: nat): nat {
    CacheFrom(size, 0)
  }

  lemma CacheForIs(size: nat, order: nat)
    requires MIN_SIZE_ORDER <= order <= MAX_SIZE_ORDER && size <= Pow2(order)
    requires (order > MIN_SIZE_ORDER ==> Pow2(order - 1) < size)
    ensures CacheFor(size) == order - MIN_SIZE_ORDER
  {
    CacheFromIs(size, order, 0);
  }

  lemma {:induction false} CacheFromIs(size: nat, order: nat, c: nat)
    requires MIN_SIZE_ORDER <= order <= MAX_SIZE_ORDER && size <= Pow2(order)
    requires (order > MIN_SIZE_ORDER ==> Pow2(order - 1) < size)
    requires c + MIN_SIZE_ORDER <= order
    ensures CacheFrom(size, c) == order - MIN_SIZE_ORDER
    decreases order - c
  {
    hide Pow2;
    if c + MIN_SIZE_ORDER < order {
      Pow2Monotone(c + MIN_SIZE_ORDER, order - 1);
      CacheFromIs(size, order, c + 1);
    }
  }

  lemma ApartFromAll(p: Pool, s: nat, j: nat)
    requires PoolOk(p) && Live(p, s, j)
    ensures forall t, k :: Live(p, t, k) && (t != s || k != j) ==>
              Apart(Address(p, s, j), Size(p, s), Address(p, t, k), Size(p, t))
    ensures forall t :: t in p.slabs && p.slabs[t].home == Inside ==>
              Apart(Address(p, s, j), Size(p, s), t * PGSIZE, SLAB_T + Num(p.slabs[t]) * BUFCTL)
  {
    forall t, k | Live(p, t, k) && (t != s || k != j)
      ensures Apart(Address(p, s, j), Size(p, s), Address(p, t, k), Size(p, t))
    {
      ObjectsApart(p, s, j, t, k);
    }
    forall t | t in p.slabs && p.slabs[t].home == Inside
      ensures Apart(Address(p, s, j), Size(p, s), t * PGSIZE, SLAB_T + Num(p.slabs[t]) * BUFCTL)
    {
      ObjectsOffManagement(p, s, j, t);
    }
    hide PoolOk, Address, Size, Num, Apart;
  }

  // ---- every slab holds an object

  lemma TookInUse(p: Pool, q: Pool, c: nat, s: nat, j: nat)
    requires PoolOk(p) && TookFrom(p, q, c, s, j) && forall t :: t in p.slabs && t != s ==> p.slabs[t].inuse > 0
    ensures InUse(q) && Kept(p, q) && q.slabs.Keys == p.slabs.Keys
  {
    hide PoolOk, Basic, Take, Layout, IsNotFull;
    TakeCaches(p, c);
    TakeUses(p, c);
  }

  lemma TakeUses(p: Pool, c: nat)
    requires Basic(p) && c < CACHES && p.notfull[c] != [] && IsNotFull(p, c, p.notfull[c][0])
    ensures var q, s := Take(p, c), p.notfull[c][0];
            && s in q.slabs && q.slabs[s].inuse > 0
            && forall t :: t in p.slabs && t != s ==> t in q.slabs && q.slabs[t] == p.slabs[t]
  {
    hide SlabOk, Layout;
  }

  // A slab grown and its first slot taken, in terms of pages.
  lemma GrownPages(p: Pool, q: Pool, c: nat, a: nat, home: Home, s: nat, j: nat)
    requires PoolOk(p) && InUse(p) && c < CACHES && NewRun(p, c, a) && PoolOk(Grow(p, c, a, home))
    requires TookFrom(Grow(p, c, a, home), q, c, s, j)
    ensures InUse(q) && Kept(p, q) && q.slabs.Keys == p.slabs.Keys + {a} && q.slabs[a].cache == c
  {
    hide PoolOk, Basic, Grow, Take, Layout, Pages;
    BasicOf(p);
    GrowFirst(p, c, a, home);
    var g := Grow(p, c, a, home);
    assert s == a by {
      hide IsNotFull;
    }
    TookInUse(g, q, c, s, j);
    hide TookFrom;
  }

  lemma GaveInUse(p: Pool, s: nat, j: nat)
    requires Basic(p) && Live(p, s, j) && p.slabs[s].inuse > 1 && InUse(p)
    ensures InUse(Give(p, s, j)) && Kept(p, Give(p, s, j)) && Give(p, s, j).slabs.Keys == p.slabs.Keys
  {
    GiveCaches(p, s, j);
    assert SlabOk(p.slabs[s], p.chains[s]);
    hide Linked, Layout, Remove, SlabOk;
  }

  // ---- giving back

  lemma GaveOneLess(p: Pool, s: nat, j: nat, owner: map<nat, nat>)
    requires PoolOk(p) && PagesOk(p, owner) && User(p, s, j) && p.slabs[s].inuse > 1
    ensures PoolOk(Give(p, s, j)) && PagesOk(Give(p, s, j), owner) && OneLess(p, Give(p, s, j), s, j)
  {
    hide PoolOk, PagesOk, IsHome;
    GiveOk(p, s, j);
    BasicOf(p);
    GiveCaches(p, s, j);
    SamePages(p, Give(p, s, j), owner);
    hide Give, Live;
  }

  lemma GiveCaches(p: Pool, s: nat, j: nat)
    requires Basic(p) && Live(p, s, j) && p.slabs[s].inuse > 1
    ensures Give(p, s, j).slabs.Keys == p.slabs.Keys && Kept(p, Give(p, s, j))
  {
    hide SlabOk, Basic, Live, Layout, Remove, Num;
    SlotInRange(p, s, j);
  }

  lemma SlotInRange(p: Pool, s: nat, j: nat)
    requires Basic(p) && Live(p, s, j)
    ensures s in p.slabs && p.slabs[s].cache < CACHES && j < |p.slabs[s].bufctl| && |p.full| == |p.notfull| == CACHES
  {
    assert SlabOk(p.slabs[s], p.chains[s]);
    hide Linked, Layout;
  }

  // A destroyed slab gives up its last object, and its management area becomes a plain object.
  lemma DroppedOneLess(p: Pool, s: nat, j: nat, owner: map<nat, nat>)
    requires PoolOk(p) && PagesOk(p, owner) && User(p, s, j) && p.slabs[s].inuse == 1
    ensures p.slabs[s].cache < CACHES && PoolOk(Drop(p, s))
    ensures PagesOk(Drop(p, s), Cleared(owner, s, Pages(p.slabs[s].cache)))
    ensures var h := p.slabs[s].home;
            if h == Inside then OneLess(p, Drop(p, s), s, j)
            else
              && User(Drop(p, s), h.slab, h.slot) && !User(p, h.slab, h.slot)
              && (forall t, k :: User(Drop(p, s), t, k) <==>
                    (User(p, t, k) && !(t == s && k == j)) || (t == h.slab && k == h.slot))
  {
    hide PagesOk, Layout;
    DropOk(p, s, j);
    ClearedOk(p, owner, s);
    assert HomeOk(p, s);
    assert p.slabs[s].home.Object? ==> IsHome(p, p.slabs[s].home.slab, p.slabs[s].home.slot);
    hide PoolOk, Drop, Live, IsHome;
  }

  // The management area that a dropped slab leaves behind is in a slab managed inside.
  lemma HomeIsInside(p: Pool, s: nat)
    requires PoolOk(p) && s in p.slabs && p.slabs[s].home.Object?
    ensures var h := p.slabs[s].home;
            h.slab in p.slabs && h.slab != s && p.slabs[h.slab].cache < CACHES && !Layout(p.slabs[h.slab].cache).offSlab
    ensures Layout(p.slabs[s].cache).offSlab
  {
    assert HomeOk(p, s) && SlabOk(p.slabs[s], p.chains[s]);
    LayoutFits(p.slabs[s].cache);
    hide Layout;
  }

  // The address of an object leads back to its slab and slot.
  lemma OwnerOf(p: Pool, owner: map<nat, nat>, s: nat, j: nat)
    requires PoolOk(p) && PagesOk(p, owner) && User(p, s, j)
    ensures s in p.slabs
    ensures var a, c := Address(p, s, j), p.slabs[s].cache;
            && a / PGSIZE in owner && owner[a / PGSIZE] == s && a >= s * PGSIZE + Layout(c).offset
            && (a - (s * PGSIZE + Layout(c).offset)) / Pow2(Layout(c).shift) == j
  {
    hide PoolOk, Basic, Layout, IsHome, Pow2, AddressIn, Pages;
    BasicOf(p);
    UserInUse(p, s, j);
    FindObject(p.slabs[s].cache, s, j);
  }

  class SlabAllocator {
    var slabs: map<nat, Slab>
    var full: seq<seq<nat>>
    var notfull: seq<seq<nat>>
    // page_link.prev of each slab page
    var owner: map<nat, nat>
    ghost var chains: map<nat, seq<nat>>
    // pmm_manager
    const pmm: BuddyPmm.BuddyManager

    ghost function P(): Pool
      reads this
    {
      Pool(slabs, chains, full, notfull)
    }

    ghost predicate Ok()
      reads this
    {
      PoolOk(P()) && PagesOk(P(), owner)
    }

    // Every page of total is free, others' or a slab's, and every slab holds an object.
    ghost predicate Sound(others: set<nat>, total: set<nat>)
      reads this, pmm, pmm.pages, pmm.freeArea
    {
      Ok() && InUse(P()) && pmm.Valid() && Accounts(P(), pmm.Tables(), others, total)
    }

    // slab_init
    constructor (buddy: BuddyPmm.BuddyManager)
      requires buddy.Valid()
      ensures pmm == buddy && slabs == map[]
      ensures forall others :: others !! FreePageSet(buddy.Tables()) ==>
                Sound(others, others + FreePageSet(buddy.Tables()))
    {
      pmm := buddy;
      slabs, owner, chains := map[], map[], map[];
      full, notfull := seq(CACHES, _ => []), seq(CACHES, _ => []);
    }

    // kmem_cache_alloc_one
    method AllocOne(c: nat) returns (s: nat, j: nat)
      requires Ok() && c < CACHES && notfull[c] != []
      modifies this
      ensures Ok() && TookFrom(old(P()), P(), c, s, j) && owner == old(owner)
    {
      FirstNotFull(P(), c);
      hide PoolOk, PagesOk, TookFrom;
      s, j := PopSlot(c);
      TookPages(old(P()), P(), c, s, j, owner);
    }

    method PopSlot(c: nat) returns (s: nat, j: nat)
      requires Basic(P()) && c < CACHES && notfull[c] != [] && IsNotFull(P(), c, notfull[c][0])
      modifies this
      ensures TookFrom(old(P()), P(), c, s, j) && owner == old(owner)
    {
      hide SlabOk, Layout, IsNotFull, Num, Distinct, Linked;
      RoomToTake(P(), c);
      s := notfull[c][0];
      var was := slabs[s];
      j := was.free;
      var r := was.(inuse := was.inuse + 1, free := was.bufctl[was.free]);
      if r.free == BUFCTL_END {
        Store(s, r, chains[s][1..], [s] + full[c], notfull[c][1..]);
      } else {
        Store(s, r, chains[s][1..], full[c], notfull[c]);
      }
    }

    // A slab and the lists of its cache
    method Store(s: nat, r: Slab, ghost ch: seq<nat>, f: seq<nat>, n: seq<nat>)
      requires Basic(P()) && r.cache < CACHES
      modifies this
      ensures P() == Update(old(P()), s, r, ch, f, n) && owner == old(owner)
    {
      hide SlabOk;
      slabs, full, notfull, chains := slabs[s := r], full[r.cache := f], notfull[r.cache := n], chains[s := ch];
    }

    // kmem_cache_alloc
    method CacheAlloc(c: nat, ghost others: set<nat>, ghost total: set<nat>) returns (r: Option<(nat, nat)>)
      requires Sound(others, total) && c < CACHES
      modifies this, pmm`blocks, pmm.pages, pmm.freeArea
      ensures Sound(others, total) && Kept(old(P()), P()) && SameZones(old(pmm.Tables()), pmm.Tables())
      ensures r.Some? ==> Allotted(old(P()), P(), c, r.value.0, r.value.1)
      ensures r.None? ==> P() == old(P()) && owner == old(owner) && old(notfull[c]) == []
      ensures r.None? <==> old(notfull[c]) == [] && NoSlab(old(P()), old(pmm.Tables()), c)
      decreases if Layout(c).offSlab then 1 else 0
    {
      hide PoolOk, PagesOk, Accounts, InUse, Layout, Kept, Allotted, TookFrom, SameZones, NoSlab;
      ghost var p, v := P(), pmm.Tables();
      BasicOf(p);
      if notfull[c] == [] {
        r := AllocNew(c, others, total);
      } else {
        var s, j := AllocOne(c);
        UsedSlab(p, P(), v, others, total, c, s, j);
        r := Some((s, j));
      }
    }

    // The path through alloc_new_slab and back: alloc_pages, the management area, kmem_cache_grow and the first slot.
    // If there is no room for the management area, the pages go back.
    method AllocNew(c: nat, ghost others: set<nat>, ghost total: set<nat>) returns (r: Option<(nat, nat)>)
      requires Sound(others, total) && c < CACHES
      modifies this, pmm`blocks, pmm.pages, pmm.freeArea
      ensures Sound(others, total) && Kept(old(P()), P()) && SameZones(old(pmm.Tables()), pmm.Tables())
      ensures r.Some? ==> Allotted(old(P()), P(), c, r.value.0, r.value.1)
      ensures r.None? ==> P() == old(P()) && owner == old(owner)
      ensures r.None? <==> NoSlab(old(P()), old(pmm.Tables()), c)
      decreases if Layout(c).offSlab then 1 else 0, 1
    {
      hide PoolOk, PagesOk, Accounts, InUse, Layout, Kept, Allotted, SameZones, NoRoom, Zoned, PageSet, Pages, HomeFor;
      ghost var p, v := P(), pmm.Tables();
      OrderSmall(c);
      KeptSame(p, v);
      BasicOf(p);
      var got := GetPages(pmm, Pages(c));
      if got.None? {
        return None;
      }
      var a := got.value;
      ghost var w := pmm.Tables();
      AccountsTake(p, v, w, others, total, PageSet(a, Pages(c)));
      var home := Inside;
      if Layout(c).offSlab {
        NoManagement(p, v, w, c, a);
        var m := FindHome(c, a, others, total);
        ZonesTwice(v, w, pmm.Tables());
        if m.None? {
          return None;
        }
        home := m.value;
      } else {
        InsideHome(p, c);
      }
      r := Settle(c, a, home, p, others, total);
    }

    // The management area of a slab that is managed outside; without one the pages of the slab go back.
    method FindHome(c: nat, a: nat, ghost others: set<nat>, ghost total: set<nat>) returns (home: Option<Home>)
      requires c < CACHES && Layout(c).offSlab && Layout(c).mgmtCache < CACHES && !Layout(Layout(c).mgmtCache).offSlab
      requires Sound(others + PageSet(a, Pages(c)), total) && PageSet(a, Pages(c)) !! others
      requires Zoned(pmm.Tables(), a, Pages(c))
      modifies this, pmm`blocks, pmm.pages, pmm.freeArea
      ensures pmm.Valid() && SameZones(old(pmm.Tables()), pmm.Tables())
      ensures home.Some? ==>
                && Sound(others + PageSet(a, Pages(c)), total) && Zoned(pmm.Tables(), a, Pages(c))
                && Kept(old(P()), P())
                && home.value.Object? && HomeFor(P(), c, home.value)
                && Allotted(old(P()), P(), Layout(c).mgmtCache, home.value.slab, home.value.slot)
      ensures home.None? ==> Sound(others, total) && P() == old(P()) && owner == old(owner)
      ensures home.None? <==>
                old(notfull[Layout(c).mgmtCache]) == [] && NoSlab(old(P()), old(pmm.Tables()), Layout(c).mgmtCache)
      decreases 1, 0
    {
      hide PoolOk, PagesOk, Accounts, InUse, Layout, Kept, Allotted, SameZones, NoSlab, Zoned, PageSet, Pages, HomeFor;
      ghost var p, w := P(), pmm.Tables();
      ghost var run := PageSet(a, Pages(c));
      var m := CacheAlloc(Layout(c).mgmtCache, others + run, total);
      ghost var u := pmm.Tables();
      KeptSame(p, w);
      ZonesStay(w, w, u, a, Pages(c));
      if m.None? {
        RunNotFree(p, u, others + run, total, run);
        OrderSmall(c);
        PutPages(pmm, a, Pages(c));
        AccountsPut(p, u, pmm.Tables(), others, total, run);
        ZonesTwice(w, u, pmm.Tables());
        return None;
      }
      home := Some(Object(m.value.0, m.value.1));
      HomeFound(p, P(), c, m.value.0, m.value.1);
    }

    // kmem_cache_grow once it has the pages and the management area, and the slot taken next
    method Settle(c: nat, a: nat, home: Home, ghost p: Pool, ghost others: set<nat>, ghost total: set<nat>)
      returns (r: Option<(nat, nat)>)
      requires c < CACHES && Sound(others + PageSet(a, Pages(c)), total) && PageSet(a, Pages(c)) !! others
      requires Zoned(pmm.Tables(), a, Pages(c)) && HomeFor(P(), c, home) && Kept(p, P())
      requires if Layout(c).offSlab then home.Object? && Allotted(p, P(), Layout(c).mgmtCache, home.slab, home.slot)
               else P() == p
      modifies this
      ensures Sound(others, total) && Kept(p, P()) && r.Some? && Allotted(p, P(), c, r.value.0, r.value.1)
    {
      hide PoolOk, PagesOk, Accounts, InUse, Layout, Kept, Allotted;
      hide TookFrom, Zoned, PageSet, Pages, HomeFor, NewRun, Grow;
      ghost var q, v := P(), pmm.Tables();
      NewFromAccounts(q, v, others + PageSet(a, Pages(c)), total, c, a);
      NotThere(p, q, c, a);
      CacheGrow(c, a, home);
      BasicOf(q);
      GrowFirst(q, c, a, home);
      var s, j := AllocOne(c);
      GrownPages(q, P(), c, a, home, s, j);
      AccountsGrow(q, P(), v, others, total, c, a);
      KeptTwice(p, q, P());
      GrownAndTaken(p, q, P(), c, a, home, s, j);
      r := Some((s, j));
    }

    // kmalloc: a new object of at least the size asked for, apart from everything in use; nothing else changes hands.
    method KMalloc(size: nat, ghost others: set<nat>, ghost total: set<nat>)
      returns (r: KResult, ghost s: nat, ghost j: nat)
      requires Sound(others, total) && size > 0
      modifies this, pmm`blocks, pmm.pages, pmm.freeArea
      ensures Sound(others, total) && Kept(old(P()), P()) && SameZones(old(pmm.Tables()), pmm.Tables())
      ensures (r.Panicked? <==> size > Pow2(MAX_SIZE_ORDER))
      ensures !r.Got? ==> P() == old(P()) && pmm.blocks == old(pmm.blocks)
      ensures r.Null? <==> size <= Pow2(MAX_SIZE_ORDER) && NoObject(old(P()), old(pmm.Tables()), size)
      ensures r.Got? ==> Allotted(old(P()), P(), CacheFor(size), s, j) && Separate(P(), s, j, r.address, size)
    {
      hide PoolOk, PagesOk, Accounts, InUse, Layout, Live, Num, Pow2, Kept, Separate, Allotted, SameZones, NoRoom;
      s, j := 0, 0;
      ghost var p, v := P(), pmm.Tables();
      var order := GetOrder(size);
      if order > MAX_SIZE_ORDER {
        KeptSame(p, v);
        return Panicked, s, j;
      }
      var c := order - MIN_SIZE_ORDER;
      CacheForIs(size, order);
      var got := CacheAlloc(c, others, total);
      if got.None? {
        AccountsFree(p, v, pmm.Tables(), others, total);
        SamePagesSameBlocks(v, pmm.Tables());
        return Null, s, j;
      }
      s, j := got.value.0, got.value.1;
      IsSeparate(p, P(), c, got.value.0, got.value.1, size);
      r := Got(AddressIn(c, got.value.0, got.value.1));
    }

    // kfree of an object that kmalloc gave out: the address alone tells which one.
    method KFree(address: nat, ghost s: nat, ghost j: nat, ghost others: set<nat>, ghost total: set<nat>)
      requires Sound(others, total) && User(P(), s, j) && address == Address(P(), s, j)
      modifies this, pmm`blocks, pmm.pages, pmm.freeArea
      ensures Sound(others, total) && Kept(P(), old(P())) && SameZones(old(pmm.Tables()), pmm.Tables())
      ensures OneLess(old(P()), P(), s, j)
    {
      hide PoolOk, PagesOk, Layout, User, Pow2, AddressIn, OneLess, Accounts, InUse, Kept, SameZones;
      OwnerOf(P(), owner, s, j);
      var found := owner[address / PGSIZE];
      var c := slabs[found].cache;
      FreeOne(found, (address - (found * PGSIZE + Layout(c).offset)) / Pow2(Layout(c).shift), others, total);
    }

    // kmem_cache_grow with its slab management area in place
    method CacheGrow(c: nat, page: nat, home: Home)
      requires Ok() && c < CACHES && NewRun(P(), c, page) && HomeFor(P(), c, home)
      modifies this
      ensures Ok() && P() == Grow(old(P()), c, page, home)
    {
      GrowOk(P(), c, page, home);
      MarkedOk(P(), owner, c, page, home);
      hide PoolOk, PagesOk, IsHome, Live, HomeFor, NewRun, Grow, Marked;
      BasicOf(P());
      Install(c, page, home);
    }

    method Install(c: nat, page: nat, home: Home)
      requires Basic(P()) && c < CACHES
      modifies this
      ensures P() == Grow(old(P()), c, page, home) && owner == Marked(old(owner), page, Pages(c))
    {
      NumSmall(c);
      hide SlabOk, Layout, Marked, All, Fresh;
      var bufctl := FillBufctl(Layout(c).num);
      Store(page, Slab(c, bufctl, 0, 0, home), All(Layout(c).num), full[c], [page] + notfull[c]);
      MarkPages(page, Pages(c));
    }

    // kmem_cache_free_one and kmem_slab_destroy: the recursion ends with a slab that is managed inside.
    method FreeOne(s: nat, j: nat, ghost others: set<nat>, ghost total: set<nat>)
      requires Sound(others, total) && User(P(), s, j)
      modifies this, pmm`blocks, pmm.pages, pmm.freeArea
      ensures Sound(others, total) && Kept(P(), old(P())) && SameZones(old(pmm.Tables()), pmm.Tables())
      ensures OneLess(old(P()), P(), s, j)
      decreases if Layout(slabs[s].cache).offSlab then 1 else 0
    {
      hide PoolOk, PagesOk, Layout, Live, IsHome, Accounts, InUse, Kept, SameZones;
      ghost var p, v := P(), pmm.Tables();
      BasicOf(p);
      UserInUse(p, s, j);
      var r := slabs[s];
      if r.inuse > 1 {
        GaveOneLess(p, s, j, owner);
        GaveInUse(p, s, j);
        GiveSlot(s, j);
        AccountsSame(p, P(), v, others, total);
        KeptBack(p, P(), v);
      } else {
        DroppedOneLess(p, s, j, owner);
        Destroy(s, others, total);
        if r.home.Object? {
          HomeIsInside(p, s);
          DropOthers(p, s);
          ghost var q, w := P(), pmm.Tables();
          FreeOne(r.home.slab, r.home.slot, others, total);
          KeptTwice(P(), q, p);
          ZonesTwice(v, w, pmm.Tables());
        }
      }
    }

    // The rest of kmem_slab_destroy: the pages of the slab go back to the page allocator.
    method Destroy(s: nat, ghost others: set<nat>, ghost total: set<nat>)
      requires Sound(others, total) && s in slabs && slabs[s].cache < CACHES
      requires PoolOk(Drop(P(), s)) && PagesOk(Drop(P(), s), Cleared(owner, s, Pages(slabs[s].cache)))
      modifies this, pmm`blocks, pmm.pages, pmm.freeArea
      ensures Sound(others, total) && P() == Drop(old(P()), s) && Kept(P(), old(P()))
      ensures SameZones(old(pmm.Tables()), pmm.Tables())
    {
      hide PoolOk, PagesOk, Layout, Accounts, SameZones, Pages, Drop;
      ghost var p, v := P(), pmm.Tables();
      var n := Pages(slabs[s].cache);
      OrderSmall(slabs[s].cache);
      SlabRun(p, v, others, total, s);
      DropFacts(p, s);
      DropSlab(s);
      PutPages(pmm, s, n);
      AccountsDrop(p, P(), v, pmm.Tables(), others, total, s);
    }

    method GiveSlot(s: nat, j: nat)
      requires Basic(P()) && Live(P(), s, j) && slabs[s].inuse > 1
      modifies this
      ensures P() == Give(old(P()), s, j) && owner == old(owner)
    {
      assert SlabOk(P().slabs[s], P().chains[s]);
      hide Linked, Layout, Remove;
      var c := slabs[s].cache;
      var r := slabs[s].(bufctl := slabs[s].bufctl[j := slabs[s].free], free := j, inuse := slabs[s].inuse - 1);
      var f, n := full[c], notfull[c];
      if r.inuse == Layout(c).num - 1 {
        f, n := Remove(full[c], s), [s] + notfull[c];
      }
      Store(s, r, [j] + chains[s], f, n);
    }

    method DropSlab(s: nat)
      requires Basic(P()) && s in slabs && slabs[s].cache < CACHES
      modifies this
      ensures P() == Drop(old(P()), s) && owner == Cleared(old(owner), s, Pages(old(slabs[s].cache)))
    {
      hide SlabOk, Remove;
      var c := slabs[s].cache;
      ClearPages(s, Pages(c));
      slabs, chains := slabs - {s}, chains - {s};
      full, notfull := full[c := Remove(full[c], s)], notfull[c := Remove(notfull[c], s)];
    }

    method ClearPages(page: nat, n: nat)
      modifies `owner
      ensures owner == Cleared(old(owner), page, n)
    {
      var k := 0;
      while k < n
        invariant 0 <= k <= n && owner == Cleared(old(owner), page, k)
      {
        owner := owner - {page + k};
        k := k + 1;
        assert forall g: nat :: PageInRun(g, page, k) <==> PageInRun(g, page, k - 1) || g == page + k - 1;
      }
    }

    method MarkPages(page: nat, n: nat)
      modifies `owner
      ensures owner == Marked(old(owner), page, n)
    {
      var k := 0;
      while k < n
        invariant 0 <= k <= n && owner == Marked(old(owner), page, k)
      {
        owner := owner[page + k := page];
        k := k + 1;
        assert forall g: nat :: PageInRun(g, page, k) <==> PageInRun(g, page, k - 1) || g == page + k - 1;
      }
    }
  }

  lemma UserInUse(p: Pool, s: nat, j: nat)
    requires Basic(p) && User(p, s, j)
    ensures s in p.slabs && Live(p, s, j) && p.slabs[s].inuse > 0 && p.slabs[s].cache < CACHES
  {
    assert SlabOk(p.slabs[s], p.chains[s]);
    LiveCounts(p.slabs[s], p.chains[s], j);
  }

  lemma DropOthers(p: Pool, s: nat)
    requires Basic(p) && s in p.slabs && p.slabs[s].cache < CACHES
    ensures forall t :: t in p.slabs && t != s ==> t in Drop(p, s).slabs && Drop(p, s).slabs[t] == p.slabs[t]
  {
    hide SlabOk, Remove;
  }

  lemma DropFacts(p: Pool, s: nat)
    requires PoolOk(p) && InUse(p) && s in p.slabs && p.slabs[s].cache < CACHES
    ensures Basic(p) && RunsOk(p) && InUse(Drop(p, s)) && Kept(Drop(p, s), p)
    ensures Drop(p, s).slabs.Keys == p.slabs.Keys - {s}
  {
    hide SlabOk, Remove, Layout, ListsOk, HomesOk;
  }

  lemma SlabRun(p: Pool, v: BuddyTables.View, others: set<nat>, total: set<nat>, s: nat)
    requires Accounts(p, v, others, total) && s in p.slabs
    ensures var n := Pages(p.slabs[s].cache); Zoned(v, s, n) && PageSet(s, n) !! FreePageSet(v)
  {
    hide BuddyTables.Ok, FreePageSet, PageSet, Zoned, Pages;
    assert SlabPlaced(p, v, others, s);
  }

  lemma RunNotFree(p: Pool, v: BuddyTables.View, others: set<nat>, total: set<nat>, run: set<nat>)
    requires Accounts(p, v, others, total) && run <= others
    ensures run !! FreePageSet(v)
  {
    hide BuddyTables.Ok, FreePageSet;
  }

  // kmalloc finds no object of the size: no slot in its cache, and no new slab.
  ghost predicate NoObject(p: Pool, v: BuddyTables.View, size: nat)
    requires BuddyTables.Ok(v) && Basic(p)
  {
    CacheFor(size) < CACHES && p.notfull[CacheFor(size)] == [] && NoSlab(p, v, CacheFor(size))
  }

  // kmem_cache_grow fails: no room for the slab, or its pages would be the last and its management area needs one.
  ghost predicate NoSlab(p: Pool, v: BuddyTables.View, c: nat)
    requires BuddyTables.Ok(v) && Basic(p) && c < CACHES
  {
    || NoRoom(v, Pages(c))
    || (Layout(c).offSlab && Layout(c).mgmtCache < CACHES && p.notfull[Layout(c).mgmtCache] == []
        && |FreePageSet(v)| == Pages(c))
  }

  // With the pages of the slab taken, the cache of its management area cannot grow exactly if none is left.
  lemma NoManagement(p: Pool, v: BuddyTables.View, w: BuddyTables.View, c: nat, a: nat)
    requires BuddyTables.Ok(v) && BuddyTables.Ok(w) && Basic(p) && c < CACHES && Layout(c).offSlab
    requires PageSet(a, Pages(c)) <= FreePageSet(v) && FreePageSet(w) == FreePageSet(v) - PageSet(a, Pages(c))
    ensures var m := Layout(c).mgmtCache;
            && m < CACHES && !Layout(m).offSlab
            && (NoSlab(p, w, m) <==> |FreePageSet(v)| == Pages(c))
  {
    hide BuddyTables.Ok, FreePageSet, PageSet, NoRoom, Basic;
    LayoutFits(c);
    MgmtPages(c);
    NoRoomForOne(w);
    PageSetSize(a, Pages(c));
    assert FreePageSet(v) == FreePageSet(w) + PageSet(a, Pages(c));
  }

  // A slot taken from a slab there is.
  lemma UsedSlab(p: Pool, q: Pool, v: BuddyTables.View, others: set<nat>, total: set<nat>, c: nat, s: nat, j: nat)
    requires PoolOk(p) && InUse(p) && Accounts(p, v, others, total) && TookFrom(p, q, c, s, j)
    ensures InUse(q) && Accounts(q, v, others, total) && Kept(p, q) && Allotted(p, q, c, s, j) && SameZones(v, v)
  {
    hide PoolOk, Accounts, TookFrom, Kept, Allotted, SameZones;
    TookInUse(p, q, c, s, j);
    TookOneMore(p, q, c, s, j);
    AccountsSame(p, q, v, others, total);
    KeptSame(p, v);
  }

  lemma KeptSame(p: Pool, v: BuddyTables.View)
    ensures Kept(p, p) && SameZones(v, v)
  {}

  lemma KeptBack(p: Pool, q: Pool, v: BuddyTables.View)
    requires Kept(p, q) && q.slabs.Keys == p.slabs.Keys
    ensures Kept(q, p) && SameZones(v, v)
  {}

  lemma KeptTwice(p: Pool, q: Pool, r: Pool)
    requires Kept(p, q) && Kept(q, r)
    ensures Kept(p, r)
  {}

  lemma ZonesTwice(u: BuddyTables.View, v: BuddyTables.View, w: BuddyTables.View)
    requires SameZones(u, v) && SameZones(v, w)
    ensures SameZones(u, w)
  {}

  lemma ZonesStay(u: BuddyTables.View, v: BuddyTables.View, w: BuddyTables.View, a: nat, n: nat)
    requires SameZones(u, v) && SameZones(v, w) && BuddyTables.Ok(v) && BuddyTables.Ok(w)
    ensures SameZones(u, w) && Zoned(w, a, n) == Zoned(v, a, n)
  {
    SameZoned(v, w, a, n);
    hide BuddyTables.Ok, Zoned;
  }

  lemma NotThere(p: Pool, q: Pool, c: nat, a: nat)
    requires Kept(p, q) && NewRun(q, c, a)
    ensures a !in p.slabs && a !in q.slabs
  {
    hide Pages;
  }

  // An object of a caller: large enough, and apart from every other object and every management area in a slab.
  ghost predicate Separate(p: Pool, s: nat, j: nat, address: nat, size: nat) {
    && s in p.slabs && address == Address(p, s, j) && size <= Size(p, s)
    && (forall t, k :: Live(p, t, k) && (t != s || k != j) ==> Apart(address, Size(p, s), Address(p, t, k), Size(p, t)))
    && (forall t :: t in p.slabs && p.slabs[t].home == Inside ==>
          Apart(address, Size(p, s), t * PGSIZE, SLAB_T + Num(p.slabs[t]) * BUFCTL))
  }

  lemma IsSeparate(p: Pool, q: Pool, c: nat, s: nat, j: nat, size: nat)
    requires PoolOk(q) && c < CACHES && Allotted(p, q, c, s, j) && size <= Pow2(c + MIN_SIZE_ORDER)
    ensures Separate(q, s, j, AddressIn(c, s, j), size)
  {
    ApartFromAll(q, s, j);
    LayoutFits(c);
    hide PoolOk, Layout, Pow2, Num, AddressIn, Apart;
  }

  lemma BasicOf(p: Pool)
    requires PoolOk(p)
    ensures Basic(p)
  {}

  // Each slot leads to the next, the last one to the end mark.
  method FillBufctl(num: nat) returns (bufctl: seq<nat>)
    requires num > 0
    ensures bufctl == Fresh(num)
  {
    bufctl := [];
    for i := 0 to num
      invariant |bufctl| == i && forall k :: 0 <= k < i ==> bufctl[k] == k + 1
    {
      bufctl := bufctl + [i + 1];
    }
    bufctl := bufctl[num - 1 := BUFCTL_END];
  }
}
