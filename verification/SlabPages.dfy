/**
  The slabs and the page allocator under them: every page is free, in one slab,
  or somebody else's, and no operation changes how many there are.
 */
module SlabPages {
  import opened Bits
  import opened Lists
  import opened SlabLayout
  import opened SlabPool
  import opened BuddyPages
  import BuddyBlocks
  import BuddyTables

  ghost function SlabSet(p: Pool, s: nat): set<nat>
    requires s in p.slabs
  {
    PageSet(s, Pages(p.slabs[s].cache))
  }

  ghost predicate Owned(p: Pool, g: nat) {
    exists s :: s in p.slabs && g in SlabSet(p, s)
  }

  ghost predicate SlabPlaced(p: Pool, v: BuddyTables.View, others: set<nat>, s: nat)
    requires BuddyTables.Ok(v) && s in p.slabs
  {
    && p.slabs[s].cache < CACHES && Zoned(v, s, Pages(p.slabs[s].cache))
    && SlabSet(p, s) !! FreePageSet(v) && SlabSet(p, s) !! others
  }

  /** The pages of `total` are the free ones, those of others and those of the slabs, and no page is two of these. */
  ghost predicate Accounts(p: Pool, v: BuddyTables.View, others: set<nat>, total: set<nat>) {
    && BuddyTables.Ok(v) && others !! FreePageSet(v)
    && (forall s :: s in p.slabs ==> SlabPlaced(p, v, others, s))
    && forall g :: g in total <==> g in FreePageSet(v) || g in others || Owned(p, g)
  }

  // The slabs of p are slabs of q, of the same caches and managed from the same places.
  ghost predicate Kept(p: Pool, q: Pool) {
    forall s :: s in p.slabs ==>
      s in q.slabs && q.slabs[s].cache == p.slabs[s].cache && q.slabs[s].home == p.slabs[s].home
  }

  // Every slab holds an object.
  ghost predicate InUse(p: Pool) {
    forall s :: s in p.slabs ==> p.slabs[s].inuse > 0
  }

  lemma OrderSmall(c: nat)
    requires c < CACHES
    ensures Layout(c).order <= BuddyBlocks.MAX_ORDER && 0 < Pages(c) <= Pow2(BuddyBlocks.MAX_ORDER)
  {
    Pow2Monotone(Layout(c).order, BuddyBlocks.MAX_ORDER);
    hide Pow2;
  }

  // Management areas come from slabs of one page.
  lemma MgmtPages(c: nat)
    requires c < CACHES && Layout(c).offSlab
    ensures Pages(Layout(c).mgmtCache) == 1
  {
    assert Pow2(0) == 1;
  }

  // ---- what becomes of the account

  lemma AccountsSame(p: Pool, q: Pool, v: BuddyTables.View, others: set<nat>, total: set<nat>)
    requires Accounts(p, v, others, total) && Kept(p, q) && q.slabs.Keys == p.slabs.Keys
    ensures Accounts(q, v, others, total)
  {
    hide BuddyTables.Ok, FreePageSet, Pages, PageSet;
    assert forall s :: s in p.slabs ==> SlabSet(q, s) == SlabSet(p, s);
    assert forall s :: s in q.slabs ==> SlabPlaced(p, v, others, s);
    assert forall g :: Owned(q, g) <==> Owned(p, g);
  }

  lemma AccountsTake(p: Pool, v: BuddyTables.View, w: BuddyTables.View, others: set<nat>, total: set<nat>,
                     run: set<nat>)
    requires Accounts(p, v, others, total) && BuddyTables.Ok(w) && SameZones(v, w)
    requires run <= FreePageSet(v) && FreePageSet(w) == FreePageSet(v) - run
    ensures Accounts(p, w, others + run, total) && run !! others
  {
    hide BuddyTables.Ok, FreePageSet, PageSet, SameZones, Zoned, Pages;
    forall s | s in p.slabs ensures SlabPlaced(p, w, others + run, s) {
      assert SlabPlaced(p, v, others, s);
      SameZoned(v, w, s, Pages(p.slabs[s].cache));
    }
  }

  lemma AccountsPut(p: Pool, v: BuddyTables.View, w: BuddyTables.View, others: set<nat>, total: set<nat>, run: set<nat>)
    requires Accounts(p, v, others + run, total) && BuddyTables.Ok(w) && SameZones(v, w)
    requires run !! others && FreePageSet(w) == FreePageSet(v) + run
    ensures Accounts(p, w, others, total)
  {
    hide BuddyTables.Ok, FreePageSet, PageSet, SameZones, Zoned, Pages;
    forall s | s in p.slabs ensures SlabPlaced(p, w, others, s) {
      assert SlabPlaced(p, v, others + run, s);
      SameZoned(v, w, s, Pages(p.slabs[s].cache));
    }
  }

  // A run set aside becomes a slab.
  lemma AccountsGrow(p: Pool, q: Pool, v: BuddyTables.View, others: set<nat>, total: set<nat>, c: nat, a: nat)
    requires c < CACHES && Accounts(p, v, others + PageSet(a, Pages(c)), total) && PageSet(a, Pages(c)) !! others
    requires Zoned(v, a, Pages(c)) && a !in p.slabs && Kept(p, q) && q.slabs.Keys == p.slabs.Keys + {a}
    requires q.slabs[a].cache == c
    ensures Accounts(q, v, others, total)
  {
    hide BuddyTables.Ok, FreePageSet, PageSet, Zoned, Pages;
    var run := PageSet(a, Pages(c));
    forall s | s in q.slabs ensures SlabPlaced(q, v, others, s) {
      if s != a {
        assert SlabPlaced(p, v, others + run, s);
      }
    }
    forall g ensures Owned(q, g) <==> Owned(p, g) || g in run {
      OwnedGrows(p, q, c, a, g);
    }
  }

  lemma OwnedGrows(p: Pool, q: Pool, c: nat, a: nat, g: nat)
    requires a !in p.slabs && Kept(p, q) && q.slabs.Keys == p.slabs.Keys + {a} && q.slabs[a].cache == c
    ensures Owned(q, g) <==> Owned(p, g) || g in PageSet(a, Pages(c))
  {
    hide PageSet, Pages;
    if Owned(p, g) {
      var s :| s in p.slabs && g in SlabSet(p, s);
      assert s in q.slabs && g in SlabSet(q, s);
    }
    if Owned(q, g) {
      var s :| s in q.slabs && g in SlabSet(q, s);
      assert s in p.slabs ==> g in SlabSet(p, s);
    }
    assert g in SlabSet(q, a) <==> g in PageSet(a, Pages(c));
  }

  // A slab's pages go back.
  lemma AccountsDrop(p: Pool, q: Pool, v: BuddyTables.View, w: BuddyTables.View, others: set<nat>, total: set<nat>,
                     s: nat)
    requires Accounts(p, v, others, total) && RunsOk(p) && s in p.slabs && Kept(q, p)
    requires q.slabs.Keys == p.slabs.Keys - {s}
    requires BuddyTables.Ok(w) && SameZones(v, w) && FreePageSet(w) == FreePageSet(v) + SlabSet(p, s)
    ensures Accounts(q, w, others, total)
  {
    hide BuddyTables.Ok, FreePageSet, PageSet, SameZones, Zoned, Pages;
    assert SlabPlaced(p, v, others, s);
    forall t | t in q.slabs ensures SlabPlaced(q, w, others, t) {
      assert SlabPlaced(p, v, others, t);
      SameZoned(v, w, t, Pages(p.slabs[t].cache));
      RunsDisjoint(s, Pages(p.slabs[s].cache), t, Pages(p.slabs[t].cache));
    }
    forall g ensures Owned(p, g) <==> Owned(q, g) || g in SlabSet(p, s) {
      OwnedGrows(q, p, p.slabs[s].cache, s, g);
    }
  }

  lemma RunsDisjoint(a: nat, n: nat, b: nat, m: nat)
    requires Apart(a, n, b, m)
    ensures PageSet(a, n) !! PageSet(b, m)
  {}

  // Pages set aside meet no slab.
  lemma NewFromAccounts(p: Pool, v: BuddyTables.View, others: set<nat>, total: set<nat>, c: nat, a: nat)
    requires c < CACHES && Accounts(p, v, others, total) && PageSet(a, Pages(c)) <= others
    ensures NewRun(p, c, a)
  {
    OrderSmall(c);
    forall s | s in p.slabs ensures a != s && Apart(a, Pages(c), s, Pages(p.slabs[s].cache)) {
      assert SlabPlaced(p, v, others, s);
      OrderSmall(p.slabs[s].cache);
      DisjointRuns(a, Pages(c), s, Pages(p.slabs[s].cache));
    }
    hide BuddyTables.Ok, FreePageSet, PageSet, Zoned, Pages;
  }

  lemma DisjointRuns(a: nat, n: nat, b: nat, m: nat)
    requires 0 < n && 0 < m && PageSet(a, n) !! PageSet(b, m)
    ensures a != b && Apart(a, n, b, m)
  {
    var g := if a < b then b else a;
    assert g in PageSet(a, n) <==> PageInRun(g, a, n);
    assert g in PageSet(b, m) <==> PageInRun(g, b, m);
  }

  /** The slabs, the others' pages and the total determine which pages are free. */
  lemma AccountsFree(p: Pool, v: BuddyTables.View, w: BuddyTables.View, others: set<nat>, total: set<nat>)
    requires Accounts(p, v, others, total) && Accounts(p, w, others, total)
    ensures FreePageSet(v) == FreePageSet(w)
  {
    forall g ensures g in FreePageSet(v) <==> g in total && g !in others && !Owned(p, g) {
      FreeNotOwned(p, v, others, total, g);
    }
    forall g ensures g in FreePageSet(w) <==> g in total && g !in others && !Owned(p, g) {
      FreeNotOwned(p, w, others, total, g);
    }
  }

  lemma FreeNotOwned(p: Pool, v: BuddyTables.View, others: set<nat>, total: set<nat>, g: nat)
    requires Accounts(p, v, others, total)
    ensures g in FreePageSet(v) <==> g in total && g !in others && !Owned(p, g)
  {
    hide BuddyTables.Ok, FreePageSet, PageSet, Zoned, Pages;
    assert forall s :: s in p.slabs ==> SlabPlaced(p, v, others, s);
  }

  // ---- slabs without objects

  /** Where there is a slab some caller holds an object: without objects no slab is left. */
  lemma SomeObject(p: Pool) returns (t: nat, k: nat)
    requires PoolOk(p) && InUse(p) && p.slabs != map[]
    ensures User(p, t, k)
  {
    hide PoolOk, Live, Layout;
    t :| t in p.slabs;
    k := SomeLive(p, t);
    if !User(p, t, k) {
      t :| t in p.slabs && p.slabs[t].home.Object?;
      k := SomeLive(p, t);
      OutsideHasNoHomes(p, t, k);
    }
  }

  // A slab in use has a live slot.
  lemma SomeLive(p: Pool, s: nat) returns (j: nat)
    requires PoolOk(p) && s in p.slabs && p.slabs[s].inuse > 0
    ensures Live(p, s, j)
  {
    assert SlabOk(p.slabs[s], p.chains[s]);
    if forall k :: 0 <= k < Num(p.slabs[s]) ==> k in p.chains[s] {
      AllListed(p.chains[s], 0, Num(p.slabs[s]));
      assert false;
    }
    j :| 0 <= j < Num(p.slabs[s]) && j !in p.chains[s];
  }

  /** The objects that callers hold, and where slabs are managed from, determine which slabs there are. */
  lemma ObjectsDetermineSlabs(p: Pool, q: Pool, r: Pool)
    requires PoolOk(p) && InUse(p) && PoolOk(r) && InUse(r) && Kept(p, q) && Kept(r, q)
    requires forall t, k :: User(p, t, k) <==> User(r, t, k)
    ensures p.slabs.Keys == r.slabs.Keys && Kept(r, p)
  {
    hide PoolOk, InUse, User;
    forall s | s in p.slabs ensures s in r.slabs {
      SlabStays(p, q, r, s);
    }
    forall s | s in r.slabs ensures s in p.slabs {
      SlabStays(r, q, p, s);
    }
  }

  lemma SlabStays(p: Pool, q: Pool, r: Pool, s: nat)
    requires PoolOk(p) && InUse(p) && PoolOk(r) && Kept(p, q) && Kept(r, q) && s in p.slabs
    requires forall t, k :: User(p, t, k) ==> User(r, t, k)
    ensures s in r.slabs
  {
    hide PoolOk, Layout;
    var j := SomeLive(p, s);
    if User(p, s, j) {
      assert User(r, s, j);
    } else {
      var t :| t in p.slabs && p.slabs[t].home == Object(s, j);
      var k := SomeLive(p, t);
      OutsideHasNoHomes(p, t, k);
      assert User(p, t, k) && User(r, t, k);
      HomeIsLive(r, t);
    }
  }

  lemma HomeIsLive(p: Pool, t: nat)
    requires PoolOk(p) && t in p.slabs && p.slabs[t].home.Object?
    ensures Live(p, p.slabs[t].home.slab, p.slabs[t].home.slot)
  {
    assert HomeOk(p, t);
  }

  // The objects of a slab that is managed outside manage no slab themselves.
  lemma OutsideHasNoHomes(p: Pool, t: nat, k: nat)
    requires PoolOk(p) && t in p.slabs && p.slabs[t].home.Object?
    ensures !IsHome(p, t, k)
  {
    assert HomeOk(p, t) && SlabOk(p.slabs[t], p.chains[t]);
    if IsHome(p, t, k) {
      var u :| u in p.slabs && p.slabs[u].home == Object(t, k);
      assert HomeOk(p, u) && SlabOk(p.slabs[u], p.chains[u]);
      LayoutFits(p.slabs[u].cache);
      assert false;
    }
  }
}
