/**
  The state of the slab allocator of ucore/kern/mm/kmalloc.c and what one
  allocation, one release, one new slab and one destroyed slab do to it.
 */
module SlabPool {
  import opened Bits
  import opened Lists
  import opened SlabLayout

  const BUFCTL_END: nat := 0xFFFF_FFFF

  // Where a slab's management area is: in its first page, or an object of another slab.
  datatype Home = Inside | Object(slab: nat, slot: nat)

  datatype Slab = Slab(cache: nat, bufctl: seq<nat>, free: nat, inuse: nat, home: Home)

  // Slabs by their first page; the chain of free slots of each; per cache the full and the other slabs.
  datatype Pool = Pool(slabs: map<nat, Slab>, chains: map<nat, seq<nat>>, full: seq<seq<nat>>, notfull: seq<seq<nat>>)

  function Num(s: Slab): nat { Layout(s.cache).num }

  // The bufctl entries lead from head through the chain to the end mark.
  predicate Linked(bufctl: seq<nat>, head: nat, chain: seq<nat>) {
    && (forall i :: 0 <= i < |chain| ==> chain[i] < |bufctl|)
    && head == (if chain == [] then BUFCTL_END else chain[0])
    && (forall i :: 0 <= i < |chain| ==> bufctl[chain[i]] == Following(chain, i))
  }

  function Following(chain: seq<nat>, i: nat): nat {
    if i + 1 < |chain| then chain[i + 1] else BUFCTL_END
  }

  // The chain visits num - inuse distinct slots.
  predicate SlabOk(s: Slab, chain: seq<nat>) {
    && s.cache < CACHES && |s.bufctl| == Num(s)
    && Linked(s.bufctl, s.free, chain) && Distinct(chain) && |chain| + s.inuse == Num(s)
  }

  predicate Basic(p: Pool) {
    && |p.full| == |p.notfull| == CACHES && p.chains.Keys == p.slabs.Keys
    && forall s :: s in p.slabs ==> SlabOk(p.slabs[s], p.chains[s])
  }

  predicate IsFull(p: Pool, c: nat, s: nat) {
    s in p.slabs && p.slabs[s].cache == c && p.slabs[s].inuse == Num(p.slabs[s])
  }

  predicate IsNotFull(p: Pool, c: nat, s: nat) {
    s in p.slabs && p.slabs[s].cache == c && p.slabs[s].inuse < Num(p.slabs[s])
  }

  // A slab is on the full list of its cache exactly if all its objects are in use.
  ghost predicate ListsOk(p: Pool)
    requires Basic(p)
  {
    forall c :: 0 <= c < CACHES ==> ListOk(p, c)
  }

  ghost predicate ListOk(p: Pool, c: nat)
    requires Basic(p) && c < CACHES
  {
    && Distinct(p.full[c]) && Distinct(p.notfull[c])
    && (forall s :: s in p.full[c] <==> IsFull(p, c, s)) && (forall s :: s in p.notfull[c] <==> IsNotFull(p, c, s))
  }

  function Pages(cache: nat): nat { Pow2(Layout(cache).order) }

  // Two page runs do not meet.
  predicate Apart(a: nat, n: nat, b: nat, m: nat) {
    a + n <= b || b + m <= a
  }

  ghost predicate RunsOk(p: Pool) {
    forall s, t :: s in p.slabs && t in p.slabs && s != t ==>
      Apart(s, Pages(p.slabs[s].cache), t, Pages(p.slabs[t].cache))
  }

  // The slot holds an object.
  predicate Live(p: Pool, s: nat, j: nat) {
    s in p.slabs && s in p.chains && j < Num(p.slabs[s]) && j !in p.chains[s]
  }

  ghost predicate IsHome(p: Pool, t: nat, j: nat) {
    exists s :: s in p.slabs && p.slabs[s].home == Object(t, j)
  }

  // An object that a caller of kmalloc holds.
  ghost predicate User(p: Pool, s: nat, j: nat) {
    Live(p, s, j) && !IsHome(p, s, j)
  }

  predicate HomeOk(p: Pool, s: nat)
    requires s in p.slabs
  {
    && (p.slabs[s].home.Object? <==> Layout(p.slabs[s].cache).offSlab)
    && (p.slabs[s].home.Object? ==>
          && Live(p, p.slabs[s].home.slab, p.slabs[s].home.slot)
          && p.slabs[p.slabs[s].home.slab].cache == Layout(p.slabs[s].cache).mgmtCache)
  }

  // Every slab managed from outside has an object of its own for that.
  ghost predicate HomesOk(p: Pool) {
    && (forall s :: s in p.slabs ==> HomeOk(p, s))
    && (forall s, t :: s in p.slabs && t in p.slabs && s != t && p.slabs[s].home.Object? ==>
          p.slabs[s].home != p.slabs[t].home)
  }

  ghost predicate PoolOk(p: Pool) {
    Basic(p) && ListsOk(p) && RunsOk(p) && HomesOk(p)
  }

  // ---- chains

  lemma PopChain(bufctl: seq<nat>, head: nat, chain: seq<nat>)
    requires Linked(bufctl, head, chain) && chain != [] && Distinct(chain)
    ensures head < |bufctl| && Linked(bufctl, bufctl[head], chain[1..]) && Distinct(chain[1..]) && head == chain[0]
    ensures head !in chain[1..]
  {
    var t := chain[1..];
    assert forall i :: 0 <= i < |t| ==> t[i] == chain[i + 1] && Following(t, i) == Following(chain, i + 1);
  }

  lemma PushChain(bufctl: seq<nat>, head: nat, chain: seq<nat>, j: nat)
    requires Linked(bufctl, head, chain) && Distinct(chain) && j < |bufctl| && j !in chain
    ensures Linked(bufctl[j := head], j, [j] + chain) && Distinct([j] + chain)
  {
    var n := [j] + chain;
    forall i | 0 <= i < |n| ensures n[i] < |bufctl| && bufctl[j := head][n[i]] == Following(n, i) {
      if i > 0 {
        assert n[i] == chain[i - 1] && chain[i - 1] in chain && bufctl[chain[i - 1]] == Following(chain, i - 1);
      }
    }
    Prepend(j, chain);
  }

  // The chain of a new slab.
  function Fresh(num: nat): seq<nat> {
    seq(num, i => if i + 1 < num then i + 1 else BUFCTL_END)
  }

  function All(num: nat): seq<nat> {
    seq(num, i => i)
  }

  lemma FreshChain(num: nat)
    requires 0 < num
    ensures Linked(Fresh(num), 0, All(num)) && Distinct(All(num)) && |All(num)| == num
  {}

  lemma NumSmall(c: nat)
    requires c < CACHES
    ensures 0 < Layout(c).num <= 113
  {
    LayoutFits(c);
    SmallPowers();
    if c >= 4 {
      Pow2Monotone(12 + OrderFor(c + 5) - (c + 5), 3);
    }
  }

  lemma ChainEnds(bufctl: seq<nat>, head: nat, chain: seq<nat>)
    requires Linked(bufctl, head, chain) && |bufctl| <= 113
    ensures head == BUFCTL_END <==> chain == []
  {}

  // ---- changing one slab

  // Slab s of cache c changes to r with free slots ch; f and n are the lists of the cache.
  function Update(p: Pool, s: nat, r: Slab, ch: seq<nat>, f: seq<nat>, n: seq<nat>): Pool
    requires Basic(p) && r.cache < CACHES
  {
    Pool(p.slabs[s := r], p.chains[s := ch], p.full[r.cache := f], p.notfull[r.cache := n])
  }

  // s is where its number of objects in use says, and the other slabs are where they were.
  ghost predicate Listed(p: Pool, s: nat, r: Slab, f: seq<nat>, n: seq<nat>)
    requires Basic(p) && r.cache < CACHES
  {
    && Distinct(f) && Distinct(n) && (s in f <==> r.inuse == Num(r)) && (s in n <==> r.inuse < Num(r))
    && (forall x :: x != s ==> (x in f <==> x in p.full[r.cache]) && (x in n <==> x in p.notfull[r.cache]))
  }

  lemma UpdateBasic(p: Pool, s: nat, r: Slab, ch: seq<nat>, f: seq<nat>, n: seq<nat>)
    requires Basic(p) && r.cache < CACHES && SlabOk(r, ch)
    ensures Basic(Update(p, s, r, ch, f, n))
  {
    hide SlabOk;
  }

  lemma UpdateLists(p: Pool, s: nat, r: Slab, ch: seq<nat>, f: seq<nat>, n: seq<nat>)
    requires Basic(p) && ListsOk(p) && SlabOk(r, ch) && Listed(p, s, r, f, n)
    requires (s in p.slabs ==> p.slabs[s].cache == r.cache)
    ensures Basic(Update(p, s, r, ch, f, n)) && ListsOk(Update(p, s, r, ch, f, n))
  {
    UpdateBasic(p, s, r, ch, f, n);
    hide Num, SlabOk, ListOk;
    var q := Update(p, s, r, ch, f, n);
    forall d | 0 <= d < CACHES ensures ListOk(q, d) {
      assert ListOk(p, d);
      UpdateList(p, s, r, ch, f, n, d);
    }
  }

  lemma UpdateList(p: Pool, s: nat, r: Slab, ch: seq<nat>, f: seq<nat>, n: seq<nat>, d: nat)
    requires Basic(p) && d < CACHES && ListOk(p, d) && r.cache < CACHES && Basic(Update(p, s, r, ch, f, n))
    requires Listed(p, s, r, f, n) && (s in p.slabs ==> p.slabs[s].cache == r.cache)
    ensures ListOk(Update(p, s, r, ch, f, n), d)
  {
    hide Num, SlabOk, Distinct;
    var q := Update(p, s, r, ch, f, n);
    forall x ensures (x in q.full[d] <==> IsFull(q, d, x)) && (x in q.notfull[d] <==> IsNotFull(q, d, x)) {
      assert x != s ==> (IsFull(q, d, x) <==> IsFull(p, d, x)) && (IsNotFull(q, d, x) <==> IsNotFull(p, d, x));
    }
  }

  // The homes in slab s stay in use.
  ghost predicate KeepsHomes(p: Pool, s: nat, ch: seq<nat>) {
    forall t :: t in p.slabs && p.slabs[t].home.Object? && p.slabs[t].home.slab == s ==> p.slabs[t].home.slot !in ch
  }

  lemma UpdateHomes(p: Pool, s: nat, r: Slab, ch: seq<nat>, f: seq<nat>, n: seq<nat>)
    requires Basic(p) && HomesOk(p) && s in p.slabs && r.cache == p.slabs[s].cache < CACHES && r.home == p.slabs[s].home
    requires KeepsHomes(p, s, ch)
    ensures HomesOk(Update(p, s, r, ch, f, n))
  {
    hide Layout, SlabOk;
    var q := Update(p, s, r, ch, f, n);
    forall t | t in q.slabs ensures HomeOk(q, t) {
      assert HomeOk(p, t);
    }
  }

  // Changing a slab's free slots changes which of its slots are live, and no home.
  lemma UpdateLive(p: Pool, s: nat, r: Slab, ch: seq<nat>, f: seq<nat>, n: seq<nat>, t: nat, k: nat)
    requires Basic(p) && s in p.slabs && r.cache == p.slabs[s].cache < CACHES && r.home == p.slabs[s].home
    ensures var q := Update(p, s, r, ch, f, n);
            && (Live(q, t, k) <==> if t == s then k < Num(r) && k !in ch else Live(p, t, k))
            && (IsHome(q, t, k) <==> IsHome(p, t, k))
  {
    var q := Update(p, s, r, ch, f, n);
    assert forall u :: u in p.slabs ==> u in q.slabs && q.slabs[u].home == p.slabs[u].home;
  }

  lemma UpdateOk(p: Pool, s: nat, r: Slab, ch: seq<nat>, f: seq<nat>, n: seq<nat>)
    requires PoolOk(p) && s in p.slabs && r.cache == p.slabs[s].cache && r.home == p.slabs[s].home
    requires SlabOk(r, ch) && Listed(p, s, r, f, n) && KeepsHomes(p, s, ch)
    ensures PoolOk(Update(p, s, r, ch, f, n))
  {
    UpdateLists(p, s, r, ch, f, n);
    UpdateHomes(p, s, r, ch, f, n);
    hide Layout, SlabOk, HomesOk, ListsOk;
  }

  // ---- kmem_cache_alloc_one

  function Took(s: Slab): Slab
    requires s.free < |s.bufctl|
  {
    s.(inuse := s.inuse + 1, free := s.bufctl[s.free])
  }

  // The first slab with room gives its first free slot, and moves to the full ones if that was its last.
  function Take(p: Pool, c: nat): Pool
    requires Basic(p) && c < CACHES && p.notfull[c] != [] && IsNotFull(p, c, p.notfull[c][0])
  {
    var s := p.notfull[c][0];
    var r := Took(p.slabs[s]);
    var last := r.free == BUFCTL_END;
    Update(p, s, r, p.chains[s][1..],
           if last then [s] + p.full[c] else p.full[c], if last then p.notfull[c][1..] else p.notfull[c])
  }

  lemma FirstNotFull(p: Pool, c: nat)
    requires PoolOk(p) && c < CACHES && p.notfull[c] != []
    ensures var s := p.notfull[c][0];
            && IsNotFull(p, c, s) && p.chains[s] != [] && p.slabs[s].free == p.chains[s][0] < |p.slabs[s].bufctl|
            && p.slabs[s].free < Num(p.slabs[s]) && !Live(p, s, p.slabs[s].free)
  {
    assert ListOk(p, c);
    assert p.notfull[c][0] in p.notfull[c];
  }

  lemma TookOk(s: Slab, chain: seq<nat>)
    requires SlabOk(s, chain) && chain != []
    ensures s.free < |s.bufctl| && SlabOk(Took(s), chain[1..]) && s.free == chain[0] && s.free !in chain[1..]
    ensures Took(s).free == BUFCTL_END <==> Took(s).inuse == Num(s)
  {
    PopChain(s.bufctl, s.free, chain);
    NumSmall(s.cache);
    hide Linked, Layout, Distinct;
    ChainEnds(s.bufctl, Took(s).free, chain[1..]);
  }

  lemma TakeListed(p: Pool, c: nat)
    requires PoolOk(p) && c < CACHES && p.notfull[c] != []
    ensures var s := p.notfull[c][0]; IsNotFull(p, c, s) && p.slabs[s].free < |p.slabs[s].bufctl|
    ensures var s := p.notfull[c][0]; var r := Took(p.slabs[s]); var last := r.free == BUFCTL_END;
            Listed(p, s, r,
                   if last then [s] + p.full[c] else p.full[c], if last then p.notfull[c][1..] else p.notfull[c])
  {
    FirstNotFull(p, c);
    var s := p.notfull[c][0];
    TookOk(p.slabs[s], p.chains[s]);
    assert ListOk(p, c);
    MovedToFull(p, c, Took(p.slabs[s]));
    hide Listed, SlabOk, Linked;
  }

  lemma MovedToFull(p: Pool, c: nat, r: Slab)
    requires Basic(p) && c < CACHES && ListOk(p, c) && p.notfull[c] != [] && r.cache == c && r.inuse <= Num(r)
    ensures r.inuse == Num(r) ==> Listed(p, p.notfull[c][0], r, [p.notfull[c][0]] + p.full[c], p.notfull[c][1..])
    ensures r.inuse < Num(r) ==> Listed(p, p.notfull[c][0], r, p.full[c], p.notfull[c])
  {
    hide Num, SlabOk;
    var s := p.notfull[c][0];
    assert s in p.notfull[c];
    Tail(p.notfull[c]);
    Prepend(s, p.full[c]);
    hide Distinct;
  }

  // A slot given out: everything stays in order, and exactly one more slot is live.
  lemma TakeOk(p: Pool, c: nat)
    requires PoolOk(p) && c < CACHES && p.notfull[c] != []
    ensures IsNotFull(p, c, p.notfull[c][0]) && PoolOk(Take(p, c))
    ensures var s := p.notfull[c][0];
            && s in p.slabs && p.slabs[s].free < Num(p.slabs[s]) && !Live(p, s, p.slabs[s].free)
            && forall t, k :: (Live(Take(p, c), t, k) <==> Live(p, t, k) || (t == s && k == p.slabs[s].free))
                              && (IsHome(Take(p, c), t, k) <==> IsHome(p, t, k))
  {
    FirstNotFull(p, c);
    TakeListed(p, c);
    var s := p.notfull[c][0];
    var r := Took(p.slabs[s]);
    var last := r.free == BUFCTL_END;
    var f, n := if last then [s] + p.full[c] else p.full[c], if last then p.notfull[c][1..] else p.notfull[c];
    TookOk(p.slabs[s], p.chains[s]);
    TailOf(p.chains[s]);
    TakeKeepsHomes(p, s);
    UpdateOk(p, s, r, p.chains[s][1..], f, n);
    hide PoolOk, SlabOk, Layout, IsHome;
    forall t, k
      ensures Live(Take(p, c), t, k) <==> Live(p, t, k) || (t == s && k == p.slabs[s].free)
      ensures IsHome(Take(p, c), t, k) <==> IsHome(p, t, k)
    {
      UpdateLive(p, s, r, p.chains[s][1..], f, n, t, k);
    }
  }

  lemma TakeKeepsHomes(p: Pool, s: nat)
    requires PoolOk(p) && s in p.slabs && p.chains[s] != []
    ensures KeepsHomes(p, s, p.chains[s][1..])
  {
    TailOf(p.chains[s]);
    forall t | t in p.slabs && p.slabs[t].home.Object? && p.slabs[t].home.slab == s
      ensures p.slabs[t].home.slot !in p.chains[s][1..]
    {
      assert HomeOk(p, t);
    }
  }

  // ---- kmem_cache_free_one

  function Gave(s: Slab, j: nat): Slab
    requires j < |s.bufctl| && s.inuse > 0
  {
    s.(bufctl := s.bufctl[j := s.free], free := j, inuse := s.inuse - 1)
  }

  // A slot that is not its slab's last in use goes back; a slab that was full gets room again.
  function Give(p: Pool, s: nat, j: nat): Pool
    requires Basic(p) && Live(p, s, j) && p.slabs[s].inuse > 0
  {
    var c := p.slabs[s].cache;
    var r := Gave(p.slabs[s], j);
    var reopened := r.inuse == Num(r) - 1;
    Update(p, s, r, [j] + p.chains[s],
           if reopened then Remove(p.full[c], s) else p.full[c], if reopened then [s] + p.notfull[c] else p.notfull[c])
  }

  // Live slots are counted: one is live, so the slab is in use.
  lemma LiveCounts(s: Slab, chain: seq<nat>, j: nat)
    requires SlabOk(s, chain) && j < Num(s) && j !in chain
    ensures s.inuse > 0
  {
    Prepend(j, chain);
    var all := [j] + chain;
    assert forall i :: 0 < i < |all| ==> all[i] == chain[i - 1];
    Bound(all, Num(s));
  }

  // Distinct numbers below n are at most n.
  lemma {:induction false} Bound(chain: seq<nat>, n: nat)
    requires Distinct(chain) && forall i :: 0 <= i < |chain| ==> chain[i] < n
    ensures |chain| <= n
    decreases n
  {
    if n > 0 {
      RemoveFacts(chain, n - 1);
      RemoveLength(chain, n - 1);
      var t := Remove(chain, n - 1);
      assert forall i :: 0 <= i < |t| ==> t[i] in t && t[i] in chain;
      Bound(t, n - 1);
    }
  }

  lemma GaveOk(s: Slab, chain: seq<nat>, j: nat)
    requires SlabOk(s, chain) && j < Num(s) && j !in chain && s.inuse > 0
    ensures SlabOk(Gave(s, j), [j] + chain)
  {
    PushChain(s.bufctl, s.free, chain, j);
    hide Linked, Distinct;
  }

  lemma MovedToNotFull(p: Pool, s: nat, r: Slab)
    requires Basic(p) && s in p.slabs && r.cache == p.slabs[s].cache < CACHES && ListOk(p, r.cache)
    requires r.inuse + 1 == p.slabs[s].inuse <= Num(r)
    ensures r.inuse == Num(r) - 1 ==> Listed(p, s, r, Remove(p.full[r.cache], s), [s] + p.notfull[r.cache])
    ensures r.inuse < Num(r) - 1 ==> Listed(p, s, r, p.full[r.cache], p.notfull[r.cache])
  {
    hide Layout, SlabOk;
    assert IsFull(p, r.cache, s) || IsNotFull(p, r.cache, s);
    RemoveFacts(p.full[r.cache], s);
    if r.inuse == Num(r) - 1 {
      Prepend(s, p.notfull[r.cache]);
    }
    hide Distinct, Remove;
  }

  // A user's slot comes free: nothing else changes.
  lemma GiveOk(p: Pool, s: nat, j: nat)
    requires PoolOk(p) && User(p, s, j) && p.slabs[s].inuse > 1
    ensures PoolOk(Give(p, s, j))
    ensures forall t, k :: Live(Give(p, s, j), t, k) <==> Live(p, t, k) && !(t == s && k == j)
    ensures forall t, k :: IsHome(Give(p, s, j), t, k) <==> IsHome(p, t, k)
  {
    GiveIsUpdate(p, s, j);
    forall t, k
      ensures Live(Give(p, s, j), t, k) <==> Live(p, t, k) && !(t == s && k == j)
      ensures IsHome(Give(p, s, j), t, k) <==> IsHome(p, t, k)
    {
      GiveLive(p, s, j, t, k);
    }
    hide PoolOk, Give, Live, IsHome;
  }

  lemma GiveIsUpdate(p: Pool, s: nat, j: nat)
    requires PoolOk(p) && User(p, s, j) && p.slabs[s].inuse > 1
    ensures PoolOk(Give(p, s, j))
  {
    var c := p.slabs[s].cache;
    assert SlabOk(p.slabs[s], p.chains[s]);
    assert ListOk(p, c);
    var r := Gave(p.slabs[s], j);
    GaveOk(p.slabs[s], p.chains[s], j);
    MovedToNotFull(p, s, r);
    GiveKeepsHomes(p, s, j);
    var reopened := r.inuse == Num(r) - 1;
    var f := if reopened then Remove(p.full[c], s) else p.full[c];
    var n := if reopened then [s] + p.notfull[c] else p.notfull[c];
    hide PoolOk, Linked, Layout, IsHome, Remove, Listed, KeepsHomes;
    UpdateOk(p, s, r, [j] + p.chains[s], f, n);
  }

  lemma GiveLive(p: Pool, s: nat, j: nat, t: nat, k: nat)
    requires Basic(p) && Live(p, s, j) && p.slabs[s].inuse > 1
    ensures (Live(Give(p, s, j), t, k) <==> Live(p, t, k) && !(t == s && k == j))
    ensures (IsHome(Give(p, s, j), t, k) <==> IsHome(p, t, k))
  {
    var c := p.slabs[s].cache;
    assert SlabOk(p.slabs[s], p.chains[s]);
    var r := Gave(p.slabs[s], j);
    var reopened := r.inuse == Num(r) - 1;
    hide Linked, Layout, IsHome, Remove;
    var f := if reopened then Remove(p.full[c], s) else p.full[c];
    var n := if reopened then [s] + p.notfull[c] else p.notfull[c];
    UpdateLive(p, s, r, [j] + p.chains[s], f, n, t, k);
  }

  lemma GiveKeepsHomes(p: Pool, s: nat, j: nat)
    requires PoolOk(p) && User(p, s, j)
    ensures KeepsHomes(p, s, [j] + p.chains[s])
  {
    hide Layout, SlabOk, ListsOk, RunsOk;
    forall t | t in p.slabs && p.slabs[t].home.Object? && p.slabs[t].home.slab == s
      ensures p.slabs[t].home.slot !in [j] + p.chains[s]
    {
      assert HomeOk(p, t);
      assert p.slabs[t].home == Object(s, p.slabs[t].home.slot);
    }
  }

  // ---- kmem_slab_destroy

  // A slab without objects leaves its list, and its pages go back.
  function Drop(p: Pool, s: nat): Pool
    requires Basic(p) && s in p.slabs && p.slabs[s].cache < CACHES
  {
    var c := p.slabs[s].cache;
    Pool(p.slabs - {s}, p.chains - {s}, p.full[c := Remove(p.full[c], s)], p.notfull[c := Remove(p.notfull[c], s)])
  }

  lemma DropLists(p: Pool, s: nat)
    requires Basic(p) && ListsOk(p) && s in p.slabs
    ensures p.slabs[s].cache < CACHES && Basic(Drop(p, s)) && ListsOk(Drop(p, s))
  {
    hide Num, Linked, Distinct;
    assert SlabOk(p.slabs[s], p.chains[s]);
    var q := Drop(p, s);
    assert Basic(q);
    forall d | 0 <= d < CACHES ensures ListOk(q, d) {
      assert ListOk(p, d);
      RemoveFacts(p.full[d], s);
      RemoveFacts(p.notfull[d], s);
      assert forall x :: x != s ==> (IsFull(q, d, x) <==> IsFull(p, d, x));
      assert forall x :: x != s ==> (IsNotFull(q, d, x) <==> IsNotFull(p, d, x));
    }
  }

  // Its last object is a user's, so no slab is managed from it.
  lemma NoHomeIn(p: Pool, s: nat, j: nat, t: nat)
    requires PoolOk(p) && User(p, s, j) && p.slabs[s].inuse == 1 && t in p.slabs && p.slabs[t].home.Object?
    ensures p.slabs[t].home.slab != s
  {
    hide Layout, SlabOk, ListsOk, RunsOk;
    assert HomeOk(p, t);
    if p.slabs[t].home.slab == s {
      OnlyOne(p, s, j, p.slabs[t].home.slot);
    }
  }

  lemma DropHomes(p: Pool, s: nat, j: nat)
    requires PoolOk(p) && User(p, s, j) && p.slabs[s].inuse == 1 && p.slabs[s].cache < CACHES
    ensures HomesOk(Drop(p, s))
  {
    var q := Drop(p, s);
    forall t | t in q.slabs ensures HomeOk(q, t) {
      assert HomeOk(p, t);
      if p.slabs[t].home.Object? {
        NoHomeIn(p, s, j, t);
      }
      DropHome(p, s, t);
    }
    hide Layout, SlabOk, ListsOk, RunsOk, Remove, HomeOk, User;
  }

  lemma DropHome(p: Pool, s: nat, t: nat)
    requires Basic(p) && s in p.slabs && p.slabs[s].cache < CACHES && t in p.slabs && t != s
    requires HomeOk(p, t) && (p.slabs[t].home.Object? ==> p.slabs[t].home.slab != s)
    ensures HomeOk(Drop(p, s), t)
  {
    hide Layout, SlabOk, Remove;
  }

  lemma OnlyOne(p: Pool, s: nat, j: nat, k: nat)
    requires Basic(p) && Live(p, s, j) && Live(p, s, k) && p.slabs[s].inuse == 1
    ensures j == k
  {
    assert SlabOk(p.slabs[s], p.chains[s]);
    if j != k {
      hide Layout, Linked, Distinct;
      TwoOutside(p.chains[s], Num(p.slabs[s]), j, k);
    }
  }

  // Two slots outside the chain leave room for two fewer in it.
  lemma TwoOutside(chain: seq<nat>, num: nat, j: nat, k: nat)
    requires Distinct(chain) && (forall i :: 0 <= i < |chain| ==> chain[i] < num)
    requires j < num && k < num && j !in chain && k !in chain && j != k
    ensures |chain| + 2 <= num
  {
    Prepend(k, chain);
    var some := [k] + chain;
    assert forall i :: 0 < i < |some| ==> some[i] == chain[i - 1] && some[i] in chain;
    Prepend(j, some);
    var all := [j] + some;
    assert forall i :: 0 < i < |all| ==> all[i] == some[i - 1];
    Bound(all, num);
  }

  lemma DropOk(p: Pool, s: nat, j: nat)
    requires PoolOk(p) && User(p, s, j) && p.slabs[s].inuse == 1
    ensures p.slabs[s].cache < CACHES && PoolOk(Drop(p, s))
    ensures forall t, k :: Live(Drop(p, s), t, k) <==> Live(p, t, k) && !(t == s && k == j)
    ensures forall t, k :: IsHome(Drop(p, s), t, k) <==> IsHome(p, t, k) && p.slabs[s].home != Object(t, k)
  {
    DropLists(p, s);
    DropHomes(p, s, j);
    DropRuns(p, s);
    forall t, k ensures Live(Drop(p, s), t, k) <==> Live(p, t, k) && !(t == s && k == j) {
      DropLive(p, s, j, t, k);
    }
    forall t, k ensures IsHome(Drop(p, s), t, k) <==> IsHome(p, t, k) && p.slabs[s].home != Object(t, k) {
      DropIsHome(p, s, t, k);
    }
    hide Drop, Basic, ListsOk, HomesOk, RunsOk, Live, IsHome;
  }

  lemma DropRuns(p: Pool, s: nat)
    requires Basic(p) && RunsOk(p) && s in p.slabs && p.slabs[s].cache < CACHES
    ensures RunsOk(Drop(p, s))
  {
    hide Layout, SlabOk, Remove;
  }

  lemma DropLive(p: Pool, s: nat, j: nat, t: nat, k: nat)
    requires Basic(p) && Live(p, s, j) && p.slabs[s].inuse == 1 && p.slabs[s].cache < CACHES
    ensures Live(Drop(p, s), t, k) <==> Live(p, t, k) && !(t == s && k == j)
  {
    if t == s && Live(p, s, k) {
      OnlyOne(p, s, j, k);
    }
    hide SlabOk, Remove, Layout;
  }

  lemma DropIsHome(p: Pool, s: nat, t: nat, k: nat)
    requires Basic(p) && HomesOk(p) && s in p.slabs && p.slabs[s].cache < CACHES
    ensures IsHome(Drop(p, s), t, k) <==> IsHome(p, t, k) && p.slabs[s].home != Object(t, k)
  {
    hide Layout, SlabOk, Remove;
    var q := Drop(p, s);
    if IsHome(p, t, k) && p.slabs[s].home != Object(t, k) {
      var u :| u in p.slabs && p.slabs[u].home == Object(t, k);
      assert u in q.slabs && q.slabs[u].home == Object(t, k);
    }
    if IsHome(q, t, k) {
      var u :| u in q.slabs && q.slabs[u].home == Object(t, k);
      assert u in p.slabs && p.slabs[u].home == Object(t, k);
    }
  }

  // ---- kmem_cache_grow

  function NewSlab(c: nat, home: Home): Slab {
    Slab(c, Fresh(Layout(c).num), 0, 0, home)
  }

  function Grow(p: Pool, c: nat, page: nat, home: Home): Pool
    requires Basic(p) && c < CACHES
  {
    Update(p, page, NewSlab(c, home), All(Layout(c).num), p.full[c], [page] + p.notfull[c])
  }

  // The new run of pages meets no slab.
  ghost predicate NewRun(p: Pool, c: nat, page: nat) {
    page !in p.slabs && forall s :: s in p.slabs ==> Apart(page, Pages(c), s, Pages(p.slabs[s].cache))
  }

  // Where the management area goes: inside, or into an object just taken for it.
  ghost predicate HomeFor(p: Pool, c: nat, home: Home) {
    if !Layout(c).offSlab then home == Inside
    else home.Object? && User(p, home.slab, home.slot) && p.slabs[home.slab].cache == Layout(c).mgmtCache
  }

  lemma GrowLists(p: Pool, c: nat, page: nat, home: Home)
    requires PoolOk(p) && c < CACHES && NewRun(p, c, page)
    ensures Basic(Grow(p, c, page, home)) && ListsOk(Grow(p, c, page, home))
  {
    NumSmall(c);
    FreshChain(Layout(c).num);
    assert ListOk(p, c);
    Prepend(page, p.notfull[c]);
    UpdateLists(p, page, NewSlab(c, home), All(Layout(c).num), p.full[c], [page] + p.notfull[c]);
  }

  lemma GrowHomes(p: Pool, c: nat, page: nat, home: Home)
    requires PoolOk(p) && c < CACHES && NewRun(p, c, page) && HomeFor(p, c, home)
    ensures HomesOk(Grow(p, c, page, home))
  {
    hide Layout, SlabOk, ListsOk, RunsOk, Fresh, All, Live, User;
    var q := Grow(p, c, page, home);
    forall t | t in q.slabs ensures HomeOk(q, t) {
      if t == page {
        GrowOwnHome(p, c, page, home);
      } else {
        assert HomeOk(p, t);
        GrowHome(p, c, page, home, t);
      }
    }
    NewHome(p, c, home);
  }

  lemma NewHome(p: Pool, c: nat, home: Home)
    requires Basic(p) && HomeFor(p, c, home)
    ensures forall t :: t in p.slabs && home.Object? ==> p.slabs[t].home != home
  {
    hide Layout, SlabOk, Live;
  }

  lemma GrowHome(p: Pool, c: nat, page: nat, home: Home, t: nat)
    requires Basic(p) && c < CACHES && page !in p.slabs && t in p.slabs && HomeOk(p, t)
    ensures HomeOk(Grow(p, c, page, home), t)
  {
    hide Layout, SlabOk, Fresh, All;
  }

  lemma GrowOwnHome(p: Pool, c: nat, page: nat, home: Home)
    requires Basic(p) && c < CACHES && page !in p.slabs && HomeFor(p, c, home)
    ensures HomeOk(Grow(p, c, page, home), page)
  {
    hide Layout, SlabOk, Fresh, All, IsHome;
  }

  // A new slab has no live slot; an object used to manage it is no longer a user's.
  lemma GrowOk(p: Pool, c: nat, page: nat, home: Home)
    requires PoolOk(p) && c < CACHES && NewRun(p, c, page) && HomeFor(p, c, home)
    ensures PoolOk(Grow(p, c, page, home))
    ensures forall t, k :: Live(Grow(p, c, page, home), t, k) <==> Live(p, t, k)
    ensures forall t, k :: IsHome(Grow(p, c, page, home), t, k) <==> IsHome(p, t, k) || home == Object(t, k)
  {
    hide Layout, SlabOk, ListsOk, RunsOk, HomesOk, Live, IsHome, Grow, Pages;
    GrowLists(p, c, page, home);
    GrowHomes(p, c, page, home);
    GrowRuns(p, c, page, home);
    forall t, k ensures Live(Grow(p, c, page, home), t, k) <==> Live(p, t, k) {
      GrowLive(p, c, page, home, t, k);
    }
    forall t, k ensures IsHome(Grow(p, c, page, home), t, k) <==> IsHome(p, t, k) || home == Object(t, k) {
      GrowIsHome(p, c, page, home, t, k);
    }
  }

  lemma GrowRuns(p: Pool, c: nat, page: nat, home: Home)
    requires Basic(p) && RunsOk(p) && c < CACHES && NewRun(p, c, page)
    ensures RunsOk(Grow(p, c, page, home))
  {
    hide Layout, SlabOk, Fresh, All, Pages;
  }

  lemma GrowLive(p: Pool, c: nat, page: nat, home: Home, t: nat, k: nat)
    requires Basic(p) && c < CACHES && page !in p.slabs
    ensures Live(Grow(p, c, page, home), t, k) <==> Live(p, t, k)
  {
    if k < Layout(c).num {
      assert All(Layout(c).num)[k] == k;
    }
  }

  lemma GrowIsHome(p: Pool, c: nat, page: nat, home: Home, t: nat, k: nat)
    requires Basic(p) && c < CACHES && page !in p.slabs
    ensures IsHome(Grow(p, c, page, home), t, k) <==> IsHome(p, t, k) || home == Object(t, k)
  {
    hide Layout, SlabOk, Fresh, All;
    var q := Grow(p, c, page, home);
    if IsHome(p, t, k) {
      var u :| u in p.slabs && p.slabs[u].home == Object(t, k);
      assert u in q.slabs && q.slabs[u].home == Object(t, k);
    }
    assert q.slabs[page].home == home;
  }
}
