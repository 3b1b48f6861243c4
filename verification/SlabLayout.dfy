/**
  The thirteen caches of the slab allocator of ucore/kern/mm/kmalloc.c: how many
  objects of which size go into a slab, and where its management area lies.
 */
module SlabLayout {
  import opened Bits
  import opened Paging

  const CACHES: nat := 13
  const MIN_SIZE_ORDER: nat := 5
  const MAX_SIZE_ORDER: nat := 17
  const KMALLOC_MAX_ORDER: nat := 10
  // sizeof(slab_t) and sizeof(kmem_bufctl_t)
  const SLAB_T: nat := 24
  const BUFCTL: nat := 4

  // A cache: object size 2^shift, objects per slab, pages per slab 2^order, where the objects start,
  // and for a slab managed from outside the cache that its management area comes from.
  datatype Cache = Cache(shift: nat, num: nat, order: nat, offset: nat, offSlab: bool, mgmtCache: nat)

  function RoundUp16(n: nat): nat { (n + 15) / 16 * 16 }

  function MgmtSize(num: nat): nat { RoundUp16(SLAB_T + num * BUFCTL) }

  // The precomputed numbers of objects for one-page slabs.
  function TableEntry(shift: nat): nat {
    if shift == 5 then 113 else if shift == 6 then 59 else if shift == 7 then 30 else 15
  }

  lemma SmallPowers()
    ensures Pow2(0) == 1 && Pow2(1) == 2 && Pow2(2) == 4 && Pow2(3) == 8 && Pow2(4) == 16 && Pow2(5) == 32
    ensures Pow2(6) == 64
    ensures Pow2(7) == 128 && Pow2(8) == 256 && Pow2(9) == 512 && Pow2(10) == 1024 && Pow2(11) == 2048
    ensures Pow2(12) == 4096
  {
    assert Pow2(6) == 64;
    assert Pow2(12) == 2 * Pow2(11) == 4 * Pow2(10) == 8 * Pow2(9) == 16 * Pow2(8) == 32 * Pow2(7) == 64 * Pow2(6);
  }

  // cache_estimate for objects managed from outside: as many as the slab holds.
  lemma Whole(order: nat, shift: nat)
    ensures order + 12 < shift ==> PGSIZE * Pow2(order) / Pow2(shift) == 0
    ensures order + 12 >= shift ==>
              && PGSIZE * Pow2(order) / Pow2(shift) == Pow2(order + 12 - shift)
              && PGSIZE * Pow2(order) == Pow2(order + 12 - shift) * Pow2(shift)
  {
    SmallPowers();
    Pow2Add(12, order);
    if order + 12 < shift {
      Pow2Monotone(order + 13, shift);
      Below(PGSIZE * Pow2(order), Pow2(shift));
    } else {
      Pow2Add(order + 12 - shift, shift);
      Multiple(Pow2(order + 12 - shift), Pow2(shift));
    }
  }

  lemma Below(a: nat, m: nat)
    requires a < m
    ensures a / m == 0
  {}

  lemma Multiple(q: nat, m: nat)
    requires m > 0
    ensures q * m / m == q
  {
    DivShift(0, m, q);
  }

  // The most objects, up to a given number, that fit with their management area.
  method FitDown(start: nat, objsize: nat, slabSize: nat) returns (num: nat)
    requires MgmtSize(0) <= slabSize
    ensures num <= start && MgmtSize(num) + num * objsize <= slabSize
    ensures forall k :: num < k <= start ==> MgmtSize(k) + k * objsize > slabSize
  {
    num := start;
    while MgmtSize(num) + num * objsize > slabSize
      invariant num <= start && forall k :: num < k <= start ==> MgmtSize(k) + k * objsize > slabSize
      decreases num
    {
      num := num - 1;
    }
  }

  method CacheEstimate(order: nat, shift: nat, offSlab: bool) returns (remainder: nat, num: nat)
    requires order <= KMALLOC_MAX_ORDER && MIN_SIZE_ORDER <= shift <= MAX_SIZE_ORDER
    requires !offSlab ==> order == 0 && shift <= 8
    ensures offSlab ==>
              num == PGSIZE * Pow2(order) / Pow2(shift) && remainder == PGSIZE * Pow2(order) - num * Pow2(shift)
    ensures !offSlab ==> num == TableEntry(shift) && remainder + num * Pow2(shift) + MgmtSize(num) == PGSIZE
  {
    SmallPowers();
    var slabSize, objsize := PGSIZE * Pow2(order), Pow2(shift);
    if offSlab {
      Whole(order, shift);
      num := slabSize / objsize;
      remainder := slabSize - num * objsize;
    } else {
      num := FitDown(TableEntry(shift), objsize, slabSize);
      assert MgmtSize(TableEntry(shift)) + TableEntry(shift) * objsize <= slabSize;
      remainder := slabSize - num * objsize - MgmtSize(num);
    }
  }

  // The smallest slab order at which objects managed from outside fit.
  function OrderFor(shift: nat): nat { if shift <= 12 then 0 else shift - 12 }

  method CalculateSlabOrder(shift: nat, offSlab: bool) returns (num: nat, order: nat, leftOver: nat)
    requires MIN_SIZE_ORDER <= shift <= MAX_SIZE_ORDER && (!offSlab ==> shift <= 8) && (offSlab ==> shift >= 9)
    ensures offSlab ==> order == OrderFor(shift) && num == Pow2(12 + order - shift) && leftOver == 0
    ensures !offSlab ==>
              order == 0 && num == TableEntry(shift) && leftOver + num * Pow2(shift) + MgmtSize(num) == PGSIZE
  {
    SmallPowers();
    order := 0;
    while true
      invariant order <= OrderFor(shift)
      decreases OrderFor(shift) - order
    {
      leftOver, num := CacheEstimate(order, shift, offSlab);
      if offSlab {
        Whole(order, shift);
        FewOutside(shift, order);
      }
      if num != 0 && leftOver * 8 <= PGSIZE * Pow2(order) {
        return;
      }
      order := order + 1;
    }
  }

  // The panic of calculate_slab_order: an outside management area fits into one object.
  lemma FewOutside(shift: nat, order: nat)
    requires 9 <= shift <= MAX_SIZE_ORDER && order <= OrderFor(shift)
    ensures order + 12 >= shift ==> Pow2(order + 12 - shift) <= (Pow2(shift) - SLAB_T) / BUFCTL
  {
    SmallPowers();
    Pow2Monotone(9, shift);
    if order + 12 >= shift {
      Pow2Monotone(order + 12 - shift, 3);
    }
  }

  // getorder: the smallest order from 5 on that holds n, or none
  method GetOrder(n: nat) returns (order: nat)
    ensures MIN_SIZE_ORDER <= order <= MAX_SIZE_ORDER + 1
    ensures order <= MAX_SIZE_ORDER ==> n <= Pow2(order) && (order > MIN_SIZE_ORDER ==> Pow2(order - 1) < n)
    ensures order > MAX_SIZE_ORDER <==> n > Pow2(MAX_SIZE_ORDER)
  {
    order := MIN_SIZE_ORDER;
    while order <= MAX_SIZE_ORDER
      invariant MIN_SIZE_ORDER <= order <= MAX_SIZE_ORDER + 1 && (order > MIN_SIZE_ORDER ==> Pow2(order - 1) < n)
    {
      if n <= Pow2(order) {
        Pow2Monotone(order, MAX_SIZE_ORDER);
        return;
      }
      order := order + 1;
    }
  }

  // The caches as they come out.
  function Layout(i: nat): Cache {
    if i < 4 then Cache(i + 5, TableEntry(i + 5), 0, MgmtSize(TableEntry(i + 5)), false, 0)
    else Cache(i + 5, Pow2(12 + OrderFor(i + 5) - (i + 5)), OrderFor(i + 5), 0, true, if i <= 5 then 1 else 0)
  }

  // init_kmem_cache
  method InitCache(i: nat) returns (c: Cache)
    requires i < CACHES
    ensures c == Layout(i)
  {
    SmallPowers();
    var shift := i + MIN_SIZE_ORDER;
    Pow2Monotone(MIN_SIZE_ORDER, shift);
    var offSlab := Pow2(shift) >= PGSIZE / 8;
    if shift >= 9 {
      Pow2Monotone(9, shift);
    } else {
      Pow2Monotone(shift, 8);
    }
    var num, order, leftOver := CalculateSlabOrder(shift, offSlab);
    var mgmtSize := MgmtSize(num);
    if offSlab && leftOver >= mgmtSize {
      offSlab := false;
    }
    if offSlab {
      var m := GetOrder(mgmtSize);
      OutsideOrder(shift, m);
      c := Cache(shift, num, order, 0, true, m - MIN_SIZE_ORDER);
    } else {
      c := Cache(shift, num, order, mgmtSize, false, 0);
    }
  }

  // Outside management areas have 64 or 32 bytes.
  lemma OutsideOrder(shift: nat, m: nat)
    requires 9 <= shift <= MAX_SIZE_ORDER && MIN_SIZE_ORDER <= m
    requires var n := MgmtSize(Pow2(12 + OrderFor(shift) - shift));
             n <= Pow2(m) && (m > MIN_SIZE_ORDER ==> Pow2(m - 1) < n)
    ensures m == if shift <= 10 then 6 else 5
  {
    SmallPowers();
    if m > 6 {
      Pow2Monotone(6, m - 1);
    } else if m == 6 {
      assert Pow2(5) == 32;
    }
  }

  /**
    Objects and management area of every cache: they fit, they do not overlap, and outside areas come from caches
    managed inside.
   */
  lemma LayoutFits(i: nat)
    requires i < CACHES
    ensures var c := Layout(i);
            && c.shift == i + MIN_SIZE_ORDER && c.num > 0
            && c.offset + c.num * Pow2(c.shift) <= PGSIZE * Pow2(c.order)
            && (!c.offSlab ==> SLAB_T + c.num * BUFCTL <= c.offset)
            && (c.offSlab ==>
                  && c.mgmtCache < CACHES && !Layout(c.mgmtCache).offSlab
                  && SLAB_T + c.num * BUFCTL <= Pow2(Layout(c.mgmtCache).shift))
  {
    SmallPowers();
    var shift := i + MIN_SIZE_ORDER;
    if i >= 4 {
      Whole(OrderFor(shift), shift);
      if shift >= 12 {
        assert 12 + OrderFor(shift) - shift == 0;
      }
    }
  }
}
