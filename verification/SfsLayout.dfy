/**
  How SFS lays files out on the disk: twelve direct block numbers and one
  indirect block of 1024 more per inode, over a set of free blocks.  The view
  of a file as a sequence of blocks is defined here, with the effect on all
  files of writing, taking, attaching and detaching one block.
 */
module SfsLayout {
  import opened Bits

  const BLKSIZE: nat := 4096
  const NDIRECT: nat := 12
  const NENTRY: nat := 1024
  // The slots of an inode: the data blocks, then the indirect block and the block of the inode itself.
  const NBLOCKS: nat := 1036
  const INDIRECT: nat := 1036
  const OWN: nat := 1037
  const NSLOTS: nat := 1038

  type Block = seq<Byte>

  datatype Inode = Inode(ino: nat, size: nat, blocks: nat, direct: seq<nat>, indirect: nat)

  datatype View = View(disk: seq<Block>, free: set<nat>, files: seq<Inode>)

  // ---- bytes in a block

  function Patch(b: seq<Byte>, o: nat, data: seq<Byte>): (r: seq<Byte>)
    requires o + |data| <= |b|
    ensures |r| == |b|
  {
    b[..o] + data + b[o + |data|..]
  }

  function Decode4(b: seq<Byte>): nat
    requires |b| == 4
  {
    var b0: int, b1: int, b2: int, b3: int := b[0], b[1], b[2], b[3];
    b0 + 0x100 * b1 + 0x1_0000 * b2 + 0x100_0000 * b3
  }

  function Encode4(n: nat): (r: seq<Byte>)
    requires n < 0x1_0000_0000
    ensures |r| == 4
  {
    [n % 0x100, n / 0x100 % 0x100, n / 0x1_0000 % 0x100, n / 0x100_0000]
  }

  lemma Decode4Encode4(n: nat)
    requires n < 0x1_0000_0000
    ensures Decode4(Encode4(n)) == n
  {
    var a, b, c := n / 0x100, n / 0x1_0000, n / 0x100_0000;
    assert a / 0x100 == b && b / 0x100 == c && c < 0x100;
    assert n == 0x100 * a + n % 0x100 && a == 0x100 * b + a % 0x100 && b == 0x100 * c + b % 0x100;
  }

  // Entry j of an indirect block.
  function Entry(b: Block, j: nat): nat
    requires |b| == BLKSIZE && j < NENTRY
  {
    Decode4(b[4 * j..4 * j + 4])
  }

  lemma EntryPatch(b: Block, j: nat, n: nat, k: nat)
    requires |b| == BLKSIZE && j < NENTRY && k < NENTRY && n < 0x1_0000_0000
    ensures Entry(Patch(b, 4 * j, Encode4(n)), k) == if k == j then n else Entry(b, k)
  {
    hide Decode4, Encode4;
    Decode4Encode4(n);
    var p := Patch(b, 4 * j, Encode4(n));
    if k == j {
      assert p[4 * j..4 * j + 4] == Encode4(n);
    } else {
      assert p[4 * k..4 * k + 4] == b[4 * k..4 * k + 4];
    }
  }

  function ZeroBlock(): (b: Block)
    ensures |b| == BLKSIZE
  {
    seq(BLKSIZE, _ => 0)
  }

  lemma EntryZero(j: nat)
    requires j < NENTRY
    ensures Entry(ZeroBlock(), j) == 0
  {}

  // ---- references

  predicate Shape(v: View) {
    && |v.disk| <= 0x1_0000_0000
    && (forall b :: 0 <= b < |v.disk| ==> |v.disk[b]| == BLKSIZE)
    && (forall b :: b in v.free ==> 0 < b < |v.disk|)
    && (forall f :: 0 <= f < |v.files| ==> InodeShape(v, v.files[f]))
  }

  predicate InodeShape(v: View, n: Inode) {
    |n.direct| == NDIRECT && n.indirect < |v.disk| && n.blocks <= NBLOCKS
  }

  // The block number in slot k of an inode, 0 if there is none.
  function RefOf(disk: seq<Block>, n: Inode, k: nat): nat
    requires |n.direct| == NDIRECT && n.indirect < |disk| && |disk[n.indirect]| == BLKSIZE && k < NSLOTS
  {
    if k == OWN then n.ino
    else if k == INDIRECT then n.indirect
    else if k < NDIRECT then n.direct[k]
    else if n.indirect == 0 then 0
    else Entry(disk[n.indirect], k - NDIRECT)
  }

  function Ref(v: View, f: nat, k: nat): nat
    requires Shape(v) && f < |v.files| && k < NSLOTS
  {
    RefOf(v.disk, v.files[f], k)
  }

  lemma IndirectRef(v: View, f: nat)
    requires Shape(v) && f < |v.files|
    ensures Ref(v, f, INDIRECT) == v.files[f].indirect && Ref(v, f, OWN) == v.files[f].ino
  {}

  // Every block in use by a file is a real block that is not free.
  ghost predicate InUse(v: View)
    requires Shape(v)
  {
    forall f, k :: 0 <= f < |v.files| && 0 <= k < NSLOTS && Ref(v, f, k) != 0 ==>
      Ref(v, f, k) < |v.disk| && Ref(v, f, k) !in v.free
  }

  // No block has two owners.
  ghost predicate Unshared(v: View)
    requires Shape(v)
  {
    forall f, k, g, l ::
      && 0 <= f < |v.files| && 0 <= g < |v.files| && 0 <= k < NSLOTS && 0 <= l < NSLOTS
      && Ref(v, f, k) != 0 && Ref(v, f, k) == Ref(v, g, l)
      ==> f == g && k == l
  }

  // A file has blocks in its first slots, and in no others.
  ghost predicate Filled(v: View)
    requires Shape(v)
  {
    forall f, k :: 0 <= f < |v.files| && 0 <= k < NBLOCKS ==> (Ref(v, f, k) != 0 <==> k < v.files[f].blocks)
  }

  ghost predicate Ok(v: View) {
    Shape(v) && InUse(v) && Unshared(v) && Filled(v)
  }

  // A block that is neither free nor in any file.
  ghost predicate Loose(v: View, b: nat)
    requires Shape(v)
  {
    && 0 < b < |v.disk| && b !in v.free
    && forall f, k :: 0 <= f < |v.files| && 0 <= k < NSLOTS ==> Ref(v, f, k) != b
  }

  // A file as a sequence of blocks.
  ghost function Blocks(v: View, f: nat): (s: seq<Block>)
    requires Ok(v) && f < |v.files|
    ensures |s| == v.files[f].blocks && forall k :: 0 <= k < |s| ==> |s[k]| == BLKSIZE
  {
    seq(v.files[f].blocks, k requires 0 <= k < v.files[f].blocks => v.disk[Ref(v, f, k)])
  }

  ghost predicate SameBlocks(v: View, w: View)
    requires Ok(v) && Ok(w)
  {
    |v.files| == |w.files| && forall f :: 0 <= f < |v.files| ==> Blocks(w, f) == Blocks(v, f)
  }

  // Every file but f has the same blocks.
  ghost predicate OthersSame(v: View, w: View, f: nat)
    requires Ok(v) && Ok(w)
  {
    |v.files| == |w.files| && forall g :: 0 <= g < |v.files| && g != f ==> Blocks(w, g) == Blocks(v, g)
  }

  // ---- writing

  // Overwriting a block that is no inode's indirect block changes no reference.
  lemma SameRefs(v: View, b: nat, x: Block, f: nat, k: nat)
    requires Shape(v) && b < |v.disk| && |x| == BLKSIZE && f < |v.files| && k < NSLOTS
    requires b != 0 && Ref(v, f, INDIRECT) != b
    ensures Shape(v.(disk := v.disk[b := x])) && Ref(v.(disk := v.disk[b := x]), f, k) == Ref(v, f, k)
  {}

  lemma WriteLoose(v: View, b: nat, x: Block)
    requires Ok(v) && Loose(v, b) && |x| == BLKSIZE
    ensures var w := v.(disk := v.disk[b := x]); Ok(w) && Loose(w, b) && SameBlocks(v, w)
  {
    hide RefOf;
    var w := v.(disk := v.disk[b := x]);
    forall f, k | 0 <= f < |v.files| && 0 <= k < NSLOTS ensures Shape(w) && Ref(w, f, k) == Ref(v, f, k) {
      SameRefs(v, b, x, f, k);
    }
  }

  lemma WriteData(v: View, f: nat, k: nat, x: Block)
    requires Ok(v) && f < |v.files| && k < v.files[f].blocks && |x| == BLKSIZE
    ensures Ref(v, f, k) < |v.disk|
    ensures var w := v.(disk := v.disk[Ref(v, f, k) := x]);
            Ok(w) && Blocks(w, f) == Blocks(v, f)[k := x] && OthersSame(v, w, f)
  {
    hide RefOf;
    var b := Ref(v, f, k);
    var w := v.(disk := v.disk[b := x]);
    forall g, l | 0 <= g < |v.files| && 0 <= l < NSLOTS ensures Shape(w) && Ref(w, g, l) == Ref(v, g, l) {
      assert Ref(v, g, INDIRECT) != b;
      SameRefs(v, b, x, g, l);
    }
  }

  // ---- free blocks

  lemma TakeFree(v: View, b: nat)
    requires Ok(v) && b in v.free
    ensures var w := v.(free := v.free - {b}); Ok(w) && Loose(w, b) && SameBlocks(v, w)
  {
    hide RefOf;
    var w := v.(free := v.free - {b});
    assert forall f, k :: 0 <= f < |v.files| && 0 <= k < NSLOTS ==> Ref(w, f, k) == Ref(v, f, k);
  }

  lemma GiveBack(v: View, b: nat)
    requires Ok(v) && Loose(v, b)
    ensures var w := v.(free := v.free + {b}); Ok(w) && SameBlocks(v, w)
  {
    hide RefOf;
    var w := v.(free := v.free + {b});
    assert forall f, k :: 0 <= f < |v.files| && 0 <= k < NSLOTS ==> Ref(w, f, k) == Ref(v, f, k);
  }

  // ---- attaching and detaching

  // The references of w are those of v, except for slot k of file f.
  ghost predicate OneRef(v: View, w: View, f: nat, k: nat, b: nat)
    requires Shape(v)
  {
    && Shape(w) && |w.files| == |v.files| && |w.disk| == |v.disk| && w.free == v.free && f < |v.files| && k < NSLOTS
    && (forall g, l :: 0 <= g < |v.files| && 0 <= l < NSLOTS ==>
          Ref(w, g, l) == if g == f && l == k then b else Ref(v, g, l))
  }

  // w agrees with v on the data of every file.
  ghost predicate SameData(v: View, w: View)
    requires Ok(v) && |w.disk| == |v.disk|
  {
    forall g, l :: 0 <= g < |v.files| && 0 <= l < v.files[g].blocks ==> w.disk[Ref(v, g, l)] == v.disk[Ref(v, g, l)]
  }

  // File f has n blocks in w; the other files have as many as before.
  ghost predicate Count(v: View, w: View, f: nat, n: nat) {
    && |w.files| == |v.files| && f < |v.files| && w.files[f].blocks == n
    && forall g :: 0 <= g < |v.files| && g != f ==> w.files[g].blocks == v.files[g].blocks
  }

  lemma SameFile(v: View, w: View, g: nat)
    requires Ok(v) && Ok(w) && |w.files| == |v.files| && |w.disk| == |v.disk| && g < |v.files| && SameData(v, w)
    requires w.files[g].blocks == v.files[g].blocks && forall l :: 0 <= l < NBLOCKS ==> Ref(w, g, l) == Ref(v, g, l)
    ensures Blocks(w, g) == Blocks(v, g)
  {
    hide RefOf;
  }

  lemma SameOthers(v: View, w: View, f: nat, k: nat, b: nat, n: nat)
    requires Ok(v) && Ok(w) && OneRef(v, w, f, k, b) && SameData(v, w) && Count(v, w, f, n)
    ensures OthersSame(v, w, f)
  {
    hide RefOf, Shape, Blocks;
    forall g | 0 <= g < |v.files| && g != f ensures Blocks(w, g) == Blocks(v, g) {
      SameFile(v, w, g);
    }
  }

  lemma Attach(v: View, w: View, f: nat, b: nat)
    requires Ok(v) && f < |v.files| && v.files[f].blocks < NBLOCKS && Loose(v, b)
    requires OneRef(v, w, f, v.files[f].blocks, b) && SameData(v, w) && Count(v, w, f, v.files[f].blocks + 1)
    ensures Ok(w) && Blocks(w, f) == Blocks(v, f) + [w.disk[b]] && OthersSame(v, w, f)
  {
    hide RefOf, Shape;
    assert Ok(w);
    SameOthers(v, w, f, v.files[f].blocks, b, v.files[f].blocks + 1);
  }

  lemma Detach(v: View, w: View, f: nat)
    requires Ok(v) && f < |v.files| && v.files[f].blocks > 0
    requires OneRef(v, w, f, v.files[f].blocks - 1, 0) && SameData(v, w) && Count(v, w, f, v.files[f].blocks - 1)
    ensures Ok(w) && Loose(w, Ref(v, f, v.files[f].blocks - 1))
    ensures Blocks(w, f) == Blocks(v, f)[..v.files[f].blocks - 1] && OthersSame(v, w, f)
  {
    hide RefOf;
    var k := v.files[f].blocks - 1;
    assert Ok(w);
    assert Ref(v, f, k) != 0;
    SameOthers(v, w, f, k, 0, k);
  }

  // Slots other than the data slots.
  lemma AttachOther(v: View, w: View, f: nat, k: nat, b: nat)
    requires Ok(v) && Loose(v, b) && NBLOCKS <= k < NSLOTS && OneRef(v, w, f, k, b) && SameData(v, w)
    requires Count(v, w, f, v.files[f].blocks)
    ensures Ok(w) && SameBlocks(v, w)
  {
    hide RefOf, Shape;
    assert Ok(w);
    SameOthers(v, w, f, k, b, v.files[f].blocks);
    SameFile(v, w, f);
  }

  lemma DetachOther(v: View, w: View, f: nat, k: nat)
    requires Ok(v) && NBLOCKS <= k < NSLOTS && OneRef(v, w, f, k, 0) && SameData(v, w)
    requires Count(v, w, f, v.files[f].blocks)
    ensures Ok(w) && SameBlocks(v, w) && (Ref(v, f, k) != 0 ==> Loose(w, Ref(v, f, k)))
  {
    hide RefOf, Shape;
    assert Ok(w);
    SameOthers(v, w, f, k, 0, v.files[f].blocks);
    SameFile(v, w, f);
  }

  // ---- the concrete updates

  function WithInode(v: View, f: nat, n: Inode): View
    requires f < |v.files|
  {
    v.(files := v.files[f := n])
  }

  // A direct slot is in the inode alone.
  lemma SetDirect(v: View, f: nat, k: nat, b: nat, blocks: nat)
    requires Ok(v) && f < |v.files| && k < NDIRECT && blocks <= NBLOCKS
    ensures var w := WithInode(v, f, v.files[f].(direct := v.files[f].direct[k := b], blocks := blocks));
            OneRef(v, w, f, k, b) && SameData(v, w) && Count(v, w, f, blocks)
  {
    hide Entry;
  }

  // An indirect slot is in the indirect block, which holds no file's data.
  lemma SetEntry(v: View, f: nat, k: nat, b: nat, blocks: nat)
    requires Ok(v) && f < |v.files| && NDIRECT <= k < NBLOCKS && v.files[f].indirect != 0 && b < 0x1_0000_0000
    requires blocks <= NBLOCKS
    ensures var e := v.files[f].indirect;
            var w := WithInode(v.(disk := v.disk[e := Patch(v.disk[e], 4 * (k - NDIRECT), Encode4(b))]), f,
                               v.files[f].(blocks := blocks));
            OneRef(v, w, f, k, b) && SameData(v, w) && Count(v, w, f, blocks)
  {
    var e := v.files[f].indirect;
    var x := Patch(v.disk[e], 4 * (k - NDIRECT), Encode4(b));
    var w := WithInode(v.(disk := v.disk[e := x]), f, v.files[f].(blocks := blocks));
    assert Ref(v, f, INDIRECT) == e;
    forall g, l | 0 <= g < |v.files| && 0 <= l < NSLOTS
      ensures Ref(w, g, l) == if g == f && l == k then b else Ref(v, g, l)
    {
      assert g != f ==> Ref(v, g, INDIRECT) != e;
      if g == f && NDIRECT <= l < NBLOCKS {
        EntryPatch(v.disk[e], k - NDIRECT, b, l - NDIRECT);
      }
    }
  }

  // A fresh, zeroed indirect block adds no data block.
  lemma SetIndirect(v: View, f: nat, e: nat)
    requires Ok(v) && f < |v.files| && v.files[f].indirect == 0 && Loose(v, e) && v.disk[e] == ZeroBlock()
    ensures var w := WithInode(v, f, v.files[f].(indirect := e));
            OneRef(v, w, f, INDIRECT, e) && SameData(v, w) && Count(v, w, f, v.files[f].blocks)
  {
    var w := WithInode(v, f, v.files[f].(indirect := e));
    forall g, l | 0 <= g < |v.files| && 0 <= l < NSLOTS
      ensures Ref(w, g, l) == if g == f && l == INDIRECT then e else Ref(v, g, l)
    {
      if g == f && NDIRECT <= l < NBLOCKS {
        EntryZero(l - NDIRECT);
      }
    }
  }
}
