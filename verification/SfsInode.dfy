/**
  Block allocation and the block map of ucore/kern/fs/sfs/sfs_inode.c, over the
  buffered block access of ucore/kern/fs/sfs/sfs_io.c.  The device may fail any
  access; a failed access changes nothing.
 */
module SfsInode {
  import opened Bits
  import opened SfsBitmap
  import opened SfsLayout

  datatype Status = Done | NoMem | IoError | Invalid | Panic

  // Free blocks needed to add a block to a file.
  function Cost(n: Inode): nat {
    if n.blocks >= NDIRECT && n.indirect == 0 then 2 else 1
  }

  // No file has changed, and no block has become free.
  ghost predicate Kept(v: View, w: View) {
    Ok(v) && Ok(w) && SameBlocks(v, w) && w.files == v.files && w.free <= v.free
  }

  ghost predicate SameNames(v: View, w: View) {
    && |w.files| == |v.files|
    && forall g :: 0 <= g < |v.files| ==> w.files[g].size == v.files[g].size && w.files[g].ino == v.files[g].ino
  }

  // File f has one more block, all zero.
  ghost predicate Grew(v: View, w: View, f: nat) {
    && Ok(v) && Ok(w) && f < |v.files| && |w.files| == |v.files|
    && Blocks(w, f) == Blocks(v, f) + [ZeroBlock()] && OthersSame(v, w, f) && SameNames(v, w)
    && w.free <= v.free && |w.free| == |v.free| - Cost(v.files[f])
    && (w.files[f].blocks <= NDIRECT ==> w.files[f].indirect == v.files[f].indirect)
  }

  // File f has lost its last block.
  ghost predicate Shrank(v: View, w: View, f: nat) {
    && Ok(v) && Ok(w) && f < |v.files| && |w.files| == |v.files| && v.files[f].blocks > 0
    && Blocks(w, f) == Blocks(v, f)[..v.files[f].blocks - 1] && OthersSame(v, w, f) && SameNames(v, w)
    && w.free == v.free + {Ref(v, f, v.files[f].blocks - 1)}
    && |w.free| == |v.free| + 1 && w.files[f].indirect == v.files[f].indirect
  }

  class Sfs {
    const freemap: Bitmap
    var disk: seq<Block>
    var files: seq<Inode>
    var unused: nat
    var superDirty: bool
    var dirty: set<nat>
    var buffer: Block
    const fails: nat -> bool
    var ops: nat

    ghost predicate Basic()
      reads this, freemap.words
    {
      && freemap.Valid() && freemap.nbits == |disk| && unused == |freemap.Free()| && |buffer| == BLKSIZE
      && Shape(View(disk, freemap.Free(), files))
    }

    ghost function V(): View
      requires Basic()
      reads this, freemap.words
    {
      View(disk, freemap.Free(), files)
    }

    ghost predicate Valid()
      reads this, freemap.words
    {
      Basic() && Ok(V())
    }

    ghost predicate Reliable() {
      forall n :: !fails(n)
    }

    // A mounted file system: free map, super block count and inodes agree.
    constructor (bits: Bitmap, blocks: seq<Block>, inodes: seq<Inode>, count: nat, faults: nat -> bool)
      requires bits.Valid() && bits.nbits == |blocks| && Ok(View(blocks, bits.Free(), inodes)) && count == |bits.Free()|
      ensures Valid() && V() == View(blocks, bits.Free(), inodes) && freemap == bits && fails == faults
    {
      freemap, disk, files, unused, superDirty, dirty := bits, blocks, inodes, count, false, {};
      buffer, fails, ops := ZeroBlock(), faults, 0;
    }

    // ---- sfs_io.c

    method ReadBlock(b: nat) returns (st: Status, x: Block)
      requires 0 < b < |disk|
      modifies `ops
      ensures st == Done || (st == IoError && !Reliable())
      ensures st == Done ==> x == disk[b]
    {
      st, x := if fails(ops) then IoError else Done, disk[b];
      ops := ops + 1;
    }

    method WriteBlock(b: nat, x: Block) returns (st: Status)
      requires 0 < b < |disk|
      modifies `ops, `disk
      ensures st == Done || (st == IoError && !Reliable())
      ensures disk == if st == Done then old(disk)[b := x] else old(disk)
    {
      st := if fails(ops) then IoError else Done;
      ops := ops + 1;
      if st == Done {
        disk := disk[b := x];
      }
    }

    method RBuf(len: nat, b: nat, offset: nat) returns (st: Status, data: seq<Byte>)
      requires 0 < b < |disk| && |disk[b]| == BLKSIZE && |buffer| == BLKSIZE && offset + len <= BLKSIZE
      modifies `ops, `buffer
      ensures |buffer| == BLKSIZE && (st == Done || (st == IoError && !Reliable()))
      ensures st == Done ==> data == disk[b][offset..offset + len]
    {
      var x;
      st, x := ReadBlock(b);
      data := [];
      if st == Done {
        buffer := x;
        data := buffer[offset..offset + len];
      }
    }

    method WBuf(data: seq<Byte>, b: nat, offset: nat) returns (st: Status)
      requires 0 < b < |disk| && |disk[b]| == BLKSIZE && |buffer| == BLKSIZE && offset + |data| <= BLKSIZE
      modifies `ops, `buffer, `disk
      ensures |buffer| == BLKSIZE && (st == Done || (st == IoError && !Reliable()))
      ensures disk == if st == Done then old(disk)[b := Patch(old(disk)[b], offset, data)] else old(disk)
    {
      var x;
      st, x := ReadBlock(b);
      if st == Done {
        buffer := x;
        buffer := Patch(buffer, offset, data);
        st := WriteBlock(b, buffer);
      }
    }

    method ClearBlock(b: nat) returns (st: Status)
      requires 0 < b < |disk|
      modifies `ops, `buffer, `disk
      ensures |buffer| == BLKSIZE && (st == Done || (st == IoError && !Reliable()))
      ensures disk == if st == Done then old(disk)[b := ZeroBlock()] else old(disk)
    {
      buffer := ZeroBlock();
      st := WriteBlock(b, buffer);
    }

    // ---- blocks

    method BlockAlloc() returns (st: Status, ino: nat)
      requires Valid()
      modifies `ops, `buffer, `disk, `unused, `superDirty, freemap.words
      ensures Valid() && Kept(old(V()), V())
      ensures st == Done ==> ino in old(V()).free && ino < |old(disk)| && Loose(V(), ino) && unused == old(unused) - 1
      ensures st == Done ==> V() == old(V()).(free := old(V()).free - {ino}, disk := old(disk)[ino := ZeroBlock()])
      ensures st == NoMem ==> V() == old(V()) && unused == 0
      ensures st == IoError ==>
                ino in old(V()).free && V() == old(V()).(free := old(V()).free - {ino}) && Loose(V(), ino)
      ensures st == Done || st == NoMem || (st == IoError && !Reliable())
    {
      hide Ok, Bitmap.Free, ZeroBlock;
      ghost var v := V();
      var found;
      found, ino := freemap.Alloc();
      if !found {
        SameIsKept(v);
        return NoMem, 0;
      }
      TakeIsKept(v, ino);
      unused := unused - 1;
      superDirty := true;
      ghost var w := V();
      st := ClearBlock(ino);
      ClearIsKept(v, w, ino);
    }

    method BlockFree(b: nat)
      requires Basic() && 0 < b < |disk| && b !in V().free
      modifies `unused, `superDirty, freemap.words
      ensures Basic() && V() == old(V()).(free := old(V()).free + {b}) && unused == old(unused) + 1
    {
      hide Bitmap.Free;
      freemap.Release(b);
      unused := unused + 1;
      superDirty := true;
    }

    // ---- the block map

    // The block in slot index of file f, created if the slot is the next one to fill.
    method BmapGet(f: nat, index: nat, create: bool) returns (st: Status, ino: nat)
      requires Valid() && f < |files| && index < NBLOCKS
      requires if create then index == files[f].blocks else index < files[f].blocks
      modifies `ops, `buffer, `disk, `files, `dirty, `unused, `superDirty, freemap.words
      ensures Basic() && (st == Done || st == NoMem || (st == IoError && !Reliable()))
      ensures !create ==> V() == old(V()) && (st == Done ==> ino == Ref(V(), f, index))
      ensures st == Done && create ==> Stored(old(V()), V(), f, ino)
      ensures st != Done ==> Kept(old(V()), V())
      ensures st == NoMem ==> create && unused == old(unused) < old(Cost(files[f]))
    {
      hide Ok, Kept, Grew, Loose, ZeroBlock, EntStored, Stored, Bitmap.Free, Bitmap.Valid;
      ghost var v := V();
      SameIsKept(v);
      if index < NDIRECT {
        DirectFacts(v, f, index);
        st, ino := Done, files[f].direct[index];
        if ino == 0 && create {
          st, ino := BlockAlloc();
          if st != Done {
            return;
          }
          StoredDirect(v, V(), f, ino);
          files := files[f := files[f].(direct := files[f].direct[index := ino])];
          dirty := dirty + {f};
        }
      } else {
        var ent;
        st, ent, ino := BmapGetSub(f, files[f].indirect, index - NDIRECT, create);
        if st == Done && create {
          StoredEnt(v, V(), f, ent, ino);
        }
        if st == Done && ent != files[f].indirect {
          files := files[f := files[f].(indirect := ent)];
          dirty := dirty + {f};
        }
      }
    }

    // sfs_bmap_load_nolock: the block counts once it is there.
    method BmapLoad(f: nat, index: nat) returns (st: Status, ino: nat)
      requires Valid() && f < |files| && index <= files[f].blocks && index < NBLOCKS
      modifies `ops, `buffer, `disk, `files, `dirty, `unused, `superDirty, freemap.words
      ensures Valid() && (st == Done || st == NoMem || (st == IoError && !Reliable()))
      ensures index < old(files[f].blocks) ==> V() == old(V())
      ensures st == Done && index == old(files[f].blocks) ==> Grew(old(V()), V(), f)
      ensures st == Done ==> f < |files| && index < files[f].blocks && ino == Ref(V(), f, index)
      ensures st != Done ==> Kept(old(V()), V())
      ensures st == NoMem ==> index == old(files[f].blocks) && unused == old(unused) < old(Cost(files[f]))
    {
      hide Ok, Grew, ZeroBlock, Bitmap.Free, Bitmap.Valid;
      var create := index == files[f].blocks;
      st, ino := BmapGet(f, index, create);
      if st == Done && create {
        StoredIsOk(old(V()), V(), f, ino);
        files := files[f := files[f].(blocks := files[f].blocks + 1)];
      }
    }

    // Frees the block in the last slot of file f; it is counted until the caller lowers the count.
    method BmapFree(f: nat, index: nat) returns (st: Status)
      requires Valid() && f < |files| && files[f].blocks == index + 1
      modifies `ops, `buffer, `disk, `files, `dirty, `unused, `superDirty, freemap.words
      ensures Basic() && (st == Done || (st == IoError && !Reliable()))
      ensures if st == Done then Released(old(V()), V(), f) else V() == old(V())
    {
      hide Ok, Released, Shrank, Loose, Bitmap.Free, Bitmap.Valid;
      ghost var v := V();
      LastFacts(v, f);
      if index < NDIRECT {
        st := Done;
        var ino := files[f].direct[index];
        ShrinkDirect(v, f);
        if ino != 0 {
          BlockFree(ino);
          files := files[f := files[f].(direct := files[f].direct[index := 0])];
          dirty := dirty + {f};
        }
      } else {
        st := BmapFreeSub(f, files[f].indirect, index - NDIRECT);
      }
    }

    method BmapFreeSub(ghost f: nat, ent: nat, index: nat) returns (st: Status)
      requires Valid() && f < |files| && index < NENTRY && ent == files[f].indirect
      requires files[f].blocks == NDIRECT + index + 1
      modifies `ops, `buffer, `disk, `unused, `superDirty, freemap.words
      ensures Basic() && files == old(files) && (st == Done || (st == IoError && !Reliable()))
      ensures if st == Done then Released(old(V()), V(), f) else V() == old(V())
    {
      hide Ok, Released, Shrank, Loose, Patch, Encode4, Bitmap.Free, Bitmap.Valid;
      ghost var v := V();
      LastFacts(v, f);
      ShrinkEntry(v, f);
      var data;
      st, data := RBuf(4, ent, 4 * index);
      if st != Done {
        return;
      }
      var ino := Decode4(data);
      if ino != 0 {
        st := WBuf(Encode4(0), ent, 4 * index);
        if st != Done {
          return;
        }
        BlockFree(ino);
      }
    }

    // sfs_bmap_truncate_nolock
    method BmapTruncate(f: nat) returns (st: Status)
      requires Valid() && f < |files| && files[f].blocks != 0
      modifies `ops, `buffer, `disk, `files, `dirty, `unused, `superDirty, freemap.words
      ensures Valid() && (st == Done || (st == IoError && !Reliable()))
      ensures if st == Done then Shrank(old(V()), V(), f) else V() == old(V())
    {
      hide Ok, Shrank, Bitmap.Free, Bitmap.Valid;
      st := BmapFree(f, files[f].blocks - 1);
      if st == Done {
        ReleasedIsOk(old(V()), V(), f);
        files := files[f := files[f].(blocks := files[f].blocks - 1)];
        dirty := dirty + {f};
      }
    }

    // The entry of an indirect block; ent0 is the inode's indirect block or 0.
    method BmapGetSub(ghost f: nat, ent0: nat, index: nat, create: bool) returns (st: Status, ent: nat, ino: nat)
      requires Valid() && f < |files| && index < NENTRY && ent0 == files[f].indirect
      requires if create then files[f].blocks == NDIRECT + index else NDIRECT + index < files[f].blocks
      modifies `ops, `buffer, `disk, `unused, `superDirty, freemap.words
      ensures Basic() && files == old(files) && (st == Done || st == NoMem || (st == IoError && !Reliable()))
      ensures !create ==> V() == old(V())
      ensures st == Done && !create ==> ent == ent0 && ino == old(Ref(V(), f, NDIRECT + index))
      ensures st == Done && create ==> EntStored(old(V()), V(), f, ent, ino)
      ensures st != Done ==> Kept(old(V()), V())
      ensures st == NoMem ==> create && unused == old(unused) < Cost(files[f])
    {
      hide Ok, Kept, Grew, Loose, ZeroBlock, EntReady, EntStored, Bitmap.Free, Bitmap.Valid;
      ghost var v := V();
      SlotFacts(v, f, index);
      ent, ino := ent0, 0;
      if ent != 0 {
        var data;
        st, data := RBuf(4, ent, 4 * index);
        if st != Done {
          return;
        }
        ino := Decode4(data);
        if ino != 0 || !create {
          return;
        }
      } else {
        if !create {
          return Done, ent, ino;
        }
        st, ent := BlockAlloc();
        if st != Done {
          return;
        }
      }
      FirstEnt(v, V(), f, ent);
      st, ino := StoreEntry(v, f, ent0, ent, index);
    }

    // A new data block in indirect block ent, which is the inode's own or has just been allocated.
    method StoreEntry(ghost v: View, ghost f: nat, ent0: nat, ent: nat, index: nat) returns (st: Status, ino: nat)
      requires Valid() && f < |files| && index < NENTRY && ent0 == files[f].indirect
      requires files[f].blocks == NDIRECT + index
      requires EntReady(v, V(), f, ent)
      modifies `ops, `buffer, `disk, `unused, `superDirty, freemap.words
      ensures Basic() && files == old(files) && (st == Done || st == NoMem || (st == IoError && !Reliable()))
      ensures st == Done ==> EntStored(v, V(), f, ent, ino)
      ensures st != Done ==> Kept(v, V())
      ensures st == NoMem ==> unused == |v.free| < Cost(files[f])
    {
      hide Ok, Kept, Grew, Loose, Patch, Encode4, ZeroBlock, EntReady, EntStored, Bitmap.Free, Bitmap.Valid;
      ghost var w := V();
      EntIsBlock(v, w, f, ent);
      EntCount(v, w, f, ent);
      st, ino := BlockAlloc();
      AfterFacts(w, V(), ino, ent);
      if st != Done {
        DropEnt(v, w, f, ent0, ent);
        return;
      }
      st := WriteEntry(v, w, f, ent0, ent, index, ino);
    }

    // Records data block ino in the indirect block, or gives both back.
    method WriteEntry(ghost v: View, ghost w: View, ghost f: nat, ent0: nat, ent: nat, index: nat, ino: nat)
      returns (st: Status)
      requires Basic() && EntReady(v, w, f, ent) && ent0 == w.files[f].indirect && index < NENTRY
      requires w.files[f].blocks == NDIRECT + index
      requires ino in w.free && ino < |w.disk| && V() == w.(free := w.free - {ino}, disk := w.disk[ino := ZeroBlock()])
      requires Kept(w, V()) && Loose(V(), ino) && (Loose(w, ent) ==> Loose(V(), ent))
      modifies `ops, `buffer, `disk, `unused, `superDirty, freemap.words
      ensures Basic() && files == old(files) && (st == Done || (st == IoError && !Reliable()))
      ensures if st == Done then EntStored(v, V(), f, ent, ino) else Kept(v, V())
    {
      hide Ok, Kept, Grew, Loose, Patch, Encode4, ZeroBlock, EntReady, EntStored, Bitmap.Free, Bitmap.Valid;
      ghost var u := V();
      EntIsBlock(v, w, f, ent);
      st := WBuf(Encode4(ino), ent, 4 * index);
      if st != Done {
        UndoIno(w, u, ino, ent);
        BlockFree(ino);
        DropEnt(v, w, f, ent0, ent);
      } else {
        StoredIsGrown(v, w, u, f, ent, ino);
      }
    }

    // The cleanup: a fresh indirect block goes back.
    method DropEnt(ghost v: View, ghost w: View, ghost f: nat, ent0: nat, ent: nat)
      requires Basic() && EntReady(v, w, f, ent) && Kept(w, V()) && (Loose(w, ent) ==> Loose(V(), ent))
      requires ent0 == w.files[f].indirect
      modifies `unused, `superDirty, freemap.words
      ensures Basic() && Kept(v, V()) && files == old(files)
      ensures unused == if ent == ent0 then old(unused) else old(unused) + 1
    {
      hide Ok, Kept, Loose, EntReady, Bitmap.Free, Bitmap.Valid;
      UndoEnt(v, w, V(), f, ent);
      EntIsBlock(v, w, f, ent);
      if ent != ent0 {
        BlockFree(ent);
      }
    }
  }

  // What allocating a block does to the view: nothing, or a block is taken, and perhaps cleared.
  ghost predicate After(w: View, u: View, b: nat) {
    || u == w
    || (b in w.free && u == w.(free := w.free - {b}))
    || (b in w.free && b < |w.disk| && u == w.(free := w.free - {b}, disk := w.disk[b := ZeroBlock()]))
  }

  lemma AfterFacts(w: View, u: View, b: nat, ent: nat)
    requires Ok(w) && After(w, u, b)
    ensures Kept(w, u) && (Loose(w, ent) ==> Loose(u, ent))
  {
    hide RefOf, Blocks, ZeroBlock;
    if u == w {
    } else {
      TakeFree(w, b);
      var t := w.(free := w.free - {b});
      assert Loose(w, ent) ==> Loose(t, ent) by {
        assert forall f, k :: 0 <= f < |w.files| && 0 <= k < NSLOTS ==> Ref(t, f, k) == Ref(w, f, k);
      }
      if u != t {
        WriteLoose(t, b, ZeroBlock());
        LooseElsewhere(t, b, ent);
      }
    }
  }

  lemma LooseElsewhere(t: View, b: nat, ent: nat)
    requires Ok(t) && Loose(t, b)
    ensures Loose(t, ent) ==>
              Shape(t.(disk := t.disk[b := ZeroBlock()])) && Loose(t.(disk := t.disk[b := ZeroBlock()]), ent)
  {
    hide RefOf;
    var u := t.(disk := t.disk[b := ZeroBlock()]);
    forall f, k | 0 <= f < |t.files| && 0 <= k < NSLOTS ensures Shape(u) && Ref(u, f, k) == Ref(t, f, k) {
      SameRefs(t, b, ZeroBlock(), f, k);
    }
  }

  lemma EntIsBlock(v: View, w: View, f: nat, ent: nat)
    requires EntReady(v, w, f, ent)
    ensures 0 < ent < |w.disk| && ent !in w.free && |w.disk[ent]| == BLKSIZE
  {
    IndirectRef(w, f);
  }

  lemma EntCount(v: View, w: View, f: nat, ent: nat)
    requires EntReady(v, w, f, ent) && w.files[f].blocks >= NDIRECT
    ensures if w.files[f].indirect == ent then Cost(w.files[f]) == 1 && v == w
            else Cost(w.files[f]) == 2 && |v.free| == |w.free| + 1
  {}

  // Giving a fresh indirect block back leaves every file as it was.
  lemma UndoEnt(v: View, w: View, u: View, f: nat, ent: nat)
    requires EntReady(v, w, f, ent) && Kept(w, u) && (Loose(w, ent) ==> Loose(u, ent))
    ensures w.files[f].indirect == ent ==> Kept(v, u)
    ensures w.files[f].indirect != ent ==> ent < |u.disk| && ent !in u.free && Kept(v, u.(free := u.free + {ent}))
  {
    hide RefOf, Blocks;
    if w.files[f].indirect != ent {
      GiveBack(u, ent);
    }
  }

  lemma UndoIno(w: View, u: View, b: nat, ent: nat)
    requires Kept(w, u) && Loose(u, b) && b in w.free && (Loose(w, ent) ==> Loose(u, ent))
    ensures 0 < b < |u.disk| && b !in u.free
    ensures Kept(w, u.(free := u.free + {b})) && (Loose(w, ent) ==> Loose(u.(free := u.free + {b}), ent))
  {
    hide RefOf, Blocks;
    GiveBack(u, b);
    var t := u.(free := u.free + {b});
    assert forall f, k :: 0 <= f < |u.files| && 0 <= k < NSLOTS ==> Ref(t, f, k) == Ref(u, f, k);
  }

  lemma StoredIsGrown(v: View, w: View, u: View, f: nat, ent: nat, b: nat)
    requires EntReady(v, w, f, ent) && NDIRECT <= w.files[f].blocks < NBLOCKS && b in w.free && b < |w.disk|
    requires u == w.(free := w.free - {b}, disk := w.disk[b := ZeroBlock()]) && Kept(w, u) && Loose(u, b)
    requires (Loose(w, ent) ==> Loose(u, ent))
    ensures ent < |u.disk| && |u.disk[ent]| == BLKSIZE
    ensures var disk := u.disk[ent := Patch(u.disk[ent], 4 * (w.files[f].blocks - NDIRECT), Encode4(b))];
            EntStored(v, u.(disk := disk), f, ent, b)
  {
    hide RefOf, Blocks, ZeroBlock, Patch, Encode4;
    IndirectRef(w, f);
    var x := u.(disk := u.disk[ent := Patch(u.disk[ent], 4 * (w.files[f].blocks - NDIRECT), Encode4(b))]);
    if w.files[f].indirect == ent {
      GrowEntry(v, u, f, b);
      assert WithInode(x, f, x.files[f].(indirect := ent)) == x;
    } else {
      OnlyDirect(w, f);
      GrowIndirect(v, u, f, ent, b);
    }
  }

  // Without an indirect block a file has at most twelve blocks.
  lemma OnlyDirect(v: View, f: nat)
    requires Ok(v) && f < |v.files| && v.files[f].indirect == 0
    ensures v.files[f].blocks <= NDIRECT
  {
    assert Ref(v, f, NDIRECT) == 0;
  }

  // Once counted, block ino is the new last block of the file.
  ghost predicate Stored(v: View, w: View, f: nat, ino: nat) {
    && f < |v.files| == |w.files| && ino != 0 && v.files[f].blocks == w.files[f].blocks < NBLOCKS
    && Grew(v, Bumped(w, f), f) && ino == Ref(Bumped(w, f), f, w.files[f].blocks)
  }

  lemma StoredDirect(v: View, w: View, f: nat, b: nat)
    requires Kept(v, w) && f < |v.files| && v.files[f].blocks < NDIRECT && Loose(w, b) && w.disk[b] == ZeroBlock()
    requires |w.free| == |v.free| - 1
    ensures |w.files[f].direct| == NDIRECT
    ensures var u := WithInode(w, f, w.files[f].(direct := w.files[f].direct[w.files[f].blocks := b]));
            Shape(u) && Stored(v, u, f, b)
  {
    GrowDirect(v, w, f, b);
    hide Ref, ZeroBlock, Grew;
  }

  lemma StoredEnt(v: View, w: View, f: nat, ent: nat, ino: nat)
    requires EntStored(v, w, f, ent, ino) && v.files == w.files && Shape(w)
    ensures var u := WithInode(w, f, w.files[f].(indirect := ent)); Shape(u) && Stored(v, u, f, ino)
    ensures ent == w.files[f].indirect ==> Stored(v, w, f, ino)
  {
    hide Ref, Grew;
    assert ent == w.files[f].indirect ==> WithInode(w, f, w.files[f].(indirect := ent)) == w;
  }

  lemma StoredIsOk(v: View, w: View, f: nat, ino: nat)
    requires Stored(v, w, f, ino)
    ensures Ok(Bumped(w, f)) && Shape(Bumped(w, f))
  {}

  function Dropped(v: View, f: nat): View
    requires f < |v.files| && v.files[f].blocks > 0
  {
    WithInode(v, f, v.files[f].(blocks := v.files[f].blocks - 1))
  }

  // Once the count is lowered, the file has lost its last block.
  ghost predicate Released(v: View, w: View, f: nat) {
    f < |w.files| && w.files[f].blocks > 0 && Shape(w) && Shrank(v, Dropped(w, f), f)
  }

  lemma ReleasedIsOk(v: View, w: View, f: nat)
    requires Released(v, w, f)
    ensures Ok(Dropped(w, f)) && Shape(Dropped(w, f))
  {}

  // The last block of a file, and where its number is kept.
  lemma LastFacts(v: View, f: nat)
    requires Ok(v) && f < |v.files| && v.files[f].blocks > 0
    ensures var k, e := v.files[f].blocks - 1, v.files[f].indirect;
            && k < NBLOCKS && 0 < Ref(v, f, k) < |v.disk| && Ref(v, f, k) !in v.free && |v.files[f].direct| == NDIRECT
            && if k < NDIRECT then Ref(v, f, k) == v.files[f].direct[k]
               else 0 < e < |v.disk| && |v.disk[e]| == BLKSIZE && Ref(v, f, k) == Entry(v.disk[e], k - NDIRECT)
  {}

  lemma ShrinkDirect(v: View, f: nat)
    requires Ok(v) && f < |v.files| && 0 < v.files[f].blocks <= NDIRECT
    ensures var k := v.files[f].blocks - 1;
            |v.files[f].direct| == NDIRECT
            && Released(v, WithInode(v.(free := v.free + {Ref(v, f, k)}), f,
                                     v.files[f].(direct := v.files[f].direct[k := 0])), f)
  {
    hide RefOf, Blocks;
    LastFacts(v, f);
    var k := v.files[f].blocks - 1;
    var b := Ref(v, f, k);
    SetDirect(v, f, k, 0, k);
    var w := WithInode(v, f, v.files[f].(direct := v.files[f].direct[k := 0], blocks := k));
    Detach(v, w, f);
    GiveBack(w, b);
    var u := WithInode(v.(free := v.free + {b}), f, v.files[f].(direct := v.files[f].direct[k := 0]));
    assert Dropped(u, f) == w.(free := w.free + {b});
    assert SameNames(v, Dropped(u, f));
  }

  lemma ShrinkEntry(v: View, f: nat)
    requires Ok(v) && f < |v.files| && NDIRECT < v.files[f].blocks
    ensures var k, e := v.files[f].blocks - 1, v.files[f].indirect;
            k < NBLOCKS && e < |v.disk| && |v.disk[e]| == BLKSIZE
            && Released(v, v.(free := v.free + {Ref(v, f, k)},
                              disk := v.disk[e := Patch(v.disk[e], 4 * (k - NDIRECT), Encode4(0))]), f)
  {
    hide RefOf, Blocks, Patch, Encode4;
    LastFacts(v, f);
    var k, e := v.files[f].blocks - 1, v.files[f].indirect;
    var b := Ref(v, f, k);
    var x := v.disk[e := Patch(v.disk[e], 4 * (k - NDIRECT), Encode4(0))];
    SetEntry(v, f, k, 0, k);
    var w := WithInode(v.(disk := x), f, v.files[f].(blocks := k));
    Detach(v, w, f);
    GiveBack(w, b);
    var u := v.(free := v.free + {b}, disk := x);
    assert Dropped(u, f) == w.(free := w.free + {b});
    assert SameNames(v, Dropped(u, f));
  }

  lemma DirectFacts(v: View, f: nat, k: nat)
    requires Ok(v) && f < |v.files| && k < NDIRECT
    ensures |v.files[f].direct| == NDIRECT && Ref(v, f, k) == v.files[f].direct[k]
    ensures Ref(v, f, k) != 0 <==> k < v.files[f].blocks
  {}

  lemma SlotFacts(v: View, f: nat, index: nat)
    requires Ok(v) && f < |v.files| && index < NENTRY
    ensures Kept(v, v)
    ensures var e := v.files[f].indirect;
            if e == 0 then Ref(v, f, NDIRECT + index) == 0 && v.files[f].blocks <= NDIRECT + index
            else 0 < e < |v.disk| && |v.disk[e]| == BLKSIZE && Ref(v, f, NDIRECT + index) == Entry(v.disk[e], index)
    ensures Ref(v, f, NDIRECT + index) != 0 <==> NDIRECT + index < v.files[f].blocks
  {
  }

  lemma FirstEnt(v: View, w: View, f: nat, ent: nat)
    requires Ok(v) && f < |v.files|
    requires if v.files[f].indirect != 0 then ent == v.files[f].indirect && w == v
             else
               && Kept(v, w) && ent in v.free && ent < |w.disk| && Loose(w, ent)
               && w.disk[ent] == ZeroBlock() && w.free == v.free - {ent}
    ensures EntReady(v, w, f, ent)
  {}

  // The indirect block to use: the inode's, with nothing done yet, or a fresh one that is still loose.
  ghost predicate EntReady(v: View, w: View, f: nat, ent: nat) {
    && Kept(v, w) && f < |w.files| && 0 < ent < |w.disk|
    && if w.files[f].indirect == ent then v == w
       else
         && w.files[f].indirect == 0 && Loose(w, ent) && w.disk[ent] == ZeroBlock()
         && ent in v.free && w.free == v.free - {ent}
  }

  // With ent as its indirect block and the block counted, the file has grown by block ino.
  ghost predicate EntStored(v: View, w: View, f: nat, ent: nat, ino: nat) {
    && f < |w.files| && ent < |w.disk| && ino != 0
    && var x := Bumped(WithInode(w, f, w.files[f].(indirect := ent)), f);
       Grew(v, x, f) && w.files[f].blocks < NBLOCKS && ino == Ref(x, f, w.files[f].blocks)
  }

  function Bumped(v: View, f: nat): View
    requires f < |v.files|
  {
    WithInode(v, f, v.files[f].(blocks := v.files[f].blocks + 1))
  }

  lemma GrowDirect(v: View, w: View, f: nat, b: nat)
    requires Kept(v, w) && f < |v.files| && v.files[f].blocks < NDIRECT && Loose(w, b) && w.disk[b] == ZeroBlock()
    requires |w.free| == |v.free| - 1
    ensures |w.files[f].direct| == NDIRECT
    ensures var u := Bumped(WithInode(w, f, w.files[f].(direct := w.files[f].direct[w.files[f].blocks := b])), f);
            Grew(v, u, f) && Ref(u, f, w.files[f].blocks) == b
  {
    hide RefOf, Blocks, ZeroBlock;
    var k := w.files[f].blocks;
    SetDirect(w, f, k, b, k + 1);
    var u := WithInode(w, f, w.files[f].(direct := w.files[f].direct[k := b], blocks := k + 1));
    Attach(w, u, f, b);
    assert u == Bumped(WithInode(w, f, w.files[f].(direct := w.files[f].direct[k := b])), f);
    assert SameNames(v, u);
  }

  lemma GrowEntry(v: View, w: View, f: nat, b: nat)
    requires Ok(v) && Ok(w) && SameBlocks(v, w) && SameNames(v, w) && w.free <= v.free
    requires f < |v.files| && NDIRECT <= w.files[f].blocks < NBLOCKS && w.files[f].indirect != 0
    requires Loose(w, b) && w.disk[b] == ZeroBlock() && |w.free| == |v.free| - Cost(v.files[f])
    ensures var e := w.files[f].indirect; e < |w.disk| && |w.disk[e]| == BLKSIZE
    ensures var e := w.files[f].indirect;
            var u := Bumped(
                       w.(disk := w.disk[e := Patch(w.disk[e], 4 * (w.files[f].blocks - NDIRECT), Encode4(b))]), f);
            Grew(v, u, f) && Ref(u, f, w.files[f].blocks) == b
  {
    hide RefOf, Blocks, ZeroBlock, Patch, Encode4;
    var k, e := w.files[f].blocks, w.files[f].indirect;
    SetEntry(w, f, k, b, k + 1);
    var u := Bumped(w.(disk := w.disk[e := Patch(w.disk[e], 4 * (k - NDIRECT), Encode4(b))]), f);
    IndirectRef(w, f);
    Attach(w, u, f, b);
    assert u.disk[b] == ZeroBlock() && SameNames(v, u);
  }

  // The first indirect block of a file, and a data block in it.
  lemma GrowIndirect(v: View, w: View, f: nat, e: nat, b: nat)
    requires Kept(v, w) && f < |v.files| && v.files[f].blocks == NDIRECT && v.files[f].indirect == 0
    requires Loose(w, e) && Loose(w, b) && e != b && w.disk[e] == ZeroBlock() && w.disk[b] == ZeroBlock()
    requires |w.free| == |v.free| - 2
    ensures var u := Bumped(WithInode(w.(disk := w.disk[e := Patch(w.disk[e], 0, Encode4(b))]), f,
                                      w.files[f].(indirect := e)), f);
            Grew(v, u, f) && Ref(u, f, NDIRECT) == b
  {
    hide RefOf, Blocks, ZeroBlock, Patch, Encode4;
    var u := WithInode(w, f, w.files[f].(indirect := e));
    SetIndirect(w, f, e);
    AttachOther(w, u, f, INDIRECT, e);
    assert Loose(u, b);
    assert SameBlocks(v, u) && SameNames(v, u);
    GrowEntry(v, u, f, b);
  }

  lemma SameIsKept(v: View)
    requires Ok(v)
    ensures Kept(v, v)
  {}

  lemma TakeIsKept(v: View, b: nat)
    requires Ok(v) && b in v.free
    ensures 0 < b < |v.disk|
    ensures var w := v.(free := v.free - {b}); Kept(v, w) && Loose(w, b) && |w.free| == |v.free| - 1
  {
    hide RefOf;
    TakeFree(v, b);
  }

  // Clearing the block just taken.
  lemma ClearIsKept(v: View, w: View, b: nat)
    requires Kept(v, w) && Loose(w, b)
    ensures var u := w.(disk := w.disk[b := ZeroBlock()]); Kept(v, u) && Loose(u, b)
  {
    hide RefOf, Blocks;
    WriteLoose(w, b, ZeroBlock());
  }
}
