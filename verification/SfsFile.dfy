/**
  File input and output of ucore/kern/fs/sfs/sfs_inode.c: reads, writes and
  truncation in blocks refine a flat sequence of bytes.
 */
module SfsFile {
  import opened Bits
  import opened SfsBitmap
  import opened SfsLayout
  import opened SfsInode

  const MAX_FILE_SIZE: nat := 0x800_0000

  // ---- files as bytes

  function ByteOf(bs: seq<Block>, i: nat): Byte
    requires i < BLKSIZE * |bs| && forall k :: 0 <= k < |bs| ==> |bs[k]| == BLKSIZE
  {
    bs[i / BLKSIZE][i % BLKSIZE]
  }

  ghost predicate Mapped(v: View, f: nat) {
    f < |v.files| && v.files[f].size <= BLKSIZE * v.files[f].blocks
  }

  // The bytes of a file.
  ghost function Content(v: View, f: nat): (s: seq<Byte>)
    requires Ok(v) && Mapped(v, f)
    ensures |s| == v.files[f].size
  {
    seq(v.files[f].size, i requires 0 <= i < v.files[f].size => ByteOf(Blocks(v, f), i))
  }

  // All the bytes of a file's blocks, past its end too.
  ghost function Space(v: View, f: nat): (s: seq<Byte>)
    requires Ok(v) && f < |v.files|
    ensures |s| == BLKSIZE * v.files[f].blocks && (Mapped(v, f) ==> Content(v, f) == s[..v.files[f].size])
  {
    seq(BLKSIZE * v.files[f].blocks, i requires 0 <= i < BLKSIZE * v.files[f].blocks => ByteOf(Blocks(v, f), i))
  }

  // now is was with data at offset, longer perhaps, and zero where neither says more.
  ghost predicate Laid(was: seq<Byte>, now: seq<Byte>, offset: nat, data: seq<Byte>) {
    && |was| <= |now| && (|data| > 0 ==> offset + |data| <= |now|)
    && forall i :: 0 <= i < |now| ==>
         now[i] == if offset <= i < offset + |data| then data[i - offset] else if i < |was| then was[i] else 0
  }

  // The bytes that both have are the same.
  ghost predicate Agree(was: seq<Byte>, now: seq<Byte>) {
    forall i :: 0 <= i < |was| && i < |now| ==> now[i] == was[i]
  }

  // A prefix, or the whole followed by zeros.
  ghost predicate Fitted(was: seq<Byte>, now: seq<Byte>) {
    Agree(was, now) && forall i :: |was| <= i < |now| ==> now[i] == 0
  }

  // The blocks that a number of bytes asks for.
  function BlocksFor(len: nat): (n: nat)
    ensures len <= BLKSIZE * n && (n > 0 ==> BLKSIZE * (n - 1) < len)
  {
    (len + BLKSIZE - 1) / BLKSIZE
  }

  predicate Exact(n: Inode) {
    n.blocks == BlocksFor(n.size)
  }

  // The bytes of a file up to n, if that is past its end: what its blocks hold there, and then zeros.
  ghost function Room(v: View, f: nat, n: nat): (s: seq<Byte>)
    requires Ok(v) && Mapped(v, f)
    ensures |s| == Max(v.files[f].size, n) && (n <= v.files[f].size ==> s == Content(v, f))
  {
    seq(Max(v.files[f].size, n), i requires 0 <= i < Max(v.files[f].size, n) =>
      if i < BLKSIZE * v.files[f].blocks then ByteOf(Blocks(v, f), i) else 0)
  }

  // data written over s at offset, extending it if need be
  function Overwrite(s: seq<Byte>, offset: nat, data: seq<Byte>): seq<Byte>
    requires offset <= |s|
  {
    s[..offset] + data + if offset + |data| <= |s| then s[offset + |data|..] else []
  }

  // ---- one block at a time

  function Grown(bs: seq<Block>, k: nat): (r: seq<Block>)
    requires k <= |bs| && forall j :: 0 <= j < |bs| ==> |bs[j]| == BLKSIZE
    ensures k < |r| && |bs| <= |r| && forall j :: 0 <= j < |r| ==> |r[j]| == BLKSIZE
  {
    if k < |bs| then bs else bs + [ZeroBlock()]
  }

  // bs is was with data at offset; new blocks are zero elsewhere.
  ghost predicate Written(was: seq<Block>, bs: seq<Block>, offset: nat, data: seq<Byte>) {
    && |was| <= |bs| && (forall k :: 0 <= k < |was| ==> |was[k]| == BLKSIZE)
    && (forall k :: 0 <= k < |bs| ==> |bs[k]| == BLKSIZE)
    && (|data| > 0 ==> offset + |data| <= BLKSIZE * |bs|)
    && forall i: nat :: i < BLKSIZE * |bs| ==> ByteOf(bs, i) == WrittenByte(was, offset, data, i)
  }

  ghost function WrittenByte(was: seq<Block>, offset: nat, data: seq<Byte>, i: nat): Byte
    requires forall k :: 0 <= k < |was| ==> |was[k]| == BLKSIZE
  {
    if offset <= i < offset + |data| then data[i - offset] else if i < BLKSIZE * |was| then ByteOf(was, i) else 0
  }

  lemma WrittenSpace(v: View, w: View, f: nat, offset: nat, data: seq<Byte>)
    requires Ok(v) && Ok(w) && f < |v.files| && f < |w.files| && Written(Blocks(v, f), Blocks(w, f), offset, data)
    ensures Laid(Space(v, f), Space(w, f), offset, data)
  {
    hide Ok, Blocks, ByteOf;
  }

  lemma GrownByte(bs: seq<Block>, k: nat, i: nat)
    requires k <= |bs| && (forall j :: 0 <= j < |bs| ==> |bs[j]| == BLKSIZE) && i < BLKSIZE * |Grown(bs, k)|
    ensures ByteOf(Grown(bs, k), i) == if i < BLKSIZE * |bs| then ByteOf(bs, i) else 0
  {}

  lemma PatchedByte(bs: seq<Block>, k: nat, o: nat, data: seq<Byte>, i: nat)
    requires k < |bs| && (forall j :: 0 <= j < |bs| ==> |bs[j]| == BLKSIZE) && o + |data| <= BLKSIZE
    requires i < BLKSIZE * |bs|
    ensures ByteOf(bs[k := Patch(bs[k], o, data)], i)
         == if BLKSIZE * k + o <= i < BLKSIZE * k + o + |data| then data[i - BLKSIZE * k - o] else ByteOf(bs, i)
  {}

  // Growing by a zero block keeps the bytes written so far.
  lemma WrittenGrown(was: seq<Block>, bs: seq<Block>, offset: nat, data: seq<Byte>, k: nat)
    requires Written(was, bs, offset, data) && k <= |bs|
    ensures Written(was, Grown(bs, k), offset, data)
  {
    hide ByteOf;
    forall i: nat | i < BLKSIZE * |Grown(bs, k)| ensures ByteOf(Grown(bs, k), i) == WrittenByte(was, offset, data, i) {
      GrownByte(bs, k, i);
    }
  }

  // The next chunk continues the bytes written so far.
  lemma WrittenNext(was: seq<Block>, bs: seq<Block>, offset: nat, data: seq<Byte>, k: nat, o: nat, more: seq<Byte>)
    requires Written(was, bs, offset, data) && k <= |bs| && o + |more| <= BLKSIZE && BLKSIZE * k + o == offset + |data|
    ensures Written(was, Grown(bs, k)[k := Patch(Grown(bs, k)[k], o, more)], offset, data + more)
  {
    hide ByteOf, Grown, Patch;
    WrittenGrown(was, bs, offset, data, k);
    var g := Grown(bs, k);
    var n := g[k := Patch(g[k], o, more)];
    forall i: nat | i < BLKSIZE * |n| ensures ByteOf(n, i) == WrittenByte(was, offset, data + more, i) {
      PatchedByte(g, k, o, more, i);
    }
  }

  // ---- what blocks cost

  // Free blocks needed to give a file t blocks.
  function Need(n: Inode, t: nat): nat {
    if t <= n.blocks then 0 else t - n.blocks + if n.indirect == 0 && t > NDIRECT then 1 else 0
  }

  // The blocks that file f has gained are those that are no longer free.
  ghost predicate Paid(v: View, w: View, f: nat) {
    && f < |v.files| == |w.files| && v.files[f].blocks <= w.files[f].blocks
    && |w.free| == |v.free| - Need(v.files[f], w.files[f].blocks)
    && (w.files[f].blocks <= NDIRECT ==> w.files[f].indirect == v.files[f].indirect)
  }

  // The same for one block, if slot k was the next to fill.
  ghost predicate Charged(v: View, w: View, f: nat, k: nat) {
    && f < |v.files| == |w.files|
    && |w.free| == |v.free| - (if k < v.files[f].blocks then 0 else Cost(v.files[f]))
    && (if k < v.files[f].blocks then w.files == v.files
        else w.files[f].blocks <= NDIRECT ==> w.files[f].indirect == v.files[f].indirect)
  }

  lemma PaidNext(v: View, w: View, u: View, f: nat, k: nat)
    requires Ok(v) && Ok(w) && Paid(v, w, f) && Charged(w, u, f, k) && k <= w.files[f].blocks
    requires u.files[f].blocks == Max(w.files[f].blocks, k + 1)
    ensures Paid(v, u, f)
  {
    if k == w.files[f].blocks {
      NextNeed(v, w, f);
    }
    hide Ok;
  }

  // What the next block costs, counted from the start.
  lemma NextNeed(v: View, w: View, f: nat)
    requires Ok(v) && Ok(w) && Paid(v, w, f)
    ensures var t := w.files[f].blocks; Cost(w.files[f]) == Need(v.files[f], t + 1) - Need(v.files[f], t)
  {
    if w.files[f].indirect == 0 {
      OnlyDirect(w, f);
    }
    if v.files[f].indirect == 0 {
      OnlyDirect(v, f);
    }
  }

  // ---- one chunk

  // A chunk has been moved between block k of file f, which may be new, and the caller.
  ghost predicate Moved(v: View, w: View, f: nat, k: nat, o: nat, data: seq<Byte>, write: bool) {
    && Ok(v) && Ok(w) && f < |v.files| && |w.files| == |v.files| && k <= v.files[f].blocks && o + |data| <= BLKSIZE
    && OthersSame(v, w, f) && SameNames(v, w) && Charged(v, w, f, k)
    && var g := Grown(Blocks(v, f), k);
       if write then Blocks(w, f) == g[k := Patch(g[k], o, data)]
       else Blocks(w, f) == g && data == g[k][o..o + |data|] && (k < v.files[f].blocks ==> w == v)
  }

  // Nothing has been moved, but the file may have grown.
  ghost predicate Stalled(v: View, w: View, f: nat) {
    && Ok(v) && Ok(w) && f < |v.files| && |w.files| == |v.files| && OthersSame(v, w, f) && SameNames(v, w)
    && (Blocks(w, f) == Blocks(v, f) || Blocks(w, f) == Grown(Blocks(v, f), v.files[f].blocks))
  }

  // Slot k of file f is the next to fill, and the free blocks do not suffice for it.
  predicate NoBlockFor(v: View, f: nat, k: nat)
    requires f < |v.files|
  {
    k == v.files[f].blocks && |v.free| < Cost(v.files[f])
  }

  // sfs_bmap_load_nolock as the loops of a request use it.
  method Load(fs: Sfs, f: nat, k: nat) returns (st: Status, ino: nat)
    requires fs.Valid() && f < |fs.files| && k <= fs.files[f].blocks && k < NBLOCKS
    modifies fs`ops, fs`buffer, fs`disk, fs`files, fs`dirty, fs`unused, fs`superDirty, fs.freemap.words
    ensures fs.Valid() && (st == Done || st == NoMem || (st == IoError && !fs.Reliable()))
    ensures Stalled(old(fs.V()), fs.V(), f) && (k < old(fs.files[f].blocks) ==> fs.V() == old(fs.V()) && st != NoMem)
    ensures st != Done ==> fs.files == old(fs.files)
    ensures st == NoMem ==> NoBlockFor(old(fs.V()), f, k) && NoBlockFor(fs.V(), f, k) && fs.unused == old(fs.unused)
    ensures st == Done ==> !NoBlockFor(old(fs.V()), f, k) && LoadedAt(old(fs.V()), fs.V(), f, k, ino)
  {
    hide Ok, Blocks, Kept, Grew, Stalled, ZeroBlock, Grown, Ref, Shape;
    ghost var v := fs.V();
    st, ino := fs.BmapLoad(f, k);
    ghost var w := fs.V();
    if st != Done {
      KeptStalls(v, w, f);
    } else {
      LoadedBlock(v, w, f, k);
      if k == v.files[f].blocks {
        GrewPaid(v, w, f);
      }
    }
  }

  // Block ino of the disk is block k of file f, which has perhaps just been added.
  ghost predicate LoadedAt(v: View, w: View, f: nat, k: nat, ino: nat) {
    && Ok(v) && Ok(w) && f < |v.files| && f < |w.files| && k <= v.files[f].blocks && k < w.files[f].blocks
    && Blocks(w, f) == Grown(Blocks(v, f), k) && ino == Ref(w, f, k) && Charged(v, w, f, k)
    && 0 < ino < |w.disk| && |w.disk[ino]| == BLKSIZE && w.disk[ino] == Blocks(w, f)[k]
  }

  method Transfer(fs: Sfs, f: nat, k: nat, o: nat, len: nat, buf: seq<Byte>, write: bool)
    returns (st: Status, data: seq<Byte>)
    requires fs.Valid() && f < |fs.files| && k <= fs.files[f].blocks && k < NBLOCKS && o + len <= BLKSIZE
    requires write ==> |buf| == len
    modifies fs`ops, fs`buffer, fs`disk, fs`files, fs`dirty, fs`unused, fs`superDirty, fs.freemap.words
    ensures fs.Valid() && (st == Done || st == NoMem || (st == IoError && !fs.Reliable()))
    ensures st == Done ==> |data| == len && (write ==> data == buf) && Moved(old(fs.V()), fs.V(), f, k, o, data, write)
    ensures st != Done ==> Stalled(old(fs.V()), fs.V(), f)
    ensures st != Done && !write && k < old(fs.files[f].blocks) ==> fs.V() == old(fs.V()) && st != NoMem
    ensures st == NoMem ==> NoBlockFor(old(fs.V()), f, k) && NoBlockFor(fs.V(), f, k)
    ensures st == NoMem ==> fs.files == old(fs.files) && fs.unused == old(fs.unused)
    ensures st == Done ==> !NoBlockFor(old(fs.V()), f, k)
  {
    hide Ok, Blocks, Moved, Stalled, Patch, Grown, Ref, Shape, NoBlockFor, Charged, Bitmap.Valid, Bitmap.Free;
    ghost var v := fs.V();
    data := buf;
    var ino;
    st, ino := Load(fs, f, k);
    ghost var w := fs.V();
    if st == Done {
      st, data := BlockOp(fs, ino, o, len, buf, write);
      if st == Done {
        if write {
          WriteMoves(v, w, f, k, o, buf);
        } else {
          ReadMoves(v, w, f, k, o, data);
        }
      }
    }
  }

  // Whole blocks go straight to the device, parts of one through the buffer.
  method BlockOp(fs: Sfs, b: nat, o: nat, len: nat, buf: seq<Byte>, write: bool) returns (st: Status, data: seq<Byte>)
    requires 0 < b < |fs.disk| && |fs.disk[b]| == BLKSIZE && |fs.buffer| == BLKSIZE && o + len <= BLKSIZE
    requires (write ==> |buf| == len)
    modifies fs`ops, fs`buffer, fs`disk
    ensures |fs.buffer| == BLKSIZE && (st == Done || (st == IoError && !fs.Reliable()))
    ensures fs.disk == if st == Done && write then old(fs.disk)[b := Patch(old(fs.disk)[b], o, buf)] else old(fs.disk)
    ensures st == Done ==> data == if write then buf else fs.disk[b][o..o + len]
  {
    data := buf;
    if write {
      if len == BLKSIZE {
        assert Patch(fs.disk[b], o, buf) == buf;
        st := fs.WriteBlock(b, buf);
      } else {
        st := fs.WBuf(buf, b, o);
      }
    } else if len == BLKSIZE {
      st, data := fs.ReadBlock(b);
    } else {
      st, data := fs.RBuf(len, b, o);
    }
  }

  lemma GrewPaid(v: View, w: View, f: nat)
    requires Grew(v, w, f)
    ensures |v.free| >= Cost(v.files[f]) && Charged(v, w, f, v.files[f].blocks)
  {
    hide Ok;
  }

  lemma KeptStalls(v: View, w: View, f: nat)
    requires Kept(v, w) && f < |v.files|
    ensures Stalled(v, w, f) && w.files == v.files
  {}

  // The block that was loaded, existing or new.
  lemma LoadedBlock(v: View, w: View, f: nat, k: nat)
    requires Ok(v) && f < |v.files| && k <= v.files[f].blocks && k < NBLOCKS
    requires if k < v.files[f].blocks then w == v else Grew(v, w, f)
    ensures Ok(w) && Stalled(v, w, f) && Blocks(w, f) == Grown(Blocks(v, f), k) && k < w.files[f].blocks
    ensures 0 < Ref(w, f, k) < |w.disk| && |w.disk[Ref(w, f, k)]| == BLKSIZE && w.disk[Ref(w, f, k)] == Blocks(w, f)[k]
  {
    hide RefOf;
  }

  lemma WriteMoves(v: View, w: View, f: nat, k: nat, o: nat, data: seq<Byte>)
    requires Ok(w) && Stalled(v, w, f) && k <= v.files[f].blocks && k < w.files[f].blocks && Charged(v, w, f, k)
    requires Blocks(w, f) == Grown(Blocks(v, f), k)
    requires o + |data| <= BLKSIZE && Ref(w, f, k) < |w.disk| && w.disk[Ref(w, f, k)] == Blocks(w, f)[k]
    ensures var u := w.(disk := w.disk[Ref(w, f, k) := Patch(w.disk[Ref(w, f, k)], o, data)]);
            Ok(u) && Shape(u) && Moved(v, u, f, k, o, data, true)
  {
    hide Ref, Blocks, Grown;
    WriteData(w, f, k, Patch(w.disk[Ref(w, f, k)], o, data));
  }

  lemma ReadMoves(v: View, w: View, f: nat, k: nat, o: nat, data: seq<Byte>)
    requires Stalled(v, w, f) && k <= v.files[f].blocks && k < w.files[f].blocks && (k < v.files[f].blocks ==> w == v)
    requires Blocks(w, f) == Grown(Blocks(v, f), k) && o + |data| <= BLKSIZE && Charged(v, w, f, k)
    requires data == Blocks(w, f)[k][o..o + |data|]
    ensures Moved(v, w, f, k, o, data, false)
  {
    hide Ok, Ref, Grown;
  }

  // ---- a whole request

  // The blocks hold data at offset.
  ghost predicate Has(bs: seq<Block>, offset: nat, data: seq<Byte>) {
    && (forall k :: 0 <= k < |bs| ==> |bs[k]| == BLKSIZE) && (|data| > 0 ==> offset + |data| <= BLKSIZE * |bs|)
    && forall j :: 0 <= j < |data| ==> data[j] == ByteOf(bs, offset + j)
  }

  // data has been moved between file f, from offset on, and the caller.
  ghost predicate Partial(v: View, w: View, f: nat, offset: nat, data: seq<Byte>, write: bool) {
    && Ok(v) && Ok(w) && f < |v.files| == |w.files| && offset / BLKSIZE <= v.files[f].blocks
    && OthersSame(v, w, f) && SameNames(v, w)
    && Written(Blocks(v, f), Blocks(w, f), offset, if write then data else [])
    && (!write ==>
          && Has(Blocks(w, f), offset, data) && offset + |data| <= v.files[f].size
          && (Mapped(v, f) ==> w == v))
  }

  // No block has been added that does not hold data, and each was free before.
  ghost predicate Tight(v: View, w: View, f: nat, offset: nat, n: nat) {
    && f < |v.files| == |w.files| && Paid(v, w, f)
    && w.files[f].blocks == if n == 0 then v.files[f].blocks else Max(v.files[f].blocks, BlocksFor(offset + n))
  }

  function Max(a: nat, b: nat): nat {
    if a < b then b else a
  }

  lemma PartialStart(v: View, f: nat, offset: nat, write: bool)
    requires Ok(v) && f < |v.files| && offset / BLKSIZE <= v.files[f].blocks && (!write ==> offset <= v.files[f].size)
    ensures Along(v, v, f, offset, [], write)
  {
    hide Blocks, ByteOf;
  }

  lemma PartialNext(v: View, w: View, u: View, f: nat, offset: nat, data: seq<Byte>, k: nat, o: nat, more: seq<Byte>,
                    write: bool)
    requires Partial(v, w, f, offset, data, write) && Moved(w, u, f, k, o, more, write)
    requires BLKSIZE * k + o == offset + |data| && 0 < |more|
    requires write || offset + |data| + |more| <= v.files[f].size
    ensures Partial(v, u, f, offset, data + more, write)
  {
    if write {
      WriteNext(v, w, u, f, offset, data, k, o, more);
    } else {
      ReadNext(v, w, u, f, offset, data, k, o, more);
    }
  }

  lemma WriteNext(v: View, w: View, u: View, f: nat, offset: nat, data: seq<Byte>, k: nat, o: nat, more: seq<Byte>)
    requires Partial(v, w, f, offset, data, true) && Moved(w, u, f, k, o, more, true)
    requires BLKSIZE * k + o == offset + |data|
    ensures Partial(v, u, f, offset, data + more, true)
  {
    hide Ok, Blocks, Written, Patch, Grown;
    WrittenNext(Blocks(v, f), Blocks(w, f), offset, data, k, o, more);
  }

  lemma ReadNext(v: View, w: View, u: View, f: nat, offset: nat, data: seq<Byte>, k: nat, o: nat, more: seq<Byte>)
    requires Partial(v, w, f, offset, data, false) && Moved(w, u, f, k, o, more, false)
    requires BLKSIZE * k + o == offset + |data| && 0 < |more|
    requires offset + |data| + |more| <= v.files[f].size
    ensures Partial(v, u, f, offset, data + more, false)
  {
    hide Ok, Blocks, Written, Grown, Has;
    WrittenGrown(Blocks(v, f), Blocks(w, f), offset, [], k);
    HasNext(Blocks(w, f), offset, data, k, o, more);
  }

  lemma HasGrown(bs: seq<Block>, offset: nat, data: seq<Byte>, k: nat)
    requires Has(bs, offset, data) && k <= |bs|
    ensures Has(Grown(bs, k), offset, data)
  {
    hide ByteOf, Grown;
    forall j | 0 <= j < |data| ensures data[j] == ByteOf(Grown(bs, k), offset + j) {
      GrownByte(bs, k, offset + j);
    }
  }

  lemma HasNext(bs: seq<Block>, offset: nat, data: seq<Byte>, k: nat, o: nat, more: seq<Byte>)
    requires Has(bs, offset, data) && k <= |bs| && o + |more| <= BLKSIZE && BLKSIZE * k + o == offset + |data|
    requires more == Grown(bs, k)[k][o..o + |more|]
    ensures Has(Grown(bs, k), offset, data + more)
  {
    hide Grown;
    HasGrown(bs, offset, data, k);
    var g := Grown(bs, k);
    forall j | 0 <= j < |more| ensures more[j] == ByteOf(g, BLKSIZE * k + o + j) {
      assert (BLKSIZE * k + o + j) / BLKSIZE == k && (BLKSIZE * k + o + j) % BLKSIZE == o + j;
    }
  }

  // An error part of the way keeps what has been moved.
  lemma PartialStalled(v: View, w: View, u: View, f: nat, offset: nat, data: seq<Byte>, write: bool)
    requires Partial(v, w, f, offset, data, write) && Stalled(w, u, f) && (!write && Mapped(v, f) ==> u == w)
    ensures Partial(v, u, f, offset, data, write)
  {
    hide Ok, Blocks, Written, Grown, Has;
    WrittenGrown(Blocks(v, f), Blocks(w, f), offset, if write then data else [], w.files[f].blocks);
    if !write {
      HasGrown(Blocks(w, f), offset, data, w.files[f].blocks);
    }
  }

  lemma TightNext(v: View, w: View, u: View, f: nat, offset: nat, n: nat, k: nat, o: nat, more: seq<Byte>, write: bool)
    requires Tight(v, w, f, offset, n) && Moved(w, u, f, k, o, more, write) && Ok(v)
    requires 0 < |more| && BLKSIZE * k + o == offset + n
    ensures Tight(v, u, f, offset, n + |more|)
  {
    hide Ok, ByteOf, Patch, Paid, Charged;
    MovedBlocks(w, u, f, k, o, more, write);
    PaidNext(v, w, u, f, k);
    assert BlocksFor(BLKSIZE * k + o + |more|) == k + 1;
    assert n > 0 ==> BlocksFor(offset + n) <= k + 1;
  }

  lemma MovedBlocks(w: View, u: View, f: nat, k: nat, o: nat, more: seq<Byte>, write: bool)
    requires Moved(w, u, f, k, o, more, write)
    ensures f < |w.files| == |u.files| && k <= w.files[f].blocks && Ok(w) && Charged(w, u, f, k)
    ensures u.files[f].blocks == Max(w.files[f].blocks, k + 1)
  {
    hide Ok, Patch, Charged;
    assert |Blocks(u, f)| == |Grown(Blocks(w, f), k)|;
  }

  // A request that has moved data so far.
  ghost predicate Along(v: View, w: View, f: nat, offset: nat, data: seq<Byte>, write: bool) {
    && Partial(v, w, f, offset, data, write) && Tight(v, w, f, offset, |data|)
    && if data == [] then w == v else !NoBlockFor(v, f, offset / BLKSIZE)
  }

  // Where a request that moved data has ended.
  ghost predicate Ended(v: View, w: View, f: nat, offset: nat, data: seq<Byte>, write: bool, st: Status,
                        reliable: bool) {
    && Partial(v, w, f, offset, data, write)
    && (st == Done ==> Along(v, w, f, offset, data, write))
    && (st == NoMem ==>
          && Tight(v, w, f, offset, |data|) && NoBlockFor(w, f, (offset + |data|) / BLKSIZE)
          && (!write ==> !Mapped(v, f)))
    && (st == Done || st == NoMem || (st == IoError && !reliable))
    && (data != [] ==> !NoBlockFor(v, f, offset / BLKSIZE))
    && (st == NoMem && data == [] ==> NoBlockFor(v, f, offset / BLKSIZE))
  }

  // One chunk of a request: o bytes into block k.
  method Step(fs: Sfs, ghost v: View, f: nat, ghost offset: nat, buf: seq<Byte>, done: seq<Byte>,
              k: nat, o: nat, n: nat, write: bool)
    returns (st: Status, data: seq<Byte>)
    requires fs.Valid() && Along(v, fs.V(), f, offset, done, write) && f < |v.files|
    requires BLKSIZE * k + o == offset + |done| && 0 < n && o + n <= BLKSIZE && k < NBLOCKS
    requires if write then |done| + n <= |buf| && done == buf[..|done|] else offset + |done| + n <= v.files[f].size
    modifies fs`ops, fs`buffer, fs`disk, fs`files, fs`dirty, fs`unused, fs`superDirty, fs.freemap.words
    ensures fs.Valid() && Ended(v, fs.V(), f, offset, data, write, st, fs.Reliable())
    ensures |data| == (if st == Done then |done| + n else |done|) && (write ==> data == buf[..|data|])
  {
    hide Ok, Moved, Stalled, Partial, NoBlockFor, Tight, Ended, Mapped;
    ghost var w := fs.V();
    RoomFor(v, w, f, offset, done, k, o, n, write);
    var piece := if write then buf[|done|..|done| + n] else [];
    var more;
    st, more := Transfer(fs, f, k, o, n, piece, write);
    data := done;
    if st == Done {
      StepMoved(v, w, fs.V(), f, offset, done, k, o, more, write, fs.Reliable());
      data := done + more;
    } else {
      StepStalled(v, w, fs.V(), f, offset, done, k, write, st, fs.Reliable());
    }
  }

  lemma StepMoved(v: View, w: View, u: View, f: nat, offset: nat, done: seq<Byte>, k: nat, o: nat, more: seq<Byte>,
                  write: bool, reliable: bool)
    requires Along(v, w, f, offset, done, write) && Moved(w, u, f, k, o, more, write) && f < |w.files|
    requires BLKSIZE * k + o == offset + |done| && 0 < |more| && o + |more| <= BLKSIZE && !NoBlockFor(w, f, k)
    requires write || offset + |done| + |more| <= v.files[f].size
    ensures Ended(v, u, f, offset, done + more, write, Done, reliable)
  {
    hide Ok, Blocks, Moved, Written, Has, Paid, NoBlockFor;
    PartialNext(v, w, u, f, offset, done, k, o, more, write);
    TightNext(v, w, u, f, offset, |done|, k, o, more, write);
    assert done == [] ==> k == offset / BLKSIZE;
  }

  lemma StepStalled(v: View, w: View, u: View, f: nat, offset: nat, done: seq<Byte>, k: nat, write: bool, st: Status,
                    reliable: bool)
    requires Along(v, w, f, offset, done, write) && Stalled(w, u, f) && k == (offset + |done|) / BLKSIZE
    requires !write && Mapped(v, f) ==> u == w && st != NoMem
    requires st == NoMem || (st == IoError && !reliable)
    requires st == NoMem ==>
               u.files == w.files && |u.free| == |w.free| && NoBlockFor(w, f, k) && NoBlockFor(u, f, k)
    ensures Ended(v, u, f, offset, done, write, st, reliable)
  {
    PartialStalled(v, w, u, f, offset, done, write);
    hide Ok, Blocks, Partial, Stalled, NoBlockFor;
  }

  lemma RoomFor(v: View, w: View, f: nat, offset: nat, done: seq<Byte>, k: nat, o: nat, n: nat, write: bool)
    requires Partial(v, w, f, offset, done, write) && Tight(v, w, f, offset, |done|)
    requires BLKSIZE * k + o == offset + |done| && 0 < n && o + n <= BLKSIZE
    requires !write ==> offset + |done| + n <= v.files[f].size
    ensures f < |w.files| && k <= w.files[f].blocks && (!write && Mapped(v, f) ==> k < w.files[f].blocks)
    ensures k == (offset + |done|) / BLKSIZE
  {
    hide Ok, Blocks, ByteOf;
  }

  // The whole blocks of a request.
  method MoveWhole(fs: Sfs, ghost v: View, f: nat, ghost offset: nat, buf: seq<Byte>, done: seq<Byte>,
                   blkno: nat, nblks: nat, write: bool)
    returns (st: Status, data: seq<Byte>)
    requires fs.Valid() && Along(v, fs.V(), f, offset, done, write) && f < |v.files|
    requires offset + |done| == BLKSIZE * blkno && blkno + nblks <= NBLOCKS
    requires if write then |done| + BLKSIZE * nblks <= |buf| && done == buf[..|done|]
             else BLKSIZE * (blkno + nblks) <= v.files[f].size
    modifies fs`ops, fs`buffer, fs`disk, fs`files, fs`dirty, fs`unused, fs`superDirty, fs.freemap.words
    ensures fs.Valid() && Ended(v, fs.V(), f, offset, data, write, st, fs.Reliable())
    ensures |data| <= |done| + BLKSIZE * nblks && (st == Done <==> |data| == |done| + BLKSIZE * nblks)
    ensures write ==> |data| <= |buf| && data == buf[..|data|]
  {
    hide Ok, Partial, Along;
    AlongIsDone(v, fs.V(), f, offset, done, write, fs.Reliable());
    st, data := Done, done;
    var left := nblks;
    while left != 0
      invariant 0 <= left <= nblks && |data| == |done| + BLKSIZE * (nblks - left)
      invariant fs.Valid() && Ended(v, fs.V(), f, offset, data, write, st, fs.Reliable()) && st == Done
      invariant write ==> data == buf[..|data|]
    {
      st, data := Step(fs, v, f, offset, buf, data, blkno + nblks - left, 0, BLKSIZE, write);
      if st != Done {
        return;
      }
      left := left - 1;
    }
  }

  lemma AlongIsDone(v: View, w: View, f: nat, offset: nat, data: seq<Byte>, write: bool, reliable: bool)
    requires Along(v, w, f, offset, data, write)
    ensures Ended(v, w, f, offset, data, write, Done, reliable)
  {
    hide Ok, Blocks, ByteOf;
  }

  // The whole blocks and the tail.
  method MoveRest(fs: Sfs, ghost v: View, f: nat, ghost offset: nat, buf: seq<Byte>, done: seq<Byte>,
                  blkno: nat, nblks: nat, tail: nat, write: bool)
    returns (st: Status, data: seq<Byte>)
    requires fs.Valid() && Along(v, fs.V(), f, offset, done, write) && f < |v.files|
    requires offset + |done| == BLKSIZE * blkno && tail < BLKSIZE
    requires BLKSIZE * (blkno + nblks) + tail <= BLKSIZE * NBLOCKS
    requires if write then |done| + BLKSIZE * nblks + tail <= |buf| && done == buf[..|done|]
             else BLKSIZE * (blkno + nblks) + tail <= v.files[f].size
    modifies fs`ops, fs`buffer, fs`disk, fs`files, fs`dirty, fs`unused, fs`superDirty, fs.freemap.words
    ensures fs.Valid() && Ended(v, fs.V(), f, offset, data, write, st, fs.Reliable())
    ensures var all := |done| + BLKSIZE * nblks + tail; |data| <= all && (st == Done <==> |data| == all)
    ensures write ==> |data| <= |buf| && data == buf[..|data|]
  {
    hide Ok, Partial, Along;
    st, data := MoveWhole(fs, v, f, offset, buf, done, blkno, nblks, write);
    if st == Done && tail != 0 {
      st, data := Step(fs, v, f, offset, buf, data, blkno + nblks, 0, tail, write);
    }
  }

  // The head, the whole blocks and the tail of a request.
  method Move(fs: Sfs, ghost v: View, f: nat, buf: seq<Byte>, offset: nat, endpos: nat, write: bool)
    returns (st: Status, data: seq<Byte>)
    requires fs.Valid() && v == fs.V() && f < |v.files| && offset < endpos <= BLKSIZE * NBLOCKS
    requires offset / BLKSIZE <= v.files[f].blocks
    requires if write then endpos - offset <= |buf| else endpos <= v.files[f].size
    modifies fs`ops, fs`buffer, fs`disk, fs`files, fs`dirty, fs`unused, fs`superDirty, fs.freemap.words
    ensures fs.Valid() && Ended(v, fs.V(), f, offset, data, write, st, fs.Reliable())
    ensures |data| <= endpos - offset && (st == Done <==> |data| == endpos - offset)
    ensures write ==> data == buf[..|data|]
  {
    hide Ok, Partial, Along, Ended;
    PartialStart(v, f, offset, write);
    st, data := Done, [];
    var blkno := offset / BLKSIZE;
    var nblks := endpos / BLKSIZE - blkno;
    if offset % BLKSIZE != 0 {
      var size := if nblks != 0 then BLKSIZE - offset % BLKSIZE else endpos - offset;
      st, data := Step(fs, v, f, offset, buf, data, blkno, offset % BLKSIZE, size, write);
      if st != Done || nblks == 0 {
        return;
      }
      EndedAlong(v, fs.V(), f, offset, data, write, fs.Reliable());
      blkno, nblks := blkno + 1, nblks - 1;
    }
    st, data := MoveRest(fs, v, f, offset, buf, data, blkno, nblks, endpos % BLKSIZE, write);
  }

  lemma EndedAlong(v: View, w: View, f: nat, offset: nat, data: seq<Byte>, write: bool, reliable: bool)
    requires Ended(v, w, f, offset, data, write, Done, reliable)
    ensures Along(v, w, f, offset, data, write)
  {}

  // ---- reading and writing

  // off_t is 32 bits wide and signed.
  function EndPos(offset: int, len: nat): (end: int)
    ensures -0x8000_0000 <= end < 0x8000_0000
    ensures -0x8000_0000 <= offset + len < 0x8000_0000 ==> end == offset + len
    ensures (end - offset - len) % 0x1_0000_0000 == 0
  {
    var s := (offset + len) % 0x1_0000_0000;
    if s >= 0x8000_0000 then s - 0x1_0000_0000 else s
  }

  predicate BadRange(offset: int, len: nat) {
    offset < 0 || offset >= MAX_FILE_SIZE || offset > EndPos(offset, len)
  }

  function Min(a: int, b: int): int {
    if a < b then a else b
  }

  // Where a good request ends.
  function Clipped(n: Inode, offset: nat, len: nat, write: bool): nat
    requires !BadRange(offset, len)
  {
    var end := Min(EndPos(offset, len), MAX_FILE_SIZE);
    if write then end else Max(offset, Min(end, n.size))
  }

  // A request that begins within reach of the blocks ends below the limit of the block map.
  predicate InReach(n: Inode, offset: int, len: nat, write: bool) {
    !BadRange(offset, len) && Clipped(n, offset, len, write) > offset && offset / BLKSIZE <= n.blocks ==>
      Clipped(n, offset, len, write) <= BLKSIZE * NBLOCKS
  }

  // Every other file has the same size and holds the same bytes.
  ghost predicate OtherContents(v: View, w: View, f: nat) {
    && Ok(v) && Ok(w) && |w.files| == |v.files|
    && forall g :: 0 <= g < |v.files| && g != f ==>
         w.files[g].size == v.files[g].size && w.files[g].blocks == v.files[g].blocks && Space(w, g) == Space(v, g)
  }

  lemma OthersKeepContents(v: View, w: View, f: nat)
    requires Ok(v) && Ok(w) && OthersSame(v, w, f) && SameNames(v, w)
    ensures OtherContents(v, w, f)
  {
    hide Ok, Blocks, Space;
    forall g | 0 <= g < |v.files| && g != f
      ensures w.files[g].size == v.files[g].size && w.files[g].blocks == v.files[g].blocks && Space(w, g) == Space(v, g)
    {
      SameSpace(v, w, g);
    }
  }

  lemma SameSpace(v: View, w: View, g: nat)
    requires Ok(v) && Ok(w) && g < |v.files| && g < |w.files| && Blocks(w, g) == Blocks(v, g)
    ensures w.files[g].blocks == v.files[g].blocks && Space(w, g) == Space(v, g)
  {
    hide Ok, ByteOf;
    assert |Blocks(w, g)| == |Blocks(v, g)|;
  }

  lemma SetSize(w: View, f: nat, size: nat)
    requires Ok(w) && f < |w.files|
    ensures var x := WithInode(w, f, w.files[f].(size := size)); Ok(x) && SameBlocks(w, x) && Shape(x)
  {
    var x := WithInode(w, f, w.files[f].(size := size));
    assert forall g, k :: 0 <= g < |w.files| && 0 <= k < NSLOTS ==> Ref(x, g, k) == Ref(w, g, k);
  }

  // A new size alone changes the bytes of no other file.
  lemma SetSizeOthers(v: View, w: View, f: nat, size: nat)
    requires Ok(v) && Ok(w) && f < |w.files| && OtherContents(v, w, f)
    ensures var x := WithInode(w, f, w.files[f].(size := size)); Ok(x) && OtherContents(v, x, f)
  {
    hide Ok, Blocks, ByteOf;
    SetSize(w, f, size);
  }

  // The bytes after a write.
  lemma WriteDone(v: View, w: View, f: nat, offset: nat, data: seq<Byte>)
    requires Partial(v, w, f, offset, data, true)
    ensures f < |w.files|
    ensures var x := WithInode(w, f, w.files[f].(size := Max(v.files[f].size, offset + |data|)));
            && Ok(x) && Shape(x) && OtherContents(v, x, f) && Space(x, f) == Space(w, f)
            && (Mapped(v, f) && Mapped(x, f) ==> Content(x, f) == Overwrite(Room(v, f, offset), offset, data))
  {
    hide Ok, Blocks, ByteOf;
    var x := WithInode(w, f, w.files[f].(size := Max(v.files[f].size, offset + |data|)));
    SetSize(w, f, x.files[f].size);
    OthersKeepContents(v, w, f);
    SetSizeOthers(v, w, f, x.files[f].size);
    assert Blocks(x, f) == Blocks(w, f);
    if Mapped(v, f) && Mapped(x, f) {
      assert Content(x, f) == Overwrite(Room(v, f, offset), offset, data);
    }
  }

  // The state once the size has been brought up to date.
  function Sized(w: View, f: nat, end: nat): View
    requires f < |w.files|
  {
    if end > w.files[f].size then WithInode(w, f, w.files[f].(size := end)) else w
  }

  // The bytes at offset have been written to file f, or read from it; blocks added on the way are zero elsewhere.  A
  // write past the end that fails at once moves the end all the same.
  ghost predicate Finished(v: View, w: View, f: nat, offset: nat, data: seq<Byte>, write: bool) {
    && OtherContents(v, w, f) && f < |v.files|
    && Laid(Space(v, f), Space(w, f), offset, if write then data else [])
    && w.files[f].size == (if write then Max(v.files[f].size, offset + |data|) else v.files[f].size)
    && (write && Mapped(v, f) ==>
          && (|data| > 0 || offset <= BLKSIZE * v.files[f].blocks ==> Mapped(w, f))
          && (Mapped(w, f) ==> Content(w, f) == Overwrite(Room(v, f, offset), offset, data)))
    && (!write ==>
          && (|data| > 0 ==> offset + |data| <= |Space(w, f)| && data == Space(w, f)[offset..offset + |data|])
          && offset + |data| <= v.files[f].size && (Mapped(v, f) ==> w == v))
  }

  lemma Finish(v: View, w: View, f: nat, offset: nat, data: seq<Byte>, write: bool)
    requires Partial(v, w, f, offset, data, write)
    ensures f < |w.files| == |v.files|
    ensures var x := Sized(w, f, offset + |data|);
            && Ok(x) && Shape(x) && Finished(v, x, f, offset, data, write)
            && (Tight(v, w, f, offset, |data|) ==> Landed(v, x, f, offset, data, write, Done))
            && Landed(v, x, f, offset, data, write, IoError)
  {
    hide Ok, Blocks, ByteOf, Has;
    WrittenSpace(v, w, f, offset, if write then data else []);
    assert w.files[f].size == v.files[f].size;
    if write {
      WriteDone(v, w, f, offset, data);
      assert w == WithInode(w, f, w.files[f].(size := w.files[f].size));
    } else {
      OthersKeepContents(v, w, f);
      OkShape(w);
      if |data| > 0 {
        HasSpace(w, f, offset, data);
      }
    }
  }

  lemma HasSpace(w: View, f: nat, offset: nat, data: seq<Byte>)
    requires Ok(w) && f < |w.files| && Has(Blocks(w, f), offset, data) && |data| > 0
    ensures offset + |data| <= |Space(w, f)| && data == Space(w, f)[offset..offset + |data|]
  {
    hide Ok, Blocks, ByteOf;
  }

  lemma OkShape(v: View)
    requires Ok(v)
    ensures Shape(v) && forall f :: 0 <= f < |v.files| ==> v.files[f].blocks <= NBLOCKS
  {}

  // Moves the bytes and brings the size up to date.
  method Perform(fs: Sfs, f: nat, buf: seq<Byte>, offset: nat, endpos: nat, write: bool)
    returns (st: Status, data: seq<Byte>)
    requires fs.Valid() && f < |fs.files| && offset < endpos <= BLKSIZE * NBLOCKS
    requires offset / BLKSIZE <= fs.files[f].blocks
    requires if write then endpos - offset <= |buf| else endpos <= fs.files[f].size
    modifies fs`ops, fs`buffer, fs`disk, fs`files, fs`dirty, fs`unused, fs`superDirty, fs.freemap.words
    ensures fs.Valid() && (st == Done || st == NoMem || (st == IoError && !fs.Reliable()))
    ensures |data| <= endpos - offset && (st == Done <==> |data| == endpos - offset)
    ensures write ==> data == buf[..|data|]
    ensures data != [] ==> !NoBlockFor(old(fs.V()), f, offset / BLKSIZE)
    ensures st == NoMem && data == [] ==> NoBlockFor(old(fs.V()), f, offset / BLKSIZE)
    ensures f < |fs.files| && Landed(old(fs.V()), fs.V(), f, offset, data, write, st)
    ensures st == NoMem ==>
              NoBlockFor(fs.V(), f, (offset + |data|) / BLKSIZE) && (!write ==> !Mapped(old(fs.V()), f))
  {
    hide Ok, Partial, Tight, Finished, Shape, Exact, NoBlockFor, Mapped, Bitmap.Valid, Bitmap.Free;
    ghost var v := fs.V();
    st, data := Move(fs, v, f, buf, offset, endpos, write);
    Finish(v, fs.V(), f, offset, data, write);
    SizedBlocks(fs.V(), f, offset + |data|, (offset + |data|) / BLKSIZE);
    UpdateSize(fs, f, offset + |data|);
  }

  lemma SizedBlocks(w: View, f: nat, end: nat, k: nat)
    requires f < |w.files|
    ensures NoBlockFor(Sized(w, f, end), f, k) <==> NoBlockFor(w, f, k)
  {}

  method UpdateSize(fs: Sfs, f: nat, end: nat)
    requires fs.Valid() && f < |fs.files| && Ok(Sized(fs.V(), f, end)) && Shape(Sized(fs.V(), f, end))
    modifies fs`files, fs`dirty
    ensures fs.Valid() && fs.V() == Sized(old(fs.V()), f, end) && |fs.files| == old(|fs.files|)
  {
    hide Ok, Shape;
    if end > fs.files[f].size {
      fs.files := fs.files[f := fs.files[f].(size := end)];
      fs.dirty := fs.dirty + {f};
    }
  }

  // A request for bytes past the block behind the last one: sfs_bmap_load_nolock's assertion fires.
  predicate TooFar(n: Inode, offset: int, len: nat, write: bool) {
    !BadRange(offset, len) && Clipped(n, offset, len, write) > offset && offset / BLKSIZE > n.blocks
  }

  // A request that finds no block for its first byte.
  predicate Blocked(v: View, f: nat, offset: int, len: nat, write: bool)
    requires f < |v.files|
  {
    !BadRange(offset, len) && Clipped(v.files[f], offset, len, write) > offset && NoBlockFor(v, f, offset / BLKSIZE)
  }

  // The free blocks suffice for what a request needs beyond the blocks of its file.
  predicate Enough(v: View, f: nat, offset: nat, len: nat, write: bool)
    requires f < |v.files| && !BadRange(offset, len)
  {
    var end := Clipped(v.files[f], offset, len, write);
    end == offset || |v.free| >= Need(v.files[f], BlocksFor(end))
  }

  // A request has moved n bytes: all of them if the blocks suffice, and not if it ran out of blocks.
  lemma EnoughExactly(v: View, w: View, f: nat, offset: nat, n: nat, end: nat)
    requires Ok(v) && Ok(w) && Tight(v, w, f, offset, n) && offset < end && offset + n <= end
    ensures offset + n == end ==> |v.free| >= Need(v.files[f], BlocksFor(end))
    ensures offset + n < end && NoBlockFor(w, f, (offset + n) / BLKSIZE) ==> |v.free| < Need(v.files[f], BlocksFor(end))
  {
    NextNeed(v, w, f);
    hide Ok;
  }

  // What a request leaves: bytes in place or delivered, in no more blocks than they need unless the device failed.  A
  // failed write that begins past the end moves the end to its own start, which may lie beyond the blocks.  A read
  // of bytes that the size promises and the blocks do not hold adds the blocks; any other read changes nothing.
  ghost predicate Outcome(v: View, w: View, f: nat, offset: int, len: nat, write: bool, st: Status, data: seq<Byte>,
                          reliable: bool) {
    && OtherContents(v, w, f) && f < |v.files|
    && (st == Invalid <==> BadRange(offset, len)) && (st == Panic <==> TooFar(v.files[f], offset, len, write))
    && (st == Done || st == Invalid || st == Panic || st == NoMem || (st == IoError && !reliable))
    && (st == Done ==> |data| == Clipped(v.files[f], offset, len, write) - offset)
    && (reliable && st != Invalid && st != Panic ==> (st == Done <==> Enough(v, f, offset, len, write)))
    && (st != Invalid ==> |data| <= Clipped(v.files[f], offset, len, write) - offset)
    && (st == Invalid || st == Panic || (st == Done && data == []) ==> w == v && data == [])
    && (st == NoMem && data == [] ==> Blocked(v, f, offset, len, write))
    && (reliable ==> (st == NoMem && data == [] <==> Blocked(v, f, offset, len, write)))
    && (data != [] || st == NoMem || st == IoError ==> 0 <= offset && Landed(v, w, f, offset, data, write, st))
    && (st == NoMem ==> NoBlockFor(w, f, (offset + |data|) / BLKSIZE) && (!write ==> !Mapped(v, f)))
  }

  ghost predicate Landed(v: View, w: View, f: nat, offset: nat, data: seq<Byte>, write: bool, st: Status) {
    && Finished(v, w, f, offset, data, write) && (st != IoError ==> Tight(v, w, f, offset, |data|))
    && (write && Exact(v.files[f]) && st != IoError ==>
          (Exact(w.files[f]) <==> |data| > 0 || offset <= BLKSIZE * v.files[f].blocks))
  }

  // A request that is refused, empty or out of reach.
  lemma NoRequest(v: View, f: nat, offset: int, len: nat, write: bool, st: Status, reliable: bool)
    requires Ok(v) && f < |v.files|
    requires if BadRange(offset, len) then st == Invalid
             else if Clipped(v.files[f], offset, len, write) == offset then st == Done
             else TooFar(v.files[f], offset, len, write) && st == Panic
    ensures Outcome(v, v, f, offset, len, write, st, [], reliable)
  {
    hide Ok, Space, Finished, EndPos;
    OthersKeepContents(v, v, f);
  }

  // A request that began.
  lemma RequestEnds(v: View, w: View, f: nat, offset: nat, len: nat, write: bool, st: Status, data: seq<Byte>,
                    reliable: bool)
    requires !BadRange(offset, len) && f < |v.files| && Clipped(v.files[f], offset, len, write) > offset
    requires !TooFar(v.files[f], offset, len, write) && Landed(v, w, f, offset, data, write, st)
    requires st == Done || st == NoMem || (st == IoError && !reliable)
    requires |data| <= Clipped(v.files[f], offset, len, write) - offset
    requires st == Done <==> |data| == Clipped(v.files[f], offset, len, write) - offset
    requires data != [] ==> !NoBlockFor(v, f, offset / BLKSIZE)
    requires st == NoMem && data == [] ==> NoBlockFor(v, f, offset / BLKSIZE)
    requires st == NoMem ==> NoBlockFor(w, f, (offset + |data|) / BLKSIZE) && (!write ==> !Mapped(v, f))
    ensures Outcome(v, w, f, offset, len, write, st, data, reliable)
  {
    hide Ok, Space, Content, Room, Laid, Tight, Exact, EndPos, NoBlockFor, Need, BlocksFor;
    if st != IoError {
      EnoughExactly(v, w, f, offset, |data|, Clipped(v.files[f], offset, len, write));
    }
  }

  // sfs_io_nolock
  method Io(fs: Sfs, f: nat, buf: seq<Byte>, offset: int, len: nat, write: bool)
    returns (st: Status, alen: nat, data: seq<Byte>)
    requires fs.Valid() && f < |fs.files| && offset < 0x8000_0000 && (write ==> len <= |buf|)
    requires InReach(fs.files[f], offset, len, write)
    modifies fs`ops, fs`buffer, fs`disk, fs`files, fs`dirty, fs`unused, fs`superDirty, fs.freemap.words
    ensures fs.Valid() && f < |fs.files| && alen == |data| && (write ==> alen <= |buf| && data == buf[..alen])
    ensures Outcome(old(fs.V()), fs.V(), f, offset, len, write, st, data, fs.Reliable())
  {
    hide Ok, Outcome, Landed, Shape, NoBlockFor, Mapped;
    ghost var v := fs.V();
    OkShape(v);
    alen, data := 0, [];
    var endpos := EndPos(offset, len);
    if offset < 0 || offset >= MAX_FILE_SIZE || offset > endpos {
      NoRequest(v, f, offset, len, write, Invalid, fs.Reliable());
      return Invalid, alen, data;
    }
    if offset == endpos {
      NoRequest(v, f, offset, len, write, Done, fs.Reliable());
      return Done, alen, data;
    }
    if endpos > MAX_FILE_SIZE {
      endpos := MAX_FILE_SIZE;
    }
    if !write {
      if offset >= fs.files[f].size {
        NoRequest(v, f, offset, len, write, Done, fs.Reliable());
        return Done, alen, data;
      }
      if endpos > fs.files[f].size {
        endpos := fs.files[f].size;
      }
    }
    if offset / BLKSIZE > fs.files[f].blocks {
      // the assertion of sfs_bmap_load_nolock
      NoRequest(v, f, offset, len, write, Panic, fs.Reliable());
      return Panic, alen, data;
    }
    st, data := Perform(fs, f, buf, offset, endpos, write);
    alen := |data|;
    RequestEnds(v, fs.V(), f, offset, len, write, st, data, fs.Reliable());
  }

  // ---- truncation

  // File f has its old blocks and then zero blocks, t in all.
  ghost predicate GrownTo(v: View, w: View, f: nat, t: nat) {
    && Ok(v) && Ok(w) && f < |v.files| && |w.files| == |v.files| && OthersSame(v, w, f) && SameNames(v, w)
    && w.files[f].blocks == t >= v.files[f].blocks && Blocks(w, f)[..v.files[f].blocks] == Blocks(v, f)
    && (forall k :: v.files[f].blocks <= k < t ==> Blocks(w, f)[k] == ZeroBlock())
    && Paid(v, w, f)
  }

  lemma GrownStart(v: View, f: nat)
    requires Ok(v) && f < |v.files|
    ensures GrownTo(v, v, f, v.files[f].blocks)
  {
    hide Ok, ZeroBlock;
  }

  lemma GrownNext(v: View, w: View, u: View, f: nat, t: nat)
    requires GrownTo(v, w, f, t) && Grew(w, u, f)
    ensures GrownTo(v, u, f, t + 1)
  {
    NextNeed(v, w, f);
    hide Ok, ZeroBlock, Cost, Need;
  }

  // The growing loop; it stops exactly when the free blocks run out.
  method Extend(fs: Sfs, f: nat, tblks: nat) returns (st: Status)
    requires fs.Valid() && f < |fs.files| && fs.files[f].blocks <= tblks <= NBLOCKS
    modifies fs`ops, fs`buffer, fs`disk, fs`files, fs`dirty, fs`unused, fs`superDirty, fs.freemap.words
    ensures fs.Valid() && f < |fs.files| && (st == Done || st == NoMem || (st == IoError && !fs.Reliable()))
    ensures st == IoError || GrownTo(old(fs.V()), fs.V(), f, fs.files[f].blocks)
    ensures st == IoError ==> SameNames(old(fs.V()), fs.V()) && OthersSame(old(fs.V()), fs.V(), f)
                              && fs.files[f].blocks >= old(fs.files[f].blocks)
                              && Blocks(fs.V(), f)[..old(fs.files[f].blocks)] == old(Blocks(fs.V(), f))
    ensures st == Done ==> fs.files[f].blocks == tblks
    ensures st == NoMem ==>
              fs.files[f].blocks < tblks && old(fs.unused) < Need(old(fs.files[f]), fs.files[f].blocks + 1)
  {
    hide Ok, Blocks, Kept, Grew, GrownTo, Need, ZeroBlock, Cost, Shape;
    ghost var v := fs.V();
    var nblks := fs.files[f].blocks;
    GrownStart(v, f);
    st := Done;
    while nblks != tblks
      invariant nblks <= tblks && fs.Valid() && f < |fs.files| && fs.files[f].blocks == nblks
      invariant GrownTo(v, fs.V(), f, nblks)
      invariant st == Done
      decreases tblks - nblks
    {
      ghost var w := fs.V();
      var ino;
      st, ino := fs.BmapLoad(f, nblks);
      if st != Done {
        GrowStops(v, w, fs.V(), f, nblks);
        return;
      }
      GrownNext(v, w, fs.V(), f, nblks);
      GrownCount(v, fs.V(), f, nblks + 1);
      nblks := nblks + 1;
    }
  }

  lemma GrownCount(v: View, w: View, f: nat, t: nat)
    requires GrownTo(v, w, f, t)
    ensures f < |w.files| == |v.files| && w.files[f].blocks == t && |w.free| == |v.free| - Need(v.files[f], t)
  {}

  lemma GrowStops(v: View, w: View, u: View, f: nat, t: nat)
    requires GrownTo(v, w, f, t) && Kept(w, u)
    ensures f < |u.files| && u.files[f].blocks == t && SameNames(v, u) && OthersSame(v, u, f) && Ok(u) && Ok(v)
    ensures t >= v.files[f].blocks && Blocks(u, f)[..v.files[f].blocks] == Blocks(v, f)
    ensures |u.free| == |w.free| ==> GrownTo(v, u, f, t)
    ensures |w.free| == |v.free| - Need(v.files[f], t)
    ensures Cost(w.files[f]) == Need(v.files[f], t + 1) - Need(v.files[f], t)
  {
    NextNeed(v, w, f);
    hide Ok, ZeroBlock, Cost, Need;
  }

  ghost predicate ShrunkTo(v: View, w: View, f: nat, t: nat) {
    && Ok(v) && Ok(w) && f < |v.files| && |w.files| == |v.files| && OthersSame(v, w, f) && SameNames(v, w)
    && w.files[f].blocks == t <= v.files[f].blocks && Blocks(w, f) == Blocks(v, f)[..t]
    && |w.free| == |v.free| + v.files[f].blocks - t && w.files[f].indirect == v.files[f].indirect
  }

  lemma ShrunkNext(v: View, w: View, u: View, f: nat, t: nat)
    requires ShrunkTo(v, w, f, t) && Shrank(w, u, f)
    ensures ShrunkTo(v, u, f, t - 1)
  {
    hide Ok;
  }

  method Cut(fs: Sfs, f: nat, tblks: nat) returns (st: Status)
    requires fs.Valid() && f < |fs.files| && tblks <= fs.files[f].blocks
    modifies fs`ops, fs`buffer, fs`disk, fs`files, fs`dirty, fs`unused, fs`superDirty, fs.freemap.words
    ensures fs.Valid() && f < |fs.files| && (st == Done || (st == IoError && !fs.Reliable()))
    ensures ShrunkTo(old(fs.V()), fs.V(), f, fs.files[f].blocks) && (st == Done ==> fs.files[f].blocks == tblks)
  {
    hide Ok, Blocks, Shrank, ShrunkTo, Shape;
    ghost var v := fs.V();
    var nblks := fs.files[f].blocks;
    st := Done;
    ShrunkStart(v, f);
    while tblks != nblks
      invariant tblks <= nblks && fs.Valid() && f < |fs.files| && fs.files[f].blocks == nblks
      invariant ShrunkTo(v, fs.V(), f, nblks)
      invariant st == Done
      decreases nblks
    {
      ghost var w := fs.V();
      st := fs.BmapTruncate(f);
      if st != Done {
        return;
      }
      ShrunkNext(v, w, fs.V(), f, nblks);
      ShrunkCount(v, fs.V(), f, nblks - 1);
      nblks := nblks - 1;
    }
  }

  lemma ShrunkStart(v: View, f: nat)
    requires Ok(v) && f < |v.files|
    ensures ShrunkTo(v, v, f, v.files[f].blocks)
  {}

  lemma ShrunkCount(v: View, w: View, f: nat, t: nat)
    requires ShrunkTo(v, w, f, t)
    ensures f < |w.files| && w.files[f].blocks == t
  {}

  // w has the blocks of v as far as both go, and the other files are untouched.
  ghost predicate Resized(v: View, w: View, f: nat) {
    && Ok(v) && Ok(w) && f < |v.files| && |w.files| == |v.files| && OthersSame(v, w, f) && SameNames(v, w)
    && forall k :: 0 <= k < v.files[f].blocks && k < w.files[f].blocks ==> Blocks(w, f)[k] == Blocks(v, f)[k]
  }

  // The blocks that w has and v has not are zero.
  ghost predicate ZeroBeyond(v: View, w: View, f: nat) {
    && Ok(w) && f < |v.files| && f < |w.files|
    && forall k :: v.files[f].blocks <= k < w.files[f].blocks ==> Blocks(w, f)[k] == ZeroBlock()
  }

  // The free blocks left once a file has t blocks.
  function Balance(n: Inode, t: nat, unused: nat): int {
    if t <= n.blocks then unused + (n.blocks - t) else unused - Need(n, t)
  }

  // What Resize promises.
  ghost predicate ResizeOutcome(v: View, w: View, f: nat, t: nat, st: Status, reliable: bool) {
    && Resized(v, w, f) && (st == Done || st == NoMem || (st == IoError && !reliable))
    && (st == Done ==>
          && w.files[f].blocks == t && ZeroBeyond(v, w, f) && |v.free| >= Need(v.files[f], t)
          && |w.free| == Balance(v.files[f], t, |v.free|)
          && (t <= v.files[f].blocks ==> w.files[f].indirect == v.files[f].indirect))
    && (v.files[f].blocks <= t ==> w.files[f].blocks >= v.files[f].blocks)
    && (st == NoMem ==>
          && v.files[f].blocks < t && ZeroBeyond(v, w, f) && |v.free| < Need(v.files[f], t)
          && (w.files[f].blocks == v.files[f].blocks <==> |v.free| < Cost(v.files[f])))
  }

  // Both loops at once.
  method Resize(fs: Sfs, f: nat, tblks: nat) returns (st: Status)
    requires fs.Valid() && f < |fs.files| && tblks <= NBLOCKS
    modifies fs`ops, fs`buffer, fs`disk, fs`files, fs`dirty, fs`unused, fs`superDirty, fs.freemap.words
    ensures fs.Valid() && f < |fs.files| && ResizeOutcome(old(fs.V()), fs.V(), f, tblks, st, fs.Reliable())
  {
    hide Ok, Blocks, GrownTo, ShrunkTo, Resized, ZeroBeyond, Shape;
    ghost var v := fs.V();
    st := Done;
    if fs.files[f].blocks < tblks {
      st := Extend(fs, f, tblks);
      if st == IoError {
        ResizedByError(v, fs.V(), f);
      } else {
        ResizedByGrowth(v, fs.V(), f);
      }
    } else if tblks < fs.files[f].blocks {
      st := Cut(fs, f, tblks);
      ResizedByCut(v, fs.V(), f);
    } else {
      ShrunkStart(v, f);
      ResizedByCut(v, v, f);
    }
  }

  lemma ResizedByGrowth(v: View, w: View, f: nat)
    requires f < |w.files| && GrownTo(v, w, f, w.files[f].blocks)
    ensures Resized(v, w, f) && ZeroBeyond(v, w, f) && |w.free| == |v.free| - Need(v.files[f], w.files[f].blocks)
  {
    hide Ok;
    forall k | 0 <= k < v.files[f].blocks && k < w.files[f].blocks ensures Blocks(w, f)[k] == Blocks(v, f)[k] {
      assert Blocks(w, f)[..v.files[f].blocks][k] == Blocks(v, f)[k];
    }
  }

  lemma ResizedByError(v: View, w: View, f: nat)
    requires Ok(v) && Ok(w) && f < |v.files| && SameNames(v, w) && OthersSame(v, w, f)
    requires w.files[f].blocks >= v.files[f].blocks && Blocks(w, f)[..v.files[f].blocks] == Blocks(v, f)
    ensures Resized(v, w, f)
  {
    hide Ok;
    forall k | 0 <= k < v.files[f].blocks && k < w.files[f].blocks ensures Blocks(w, f)[k] == Blocks(v, f)[k] {
      assert Blocks(w, f)[..v.files[f].blocks][k] == Blocks(v, f)[k];
    }
  }

  lemma ResizedByCut(v: View, w: View, f: nat)
    requires f < |w.files| && ShrunkTo(v, w, f, w.files[f].blocks)
    ensures Resized(v, w, f) && ZeroBeyond(v, w, f)
    ensures |w.free| == |v.free| + v.files[f].blocks - w.files[f].blocks && w.files[f].indirect == v.files[f].indirect
  {
    hide Ok;
  }

  lemma ResizedSpace(v: View, w: View, f: nat)
    requires Resized(v, w, f)
    ensures Agree(Space(v, f), Space(w, f)) && (ZeroBeyond(v, w, f) ==> Fitted(Space(v, f), Space(w, f)))
  {
    hide Ok, Blocks, Content;
    forall i | 0 <= i < |Space(v, f)| && i < |Space(w, f)| ensures Space(w, f)[i] == Space(v, f)[i] {
      assert i / BLKSIZE < v.files[f].blocks && i / BLKSIZE < w.files[f].blocks;
    }
    if ZeroBeyond(v, w, f) {
      forall i | |Space(v, f)| <= i < |Space(w, f)| ensures Space(w, f)[i] == 0 {
        assert Blocks(w, f)[i / BLKSIZE] == ZeroBlock();
      }
    }
  }

  // Enough free blocks to begin growing to t blocks, but not to finish.
  predicate Partway(n: Inode, t: nat, unused: nat) {
    Cost(n) <= unused < Need(n, t)
  }

  // What a truncation that did not set the size has done.
  lemma ResizedOnly(v: View, w: View, f: nat)
    requires Resized(v, w, f)
    ensures f < |w.files| && OtherContents(v, w, f) && w.files[f].size == v.files[f].size
    ensures w.files[f].ino == v.files[f].ino && Agree(Space(v, f), Space(w, f))
    ensures ZeroBeyond(v, w, f) ==> Fitted(Space(v, f), Space(w, f))
    ensures Mapped(v, f) && w.files[f].blocks >= v.files[f].blocks ==> Mapped(w, f)
    ensures Mapped(v, f) && Mapped(w, f) ==> Content(w, f) == Content(v, f)
  {
    OthersKeepContents(v, w, f);
    ResizedSpace(v, w, f);
    hide Ok, Blocks, Content, Space;
  }

  lemma ResizedAndSized(v: View, w: View, f: nat, len: nat)
    requires Resized(v, w, f) && ZeroBeyond(v, w, f) && w.files[f].blocks == BlocksFor(len)
    ensures var x := WithInode(w, f, w.files[f].(size := len));
            && Ok(x) && Shape(x) && OtherContents(v, x, f) && Exact(x.files[f]) && Mapped(x, f)
            && Fitted(Space(v, f), Space(x, f))
  {
    hide Content, Ok, Blocks, ByteOf;
    OthersKeepContents(v, w, f);
    SetSize(w, f, len);
    SetSizeOthers(v, w, f, len);
    ResizedSpace(v, w, f);
    assert Space(WithInode(w, f, w.files[f].(size := len)), f) == Space(w, f);
  }

  // A completed truncation.
  ghost predicate TruncDone(v: View, w: View, f: nat, len: nat) {
    && Ok(v) && Ok(w) && f < |v.files| == |w.files|
    && w.files[f].size == len && Exact(w.files[f]) && Mapped(w, f) && Fitted(Space(v, f), Space(w, f))
    && |w.free| == Balance(v.files[f], BlocksFor(len), |v.free|)
    && (BlocksFor(len) <= v.files[f].blocks ==> w.files[f].indirect == v.files[f].indirect)
  }

  // One that ran out of blocks or met an error: the size stays, and so do the bytes if the blocks still cover it.
  ghost predicate TruncFailed(v: View, w: View, f: nat, len: nat, st: Status) {
    && Ok(v) && Ok(w) && f < |v.files| == |w.files| && w.files[f].size == v.files[f].size
    && (Mapped(v, f) && v.files[f].blocks <= BlocksFor(len) ==> Mapped(w, f))
    && (Mapped(v, f) && Mapped(w, f) ==> Content(w, f) == Content(v, f))
    && Agree(Space(v, f), Space(w, f))
    && (st == NoMem ==> Fitted(Space(v, f), Space(w, f)) && w.files[f].blocks >= v.files[f].blocks)
    && (st == NoMem ==> v.files[f].blocks < BlocksFor(len) && |v.free| < Need(v.files[f], BlocksFor(len)))
  }

  // On a disk that does not fail: success exactly with room, and size and blocks fall out of step exactly if there
  // was room to begin growing but not to finish.
  ghost predicate TruncExactly(v: View, w: View, f: nat, len: nat, st: Status) {
    && f < |v.files| == |w.files|
    && (Exact(v.files[f]) ==>
          && (st == Done <==> |v.free| >= Need(v.files[f], BlocksFor(len)))
          && (Exact(w.files[f]) <==> !Partway(v.files[f], BlocksFor(len), |v.free|)))
  }

  ghost predicate TruncOutcome(v: View, w: View, f: nat, len: int, st: Status, reliable: bool) {
    && f < |v.files| == |w.files| && OtherContents(v, w, f) && w.files[f].ino == v.files[f].ino
    && (st == Invalid <==> len < 0 || len > MAX_FILE_SIZE)
    && (st == Panic <==> 0 <= len <= MAX_FILE_SIZE && v.files[f].size == len && !Exact(v.files[f]))
    && (st == Invalid || st == Panic ==> w == v)
    && (st == Done ==> TruncDone(v, w, f, len))
    && (st == NoMem || st == IoError ==> TruncFailed(v, w, f, len, st))
    && (st == IoError ==> !reliable)
    && (reliable && st != Invalid ==> TruncExactly(v, w, f, len, st))
  }

  // Refusals, and a size that is the file's already.
  lemma TruncAtOnce(v: View, f: nat, len: int, st: Status, reliable: bool)
    requires Ok(v) && f < |v.files|
    requires if len < 0 || len > MAX_FILE_SIZE then st == Invalid
             else v.files[f].size == len && st == if Exact(v.files[f]) then Done else Panic
    ensures TruncOutcome(v, v, f, len, st, reliable)
  {
    hide Ok, Blocks, ByteOf;
    OthersKeepContents(v, v, f);
  }

  lemma TruncFails(v: View, w: View, f: nat, len: nat, st: Status, reliable: bool)
    requires ResizeOutcome(v, w, f, BlocksFor(len), st, reliable) && st != Done
    requires len <= MAX_FILE_SIZE && v.files[f].size != len
    ensures TruncOutcome(v, w, f, len, st, reliable)
  {
    ResizedOnly(v, w, f);
    hide Ok, Blocks, Content, Space, Resized, ZeroBeyond, OtherContents, Agree, Fitted;
  }

  lemma TruncSucceeds(v: View, w: View, f: nat, len: nat, reliable: bool)
    requires ResizeOutcome(v, w, f, BlocksFor(len), Done, reliable) && len <= MAX_FILE_SIZE && v.files[f].size != len
    ensures var x := WithInode(w, f, w.files[f].(size := len));
            Ok(x) && Shape(x) && TruncOutcome(v, x, f, len, Done, reliable)
  {
    ResizedOnly(v, w, f);
    ResizedAndSized(v, w, f, len);
    hide Ok, Blocks, Content, Space, Resized, ZeroBeyond, OtherContents, Agree, Fitted;
  }

  // sfs_truncfile
  method TruncFile(fs: Sfs, f: nat, len: int) returns (st: Status)
    requires fs.Valid() && f < |fs.files| && (0 <= len <= MAX_FILE_SIZE ==> len <= BLKSIZE * NBLOCKS)
    modifies fs`ops, fs`buffer, fs`disk, fs`files, fs`dirty, fs`unused, fs`superDirty, fs.freemap.words
    ensures fs.Valid() && TruncOutcome(old(fs.V()), fs.V(), f, len, st, fs.Reliable())
  {
    hide Ok, Blocks, TruncOutcome, ResizeOutcome, Shape;
    ghost var v := fs.V();
    if len < 0 || len > MAX_FILE_SIZE {
      TruncAtOnce(v, f, len, Invalid, fs.Reliable());
      return Invalid;
    }
    var tblks := BlocksFor(len);
    if fs.files[f].size == len {
      st := if tblks == fs.files[f].blocks then Done else Panic;
      TruncAtOnce(v, f, len, st, fs.Reliable());
      return;
    }
    st := Resize(fs, f, tblks);
    if st == Done {
      TruncSucceeds(v, fs.V(), f, len, fs.Reliable());
      fs.files := fs.files[f := fs.files[f].(size := len)];
      fs.dirty := fs.dirty + {f};
    } else {
      TruncFails(v, fs.V(), f, len, st, fs.Reliable());
    }
  }
}
