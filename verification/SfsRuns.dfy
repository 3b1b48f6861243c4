/**
  Sequences of file operations: any mix of them keeps every disk block with at
  most one owner, what is written can be read back, and deleting a file gives
  back every block it had.
 */
module SfsRuns {
  import opened Bits
  import opened Options
  import opened SfsBitmap
  import opened SfsLayout
  import opened SfsInode
  import opened SfsFile

  datatype Request =
    | Write(f: nat, offset: int, data: seq<Byte>) | Read(f: nat, offset: int, len: nat) | Truncate(f: nat, size: int)

  datatype Reply = Reply(st: Status, alen: nat, data: seq<Byte>)

  // ---- what a user sees: files as byte sequences

  // A file: its size, and the bytes of its blocks, of which the first size are its contents.
  datatype Text = Text(size: nat, space: seq<Byte>)

  predicate Whole(t: Text) {
    t.size <= |t.space|
  }

  ghost function TextOf(v: View, f: nat): Text
    requires Ok(v) && f < |v.files|
  {
    Text(v.files[f].size, Space(v, f))
  }

  ghost function Texts(v: View): (ts: seq<Text>)
    requires Ok(v)
    ensures |ts| == |v.files| && forall f :: 0 <= f < |ts| ==> ts[f] == TextOf(v, f)
  {
    seq(|v.files|, f requires 0 <= f < |v.files| => TextOf(v, f))
  }

  // Where a good request ends.
  function End(t: Text, offset: int, len: nat, write: bool): int
    requires !BadRange(offset, len)
  {
    var end := Min(EndPos(offset, len), MAX_FILE_SIZE);
    if write then end else Max(offset, Min(end, t.size))
  }

  // The request asks for bytes that it may have.
  predicate Asks(t: Text, offset: int, len: nat, write: bool) {
    !BadRange(offset, len) && End(t, offset, len, write) > offset
  }

  // What the callers of the file layer see to: the file exists, and a request ends below the block map's limit.
  ghost predicate Admitted(ts: seq<Text>, r: Request) {
    && r.f < |ts|
    && match r
       case Write(f, offset, data) => offset < 0x8000_0000 && Reaches(ts[f], offset, |data|, true)
       case Read(f, offset, len) => offset < 0x8000_0000 && Reaches(ts[f], offset, len, false)
       case Truncate(f, size) => 0 <= size <= MAX_FILE_SIZE ==> size <= BLKSIZE * NBLOCKS
  }

  predicate Reaches(t: Text, offset: int, len: nat, write: bool) {
    Asks(t, offset, len, write) && offset / BLKSIZE <= |t.space| / BLKSIZE ==>
      End(t, offset, len, write) <= BLKSIZE * NBLOCKS
  }

  // The bytes of a file after n more from offset on have been moved, if the device does not fail.
  predicate Snug(was: Text, now: Text, offset: nat, n: nat) {
    |now.space| == if n == 0 then |was.space| else Max(|was.space|, BLKSIZE * BlocksFor(offset + n))
  }

  // A write puts a prefix of its data in place, all of it if it reports success; a failed one that begins past the end
  // of the file moves the end to its start.
  ghost predicate Wrote(was: Text, now: Text, offset: int, data: seq<Byte>, a: Reply) {
    && a.alen <= |data| && (a.st == Invalid <==> BadRange(offset, |data|))
    && (a.st == Panic <==> Asks(was, offset, |data|, true) && offset / BLKSIZE > |was.space| / BLKSIZE)
    && (a.st == Done ==> a.alen == End(was, offset, |data|, true) - offset)
    && (a.st in {Invalid, Panic} || (a.st == Done && a.alen == 0) ==> now == was)
    && (a.alen > 0 || a.st in {NoMem, IoError} ==>
          && 0 <= offset && now.size == Max(was.size, offset + a.alen)
          && Laid(was.space, now.space, offset, data[..a.alen])
          && (a.st != IoError ==> Snug(was, now, offset, a.alen)))
    && (a.st == NoMem ==> (offset + a.alen) / BLKSIZE == |now.space| / BLKSIZE)
  }

  // A read delivers bytes of the file, all those asked for that exist if it reports success.  If the size promises
  // bytes that the blocks do not hold, it adds zero blocks for them; otherwise it changes nothing.
  ghost predicate Gave(was: Text, now: Text, offset: int, len: nat, a: Reply) {
    && (a.st == Invalid <==> BadRange(offset, len))
    && (a.st == Panic <==> Asks(was, offset, len, false) && offset / BLKSIZE > |was.space| / BLKSIZE)
    && (a.st == Done ==> a.alen == End(was, offset, len, false) - offset)
    && (a.st in {Invalid, Panic} || (a.st == Done && a.alen == 0) || Whole(was) ==> now == was)
    && (a.alen > 0 ==>
          && 0 <= offset && offset + a.alen <= was.size && offset + a.alen <= |now.space|
          && a.data == now.space[offset..offset + a.alen])
    && (a.alen > 0 || a.st in {NoMem, IoError} ==>
          && 0 <= offset && now.size == was.size && |was.space| <= |now.space| && Fitted(was.space, now.space)
          && (a.st != IoError ==> Snug(was, now, offset, a.alen)))
    && (a.st == NoMem ==> !Whole(was) && (offset + a.alen) / BLKSIZE == |now.space| / BLKSIZE)
  }

  // A truncation sets the size and fits the space to it; one that runs out of blocks keeps the size and may leave zero
  // blocks behind, and one that meets an error leaves some number of blocks.
  ghost predicate Resizes(was: Text, now: Text, size: int, a: Reply) {
    && (a.st == Invalid <==> size < 0 || size > MAX_FILE_SIZE)
    && (a.st == Panic <==>
          0 <= size <= MAX_FILE_SIZE && size == was.size && |was.space| != BLKSIZE * BlocksFor(size))
    && (a.st in {Invalid, Panic} ==> now == was)
    && (a.st == Done ==>
          now.size == size && |now.space| == BLKSIZE * BlocksFor(size) && Fitted(was.space, now.space))
    && (a.st in {NoMem, IoError} ==> now.size == was.size && Agree(was.space, now.space))
    && (a.st == NoMem ==> |was.space| <= |now.space| && Fitted(was.space, now.space))
  }

  // One request on the files as a user sees them.
  ghost predicate Follows(ts: seq<Text>, us: seq<Text>, r: Request, a: Reply) {
    && r.f < |ts| == |us| && (forall g :: 0 <= g < |ts| && g != r.f ==> us[g] == ts[g])
    && match r
       case Write(f, offset, data) => Wrote(ts[f], us[f], offset, data, a)
       case Read(f, offset, len) => Gave(ts[f], us[f], offset, len, a)
       case Truncate(f, size) => Resizes(ts[f], us[f], size, a)
  }

  // Inside the file, bytes laid over its space overwrite its contents.
  lemma LaidOverwrites(was: Text, now: Text, offset: nat, data: seq<Byte>)
    requires Whole(was) && offset <= was.size && now.size == Max(was.size, offset + |data|)
    requires Laid(was.space, now.space, offset, data)
    ensures Whole(now) && now.space[..now.size] == Overwrite(was.space[..was.size], offset, data)
  {}

  predicate Allowed(files: seq<Inode>, r: Request) {
    && r.f < |files|
    && match r
       case Write(f, offset, data) => offset < 0x8000_0000 && InReach(files[f], offset, |data|, true)
       case Read(f, offset, len) => offset < 0x8000_0000 && InReach(files[f], offset, len, false)
       case Truncate(f, size) => 0 <= size <= MAX_FILE_SIZE ==> size <= BLKSIZE * NBLOCKS
  }

  lemma AllowedIsAdmitted(v: View, r: Request)
    requires Ok(v)
    ensures Allowed(v.files, r) <==> Admitted(Texts(v), r)
  {
    hide Ok, Space;
    if r.f < |v.files| {
      assert Texts(v)[r.f] == TextOf(v, r.f);
    }
  }

  // The other files, seen as bytes.
  lemma OthersFollow(v: View, w: View, f: nat)
    requires OtherContents(v, w, f)
    ensures |Texts(w)| == |Texts(v)| && forall g :: 0 <= g < |Texts(v)| && g != f ==> Texts(w)[g] == Texts(v)[g]
  {
    hide Ok, Space;
  }

  method HandleWrite(fs: Sfs, f: nat, offset: int, data: seq<Byte>) returns (a: Reply)
    requires fs.Valid() && Allowed(fs.files, Write(f, offset, data))
    modifies fs`ops, fs`buffer, fs`disk, fs`files, fs`dirty, fs`unused, fs`superDirty, fs.freemap.words
    ensures fs.Valid() && OtherContents(old(fs.V()), fs.V(), f) && f < |fs.files|
    ensures Wrote(old(TextOf(fs.V(), f)), TextOf(fs.V(), f), offset, data, a) && (a.st == IoError ==> !fs.Reliable())
  {
    hide Ok, Content, Space, Outcome, Wrote;
    ghost var v := fs.V();
    var st, alen, got := Io(fs, f, data, offset, |data|, true);
    a := Reply(st, alen, got);
    WroteText(v, fs.V(), f, offset, data, a, fs.Reliable());
  }

  // What a write leaves, seen as bytes.
  lemma WroteText(v: View, w: View, f: nat, offset: int, data: seq<Byte>, a: Reply, reliable: bool)
    requires Ok(v) && Ok(w) && f < |v.files| && f < |w.files|
    requires Outcome(v, w, f, offset, |data|, true, a.st, a.data, reliable)
    requires a.alen == |a.data| <= |data| && a.data == data[..a.alen]
    ensures OtherContents(v, w, f) && Wrote(TextOf(v, f), TextOf(w, f), offset, data, a)
    ensures a.st == IoError ==> !reliable
  {
    hide Ok, Content, Space, Room, Overwrite, OtherContents, Laid, EndPos, Need, Paid;
  }

  method HandleRead(fs: Sfs, f: nat, offset: int, len: nat) returns (a: Reply)
    requires fs.Valid() && Allowed(fs.files, Read(f, offset, len))
    modifies fs`ops, fs`buffer, fs`disk, fs`files, fs`dirty, fs`unused, fs`superDirty, fs.freemap.words
    ensures fs.Valid() && OtherContents(old(fs.V()), fs.V(), f) && f < |fs.files|
    ensures Gave(old(TextOf(fs.V(), f)), TextOf(fs.V(), f), offset, len, a) && (a.st == IoError ==> !fs.Reliable())
  {
    hide Ok, Content, Space, Outcome, Gave;
    ghost var v := fs.V();
    var st, alen, got := Io(fs, f, [], offset, len, false);
    a := Reply(st, alen, got);
    GaveText(v, fs.V(), f, offset, len, a, fs.Reliable());
  }

  // What a read delivers, seen as bytes.
  lemma GaveText(v: View, w: View, f: nat, offset: int, len: nat, a: Reply, reliable: bool)
    requires Ok(v) && Ok(w) && f < |v.files| && f < |w.files|
    requires Outcome(v, w, f, offset, len, false, a.st, a.data, reliable) && a.alen == |a.data|
    ensures OtherContents(v, w, f) && Gave(TextOf(v, f), TextOf(w, f), offset, len, a)
    ensures a.st == IoError ==> !reliable
  {
    hide Ok, Content, Space, Room, Overwrite, OtherContents, EndPos, Need, Paid;
  }

  method HandleTruncate(fs: Sfs, f: nat, size: int) returns (a: Reply)
    requires fs.Valid() && Allowed(fs.files, Truncate(f, size))
    modifies fs`ops, fs`buffer, fs`disk, fs`files, fs`dirty, fs`unused, fs`superDirty, fs.freemap.words
    ensures fs.Valid() && OtherContents(old(fs.V()), fs.V(), f) && f < |fs.files|
    ensures Resizes(old(TextOf(fs.V(), f)), TextOf(fs.V(), f), size, a) && (a.st == IoError ==> !fs.Reliable())
  {
    hide Ok, Blocks, Content, Space, OtherContents, Agree, Fitted;
    var st := TruncFile(fs, f, size);
    a := Reply(st, 0, []);
  }

  /**
    One request: its own file changes as the byte-level description says, no other file does, and whatever becomes of
    it the free map, its count and the ownership of blocks stay right.
   */
  method Handle(fs: Sfs, r: Request) returns (a: Reply)
    requires fs.Valid() && Allowed(fs.files, r)
    modifies fs`ops, fs`buffer, fs`disk, fs`files, fs`dirty, fs`unused, fs`superDirty, fs.freemap.words
    ensures fs.Valid() && Follows(old(Texts(fs.V())), Texts(fs.V()), r, a) && (a.st == IoError ==> !fs.Reliable())
  {
    hide Ok, Space, Wrote, Gave, Resizes, OtherContents;
    ghost var v := fs.V();
    assert Texts(v)[r.f] == TextOf(v, r.f);
    match r {
      case Write(f, offset, data) =>
        a := HandleWrite(fs, f, offset, data);
      case Read(f, offset, len) =>
        a := HandleRead(fs, f, offset, len);
      case Truncate(f, size) =>
        a := HandleTruncate(fs, f, size);
    }
    OthersFollow(v, fs.V(), r.f);
    assert Texts(fs.V())[r.f] == TextOf(fs.V(), r.f);
  }

  // Bytes written are read back, from a disk that does not fail, also if they begin past the end of the file; and they
  // can be written exactly if there are blocks for them.
  method WriteThenRead(fs: Sfs, f: nat, offset: nat, data: seq<Byte>) returns (st: Status, back: seq<Byte>)
    requires fs.Valid() && f < |fs.files| && fs.Reliable() && offset / BLKSIZE <= fs.files[f].blocks
    requires 0 < |data| && offset + |data| <= BLKSIZE * NBLOCKS
    modifies fs`ops, fs`buffer, fs`disk, fs`files, fs`dirty, fs`unused, fs`superDirty, fs.freemap.words
    ensures fs.Valid() && OtherContents(old(fs.V()), fs.V(), f)
    ensures st == if old(fs.unused) >= Need(old(fs.files[f]), BlocksFor(offset + |data|)) then Done else NoMem
    ensures st == Done ==> back == data
  {
    hide Ok, Blocks, Content, Space, OtherContents, Outcome;
    var alen, got;
    GoodRange(offset, |data|);
    ghost var v := fs.V();
    st, alen, got := Io(fs, f, data, offset, |data|, true);
    back := [];
    WriteTells(v, fs.V(), f, offset, data, st, got);
    if st == Done {
      ghost var w := fs.V();
      st, alen, back := Io(fs, f, [], offset, |data|, false);
      ReadTells(v, w, fs.V(), f, offset, data, st, back);
    }
  }

  lemma WriteTells(v: View, w: View, f: nat, offset: nat, data: seq<Byte>, st: Status, done: seq<Byte>)
    requires Outcome(v, w, f, offset, |data|, true, st, done, true) && |done| <= |data| && done == data[..|done|]
    requires 0 < |data| && offset + |data| <= BLKSIZE * NBLOCKS && offset / BLKSIZE <= v.files[f].blocks
    ensures st == if |v.free| >= Need(v.files[f], BlocksFor(offset + |data|)) then Done else NoMem
    ensures OtherContents(v, w, f) && f < |w.files| && (st == Done ==> Held(w, f, offset, data))
  {
    hide Ok, Blocks, Content, Space, Room, Overwrite, EndPos, Paid, Need, Laid, Exact;
    GoodRange(offset, |data|);
    if st == Done {
      assert done == data;
      LaidSlice(Space(v, f), Space(w, f), offset, data);
    }
  }

  lemma LaidSlice(was: seq<Byte>, now: seq<Byte>, offset: nat, data: seq<Byte>)
    requires Laid(was, now, offset, data) && 0 < |data|
    ensures offset + |data| <= |now| && now[offset..offset + |data|] == data
  {}

  lemma KeptSlice(was: seq<Byte>, now: seq<Byte>, offset: nat, n: nat)
    requires Laid(was, now, offset, []) && offset + n <= |was|
    ensures offset + n <= |now| && now[offset..offset + n] == was[offset..offset + n]
  {}

  // The file holds data at offset, in its blocks and below its size.
  ghost predicate Held(w: View, f: nat, offset: nat, data: seq<Byte>) {
    && Ok(w) && f < |w.files| && offset + |data| <= w.files[f].size && offset + |data| <= |Space(w, f)|
    && Space(w, f)[offset..offset + |data|] == data
  }

  lemma ReadTells(v: View, w: View, u: View, f: nat, offset: nat, data: seq<Byte>, st: Status, back: seq<Byte>)
    requires OtherContents(v, w, f) && Held(w, f, offset, data) && 0 < |data| && offset + |data| <= BLKSIZE * NBLOCKS
    requires Outcome(w, u, f, offset, |data|, false, st, back, true)
    ensures OtherContents(v, u, f) && st == Done && back == data
  {
    hide Ok, Blocks, Content, Space, Room, Overwrite, EndPos, Paid, Laid, Exact;
    GoodRange(offset, |data|);
    assert Clipped(w.files[f], offset, |data|, false) == offset + |data|;
    assert BlocksFor(offset + |data|) <= w.files[f].blocks;
    KeptSlice(Space(w, f), Space(u, f), offset, |data|);
  }

  lemma GoodRange(offset: nat, len: nat)
    requires offset + len <= BLKSIZE * NBLOCKS && 0 < len
    ensures !BadRange(offset, len) && EndPos(offset, len) == offset + len
  {}

  // ---- files whose size is at most a block ahead of their blocks

  predicate Near(t: Text) {
    t.size <= BLKSIZE * (|t.space| / BLKSIZE + 1)
  }

  predicate AllNear(ts: seq<Text>) {
    forall f :: 0 <= f < |ts| ==> Near(ts[f])
  }

  /** Every request but one that meets a device error keeps the sizes that near, so that no read trips the assertion. */
  lemma NearKept(ts: seq<Text>, us: seq<Text>, r: Request, a: Reply)
    requires AllNear(ts) && Follows(ts, us, r, a) && a.st != IoError
    ensures AllNear(us) && (r.Read? ==> a.st != Panic)
  {
    hide Laid, Fitted, Agree, EndPos;
    var was, now := ts[r.f], us[r.f];
    if r.Write? {
      NearWrite(was, now, r.offset, r.data, a);
    }
  }

  lemma NearWrite(was: Text, now: Text, offset: int, data: seq<Byte>, a: Reply)
    requires Near(was) && Wrote(was, now, offset, data, a) && a.st != IoError
    ensures Near(now)
  {
    hide Laid, EndPos;
  }

  /**
    Any requests in any order, whatever the disk does: the files as byte sequences go through one state per request,
    each request is served exactly if it is admissible in the state it finds, and it then changes that state as its
    description says.  No block in use is ever free, and the count of free blocks is right.  On a disk that does not
    fail, if no size is more than a block ahead at first, none ever is and no read trips the assertion.
   */
  method Serve(fs: Sfs, rs: seq<Request>)
    returns (replies: seq<Option<Reply>>, ghost states: seq<seq<Text>>)
    requires fs.Valid()
    modifies fs`ops, fs`buffer, fs`disk, fs`files, fs`dirty, fs`unused, fs`superDirty, fs.freemap.words
    ensures fs.Valid() && |replies| == |rs| && |states| == |rs| + 1
    ensures states[0] == old(Texts(fs.V())) && states[|rs|] == Texts(fs.V())
    ensures forall i :: 0 <= i < |rs| ==> Served(states, rs, replies, i)
    ensures fs.Reliable() && AllNear(states[0]) ==>
              && AllNear(states[|rs|])
              && forall i :: 0 <= i < |rs| && rs[i].Read? && replies[i].Some? ==> replies[i].value.st != Panic
    ensures fs.unused == |fs.freemap.Free()|
    ensures forall f, k :: 0 <= f < |fs.files| && 0 <= k < NSLOTS ==> Ref(fs.V(), f, k) !in fs.freemap.Free()
  {
    hide Ok, Follows, Admitted, Allowed, Near;
    replies, states := [], [Texts(fs.V())];
    for i := 0 to |rs|
      invariant fs.Valid() && |replies| == i && |states| == i + 1
      invariant states[0] == old(Texts(fs.V())) && states[i] == Texts(fs.V())
      invariant forall j :: 0 <= j < i ==> Served(states, rs, replies, j)
      invariant fs.Reliable() && AllNear(states[0]) ==>
                  && AllNear(states[i])
                  && forall j :: 0 <= j < i && rs[j].Read? && replies[j].Some? ==> replies[j].value.st != Panic
    {
      AllowedIsAdmitted(fs.V(), rs[i]);
      var was := replies;
      ghost var before := states;
      if Allowed(fs.files, rs[i]) {
        var a := Handle(fs, rs[i]);
        if fs.Reliable() && AllNear(states[0]) {
          NearKept(states[i], Texts(fs.V()), rs[i], a);
        }
        replies := replies + [Some(a)];
      } else {
        replies := replies + [None];
      }
      states := states + [Texts(fs.V())];
      ServedKept(before, was, states, replies, rs, i);
    }
    NeverFree(fs.V());
  }

  // What became of request i.
  ghost predicate Served(states: seq<seq<Text>>, rs: seq<Request>, replies: seq<Option<Reply>>, i: nat) {
    && i < |rs| && i < |replies| && i + 1 < |states|
    && (replies[i].Some? <==> Admitted(states[i], rs[i]))
    && (replies[i].Some? ==> Follows(states[i], states[i + 1], rs[i], replies[i].value))
    && (replies[i].None? ==> states[i + 1] == states[i])
  }

  lemma ServedKept(was: seq<seq<Text>>, before: seq<Option<Reply>>, states: seq<seq<Text>>,
                   replies: seq<Option<Reply>>, rs: seq<Request>, n: nat)
    requires |before| == n && |was| == n + 1 && was <= states && before <= replies
    requires forall j :: 0 <= j < n ==> Served(was, rs, before, j)
    ensures forall j :: 0 <= j < n ==> Served(states, rs, replies, j)
  {
    hide Follows, Admitted;
    forall j | 0 <= j < n ensures Served(states, rs, replies, j) {
      assert Served(was, rs, before, j);
      assert states[j] == was[j] && states[j + 1] == was[j + 1] && replies[j] == before[j];
    }
  }

  lemma NeverFree(v: View)
    requires Ok(v)
    ensures Shape(v) && forall f, k :: 0 <= f < |v.files| && 0 <= k < NSLOTS ==> Ref(v, f, k) !in v.free
  {
    hide RefOf;
  }

  // ---- deleting a file

  // The blocks of a file: data, indirect and inode.
  function Usage(n: Inode): nat {
    n.blocks + (if n.indirect != 0 then 1 else 0) + if n.ino != 0 then 1 else 0
  }

  lemma DropOwn(v: View, f: nat)
    requires Ok(v) && f < |v.files| && v.files[f].ino != 0
    ensures 0 < v.files[f].ino < |v.disk| && v.files[f].ino !in v.free
    ensures var w := WithInode(v.(free := v.free + {v.files[f].ino}), f, v.files[f].(ino := 0));
            Ok(w) && Shape(w) && SameBlocks(v, w)
  {
    hide Entry, Blocks;
    var w := WithInode(v, f, v.files[f].(ino := 0));
    IndirectRef(v, f);
    assert OneRef(v, w, f, OWN, 0);
    DetachOther(v, w, f, OWN);
    GiveBack(w, v.files[f].ino);
  }

  lemma DropIndirect(v: View, f: nat)
    requires Ok(v) && f < |v.files| && v.files[f].indirect != 0 && v.files[f].blocks == 0
    ensures 0 < v.files[f].indirect < |v.disk| && v.files[f].indirect !in v.free
    ensures var w := WithInode(v.(free := v.free + {v.files[f].indirect}), f, v.files[f].(indirect := 0));
            Ok(w) && Shape(w) && SameBlocks(v, w)
  {
    hide Entry, Blocks;
    var w := WithInode(v, f, v.files[f].(indirect := 0));
    IndirectRef(v, f);
    forall g, l | 0 <= g < |v.files| && 0 <= l < NSLOTS
      ensures Ref(w, g, l) == if g == f && l == INDIRECT then 0 else Ref(v, g, l)
    {
      if g == f && l < NBLOCKS {
        assert Ref(v, f, l) == 0;
      }
    }
    DetachOther(v, w, f, INDIRECT);
    GiveBack(w, v.files[f].indirect);
  }

  // sfs_reclaim of a file without links
  method Reclaim(fs: Sfs, f: nat) returns (st: Status)
    requires fs.Valid() && f < |fs.files| && fs.files[f].ino != 0
    modifies fs`ops, fs`buffer, fs`disk, fs`files, fs`dirty, fs`unused, fs`superDirty, fs.freemap.words
    ensures fs.Valid() && OtherContents(old(fs.V()), fs.V(), f)
    ensures st == Done || st == Panic || (st == IoError && !fs.Reliable())
    ensures st == Panic <==> old(fs.files[f].size) == 0 && old(fs.files[f].blocks) != 0
    ensures st == Done ==> fs.unused == old(fs.unused) + old(Usage(fs.files[f])) && Usage(fs.files[f]) == 0
  {
    hide Ok, Blocks, Content, Shape;
    st := TruncFile(fs, f, 0);
    if st != Done {
      return;
    }
    FreeInode(fs, f, old(fs.V()));
  }

  // The inode's own block and its indirect block.
  method FreeInode(fs: Sfs, f: nat, ghost v: View)
    requires fs.Valid() && f < |fs.files| && fs.files[f].ino != 0 && fs.files[f].blocks == 0
    requires OtherContents(v, fs.V(), f)
    modifies fs`files, fs`unused, fs`superDirty, fs.freemap.words
    ensures fs.Valid() && f < |fs.files| && OtherContents(v, fs.V(), f)
    ensures fs.unused == old(fs.unused) + old(Usage(fs.files[f])) && Usage(fs.files[f]) == 0
  {
    hide Ok, SameBlocks, Shape, OtherContents;
    ghost var a := fs.V();
    DropOwn(a, f);
    fs.BlockFree(fs.files[f].ino);
    fs.files := fs.files[f := fs.files[f].(ino := 0)];
    StillOthers(v, a, fs.V(), f);
    if fs.files[f].indirect != 0 {
      FreeIndirect(fs, f, v);
    }
  }

  method FreeIndirect(fs: Sfs, f: nat, ghost v: View)
    requires fs.Valid() && f < |fs.files| && fs.files[f].indirect != 0 && fs.files[f].blocks == 0
    requires OtherContents(v, fs.V(), f)
    modifies fs`files, fs`unused, fs`superDirty, fs.freemap.words
    ensures fs.Valid() && |fs.files| == old(|fs.files|) && OtherContents(v, fs.V(), f)
    ensures fs.unused == old(fs.unused) + 1 && fs.files[f] == old(fs.files[f]).(indirect := 0)
  {
    hide Ok, SameBlocks, Shape, OtherContents;
    ghost var b := fs.V();
    DropIndirect(b, f);
    fs.BlockFree(fs.files[f].indirect);
    fs.files := fs.files[f := fs.files[f].(indirect := 0)];
    StillOthers(v, b, fs.V(), f);
  }

  lemma StillOthers(v: View, a: View, b: View, f: nat)
    requires OtherContents(v, a, f) && Ok(a) && Ok(b) && SameBlocks(a, b)
    requires forall g :: 0 <= g < |a.files| && g != f ==> b.files[g] == a.files[g]
    ensures OtherContents(v, b, f)
  {
    hide Ok, Blocks, Space;
    forall g | 0 <= g < |v.files| && g != f
      ensures b.files[g].size == v.files[g].size && b.files[g].blocks == v.files[g].blocks && Space(b, g) == Space(v, g)
    {
      SameSpace(a, b, g);
    }
  }

  // ---- growing without room

  // An empty file grown to two blocks on a disk with one free block keeps size 0 and one block;
  // truncating it to the size it has then trips the assertion.
  method GrowWithoutRoom(fs: Sfs, f: nat) returns (first: Status, second: Status)
    requires fs.Valid() && fs.Reliable() && f < |fs.files| && fs.unused == 1
    requires fs.files[f].size == 0 && fs.files[f].blocks == 0
    modifies fs`ops, fs`buffer, fs`disk, fs`files, fs`dirty, fs`unused, fs`superDirty, fs.freemap.words
    ensures first == NoMem && second == Panic && f < |fs.files| && !Exact(fs.files[f])
  {
    hide Ok, Blocks, Content, OtherContents;
    first := TruncFile(fs, f, 2 * BLKSIZE);
    second := TruncFile(fs, f, 0);
  }

  // A file that fills its one block on a full disk: a write that begins one byte further finds no room and moves the
  // size past the blocks.  Reading the byte that the size now promises reports that there is no space.
  method WritePastEnd(fs: Sfs, f: nat) returns (first: Status, second: Status, third: Status)
    requires fs.Valid() && fs.Reliable() && f < |fs.files| && fs.unused == 1
    requires fs.files[f].size == 0 && fs.files[f].blocks == 0
    modifies fs`ops, fs`buffer, fs`disk, fs`files, fs`dirty, fs`unused, fs`superDirty, fs.freemap.words
    ensures first == Done && second == NoMem && third == NoMem && f < |fs.files|
    ensures fs.files[f].size == BLKSIZE + 1 && fs.files[f].blocks == 1
  {
    hide Ok, Outcome, TruncOutcome;
    ghost var v := fs.V();
    first := TruncFile(fs, f, BLKSIZE);
    OneBlock(v, fs.V(), f, first);
    ghost var w := fs.V();
    var alen, got;
    second, alen, got := Io(fs, f, [0], BLKSIZE + 1, 1, true);
    NoSecond(w, fs.V(), f, second, got);
    ghost var u := fs.V();
    third, alen, got := Io(fs, f, [], BLKSIZE, 1, false);
    NotRead(u, fs.V(), f, third, got);
  }

  lemma OneBlock(v: View, w: View, f: nat, st: Status)
    requires TruncOutcome(v, w, f, BLKSIZE, st, true) && |v.free| == 1
    requires v.files[f].size == 0 && v.files[f].blocks == 0
    ensures f < |w.files| && st == Done && w.files[f].size == BLKSIZE && w.files[f].blocks == 1 && |w.free| == 0
  {
    hide Ok, Content, Space, OtherContents, Agree, Fitted;
  }

  lemma NoSecond(v: View, w: View, f: nat, st: Status, done: seq<Byte>)
    requires Outcome(v, w, f, BLKSIZE + 1, 1, true, st, done, true) && |v.free| == 0
    requires v.files[f].size == BLKSIZE && v.files[f].blocks == 1
    ensures f < |w.files| && st == NoMem && w.files[f].size == BLKSIZE + 1 && w.files[f].blocks == 1 && |w.free| == 0
  {
    hide Ok, Content, Space, OtherContents, Laid, Room, Overwrite, Exact;
  }

  lemma NotRead(v: View, w: View, f: nat, st: Status, done: seq<Byte>)
    requires Outcome(v, w, f, BLKSIZE, 1, false, st, done, true) && |v.free| == 0
    requires v.files[f].size == BLKSIZE + 1 && v.files[f].blocks == 1
    ensures f < |w.files| && st == NoMem && w.files[f].size == BLKSIZE + 1 && w.files[f].blocks == 1
  {
    hide Ok, Content, Space, OtherContents, Laid, Room, Overwrite, Exact;
  }

  // Such a disk: the super block, the root directory, the free map, the file's inode and one block to spare.
  method SmallDisk() returns (fs: Sfs)
    ensures fresh(fs) && fresh(fs.freemap.words) && fs.Valid() && fs.Reliable()
    ensures |fs.files| == 1 && fs.unused == 1 && fs.files[0].size == 0 && fs.files[0].blocks == 0
  {
    hide Ok, Ref, Bitmap.Free, Bitmap.Valid, ZeroBlock;
    var bits := SmallMap();
    var z := ZeroBlock();
    var disk := [z, z, z, z, z];
    var files := [Inode(3, 0, 0, seq(NDIRECT, _ => 0), 0)];
    SmallDiskOk(View(disk, bits.Free(), files));
    fs := new Sfs(bits, disk, files, 1, _ => false);
  }

  // The blocks of a five-block disk from n on.
  ghost function From(n: nat): set<nat> {
    set b: nat | b < 5 && AtLeast(n, b)
  }

  predicate AtLeast(n: nat, b: nat) {
    n <= b
  }

  lemma FromNext(n: nat)
    requires n < 5
    ensures n in From(n) && From(n) - {n} == From(n + 1) && forall b :: b in From(n) ==> n <= b
  {}

  method SmallMap() returns (bits: Bitmap)
    ensures fresh(bits) && fresh(bits.words) && bits.Valid() && bits.nbits == 5 && bits.Free() == {4}
  {
    bits := NewMap();
    hide Bitmap.Free, Bitmap.Valid, From;
    for n := 0 to 4
      invariant fresh(bits) && fresh(bits.words) && bits.Valid() && bits.nbits == 5 && bits.Free() == From(n)
    {
      FromNext(n);
      var found, index := bits.Alloc();
    }
    OnlyLast();
  }

  lemma OnlyLast()
    ensures From(4) == {4}
  {}

  method NewMap() returns (bits: Bitmap)
    ensures fresh(bits) && fresh(bits.words) && bits.Valid() && bits.nbits == 5 && bits.Free() == From(0)
  {
    bits := new Bitmap(5);
    assert forall b :: b in bits.Free() <==> b in From(0);
  }

  lemma SmallDiskOk(v: View)
    requires |v.disk| == 5 && (forall b :: 0 <= b < 5 ==> v.disk[b] == ZeroBlock()) && v.free == {4}
    requires v.files == [Inode(3, 0, 0, seq(NDIRECT, _ => 0), 0)]
    ensures Ok(v)
  {
    assert forall k :: 0 <= k < NSLOTS && k != OWN ==> Ref(v, 0, k) == 0;
  }
}
