/**
  The red-black tree of ucore/kern/libs/rb_tree.c.  The nodes live in a store
  that the operations update in place; compare(a, b) is the sign of key(a) - key(b).
 */
module RbTree {
  import opened Options
  import opened RbShape
  import opened RbHeap
  import opened RbInsert
  import opened RbDelete
  import opened RbRemove

  lemma NoDomAtTop()
    ensures DomC(Top) == {}
  {}

  lemma AtTop(t: Tree)
    ensures Plug(Top, t) == t && Before(Top) == [] && After(Top) == []
  {}

  lemma ZipFacts(h: seq<Node>, nil: Id, head: Id, c: Ctx, t: Tree, x: Id, y: Id)
    requires Zip(h, nil, head, c, t, x, y)
    ensures t.Leaf? <==> x == nil
    ensures t.Bin? ==> x == t.id < |h| && h[x].parent == y && x in Dom(t) && x != head
    ensures y < |h| && y != nil && (c.Top? <==> y == head) && (c.Step? ==> y == c.id && y in DomC(c))
    ensures nil != head && nil < |h| && head < |h| && !h[nil].red && !h[head].red
  {}

  // The nodes around a rising node whose parent and grandparent are nodes.
  lemma Lineage(h: seq<Node>, nil: Id, head: Id, c: Ctx, t: Tree, x: Id)
    requires x < |h| && Zip(h, nil, head, c, t, x, h[x].parent) && t.Bin? && c.Step? && c.up.Step?
    ensures h[x].parent == c.id < |h| && h[c.id].parent == c.up.id < |h|
    ensures h[c.id].red == c.red && h[c.up.id].red == c.up.red
    ensures Get(h[c.id], c.d) == x && Get(h[c.up.id], c.up.d) == c.id
    ensures var y := Get(h[c.up.id], Flip(c.up.d)); y < |h| && (if c.up.sib.Leaf? then y == nil else y == c.up.sib.id)
    ensures (h[Get(h[c.up.id], Flip(c.up.d))].red <==> !Black(c.up.sib))
    ensures c.id != c.up.id && c.id !in Dom(t) && c.up.id !in Dom(t) && c.id !in Dom(c.up.sib)
    ensures c.up.id !in Dom(c.up.sib)
    ensures nil != c.id && nil != c.up.id && head != c.id && head != c.up.id
    ensures x == Get(h[c.id], Flip(c.up.d)) <==> c.d == Flip(c.up.d)
    ensures c.id == h[c.up.id].left <==> c.up.d == L
    ensures c.id in DomC(c) && c.up.id in DomC(c) && x in Dom(t)
  {
    assert RepC(h, nil, head, c.up, c.id, h[c.id].parent) && DistinctC(c.up);
    Pointer(h, nil, t, x, h[x].parent);
    Pointer(h, nil, c.sib, Get(h[c.id], Flip(c.d)), c.id);
    Pointer(h, nil, c.up.sib, Get(h[c.up.id], Flip(c.up.d)), c.up.id);
  }

  // The store after the three recolourings of the red-uncle case.
  lemma PushUpRep(h: seq<Node>, h': seq<Node>, nil: Id, head: Id, c: Ctx, t: Tree, x: Id)
    requires x < |h| && Zip(h, nil, head, c, t, x, h[x].parent) && t.Bin? && c.Step? && c.up.Step? && c.up.sib.Bin?
    requires c.id < |h| && c.up.id < |h| && c.up.sib.id < |h|
    requires var h1 := h[c.id := h[c.id].(red := false)];
             var h2 := h1[c.up.sib.id := h1[c.up.sib.id].(red := false)];
             h' == h2[c.up.id := h2[c.up.id].(red := true)]
    ensures c.up.id < |h'| && Zip(h', nil, head, c.up.up, PushedUp(c, t), c.up.id, h'[c.up.id].parent)
  {
    var p, y, g := c.id, c.up.sib.id, c.up.id;
    var h1 := h[p := h[p].(red := false)];
    var h2 := h1[y := h1[y].(red := false)];
    ColourZip(h, nil, head, c, t, x, p, p, false);
    ColParent(c, false);
    ColAbsentT(t, p, false);
    var c1 := c.(red := false);
    ColourZip(h1, nil, head, c1, t, x, p, y, false);
    ColUncle(c1, false);
    ColAbsentT(t, y, false);
    var c2 := c1.(up := c.up.(sib := c.up.sib.(red := false)));
    ColourZip(h2, nil, head, c2, t, x, p, g, true);
    ColGrandparent(c2, true);
    ColAbsentT(t, g, true);
    var c3 := c2.(up := c2.up.(red := true));
    ZipUp(h', nil, head, c3, t, x, p);
    ZipUp(h', nil, head, c3.up, Mk(c.d, t, p, false, c.sib), p, g);
  }

  lemma BeforeStraighten(h: seq<Node>, nil: Id, head: Id, c: Ctx, t: Tree, x: Id, n: nat)
    requires Rising(h, nil, head, c, t, x, n) && c.Step? && c.red && c.up.Step? && c.d == Flip(c.up.d)
    ensures var d := c.up.d; var b, e := if d == L then t.left else t.right, if d == L then t.right else t.left;
            && h[x].parent == c.id < |h| && t == Mk(d, b, x, true, e)
            && Zip(h, nil, head, c.up, Unrotated(d, c.sib, c.id, true, b, x, true, e), c.id, h[c.id].parent)
            && DomC(c) + Dom(t) == DomC(c.up) + Dom(Unrotated(d, c.sib, c.id, true, b, x, true, e))
            && var (c', t') := Straightened(c, b, x, e);
               RisingShape(c', t', n) && Inorder(Plug(c', t')) == Inorder(Plug(c, t))
  {
    Lineage(h, nil, head, c, t, x);
    ZipUp(h, nil, head, c, t, x, c.id);
    var d := c.up.d;
    var b, e := if d == L then t.left else t.right, if d == L then t.right else t.left;
    StraightenedShape(c, b, x, e, n);
  }

  lemma AfterStraighten(h: seq<Node>, nil: Id, head: Id, c: Ctx, b: Tree, x: Id, e: Tree, g: Id)
    requires c.Step? && c.up.Step? && Zip(h, nil, head, c.up, Rotated(c.up.d, c.sib, c.id, true, b, x, true, e), x, g)
    ensures var d := c.up.d;
            && c.id < |h| && h[c.id].parent == x
            && Zip(h, nil, head, Step(c.up, d, x, true, e), Mk(d, c.sib, c.id, true, b), c.id, x)
            && DomC(Step(c.up, d, x, true, e)) + Dom(Mk(d, c.sib, c.id, true, b)) ==
               DomC(c.up) + Dom(Rotated(d, c.sib, c.id, true, b, x, true, e))
  {
    var d := c.up.d;
    ZipDown(h, nil, head, c.up, d, Mk(d, c.sib, c.id, true, b), x, true, e, x, g);
    ZipFacts(h, nil, head, Step(c.up, d, x, true, e), Mk(d, c.sib, c.id, true, b), Get(h[x], d), x);
  }

  lemma ColourGrandparent(h: seq<Node>, nil: Id, head: Id, c: Ctx, t: Tree, p: Id, par: Id, red: bool)
    requires Zip(h, nil, head, c, t, p, par) && c.Step? && c.up.Step?
    ensures c.up.id < |h|
    ensures Zip(h[c.up.id := h[c.up.id].(red := red)], nil, head, c.(up := c.up.(red := red)), t, p, par)
  {
    assert RepC(h, nil, head, c.up, c.id, h[c.id].parent) && c.up.id in DomC(c.up);
    ColourZip(h, nil, head, c, t, p, par, c.up.id, red);
    ColGrandparent(c, red);
    ColAbsentT(t, c.up.id, red);
  }

  lemma DomTwoUp(c: Ctx, t: Tree)
    requires c.Step? && c.up.Step? && c.d == c.up.d
    ensures DomC(c) + Dom(t) ==
            DomC(c.up.up) + Dom(Unrotated(Flip(c.d), c.up.sib, c.up.id, true, c.sib, c.id, false, t))
  {}

  lemma BeforeSettle(h: seq<Node>, h': seq<Node>, nil: Id, head: Id, c: Ctx, t: Tree, x: Id, n: nat)
    requires Rising(h, nil, head, c, t, x, n) && c.Step? && c.red && c.up.Step? && Black(c.up.sib) && c.d == c.up.d
    requires c.id < |h| && c.up.id < |h|
    requires var h1 := h[c.id := h[c.id].(red := false)]; h' == h1[c.up.id := h1[c.up.id].(red := true)]
    ensures var tree := Unrotated(Flip(c.d), c.up.sib, c.up.id, true, c.sib, c.id, false, t);
            && Zip(h', nil, head, c.up.up, tree, c.up.id, h'[c.up.id].parent) && h'[c.up.id].parent == h[c.up.id].parent
            && DomC(c) + Dom(t) == DomC(c.up.up) + Dom(tree)
    ensures RisingShape(Settled(c), t, n) && !Settled(c).red && Inorder(Plug(Settled(c), t)) == Inorder(Plug(c, t))
  {
    hide Zip, RisingShape, Dom, DomC;
    SettledShape(c, t, n);
    Lineage(h, nil, head, c, t, x);
    ColourParent(h, nil, head, c, t, x, c.id, false);
    var c1 := c.(red := false);
    ColourGrandparent(h[c.id := h[c.id].(red := false)], nil, head, c1, t, x, c.id, true);
    var c2 := c1.(up := c.up.(red := true));
    ZipUp(h', nil, head, c2, t, x, c.id);
    ZipUp(h', nil, head, c2.up, Mk(c.d, t, c.id, false, c.sib), c.id, c.up.id);
    DomTwoUp(c, t);
  }

  lemma AfterSettle(h: seq<Node>, nil: Id, head: Id, c: Ctx, t: Tree, x: Id, par: Id)
    requires c.Step? && c.up.Step? && t.Bin? && t.id == x
    requires Zip(h, nil, head, c.up.up, Rotated(Flip(c.d), c.up.sib, c.up.id, true, c.sib, c.id, false, t), c.id, par)
    ensures x < |h| && h[x].parent == c.id && Zip(h, nil, head, Settled(c), t, x, c.id)
  {
    ZipDown(h, nil, head, c.up.up, c.d, t, c.id, false, Mk(c.d, c.sib, c.up.id, true, c.up.sib), c.id, par);
    ZipFacts(h, nil, head, Settled(c), t, Get(h[c.id], c.d), c.id);
  }

  // Trees with the same in-order sequence have the same ids.
  lemma SameIds(c: Ctx, t: Tree, c': Ctx, t': Tree)
    requires Inorder(Plug(c, t)) == Inorder(Plug(c', t'))
    ensures DomC(c) + Dom(t) == DomC(c') + Dom(t')
  {
    PlugDistinct(c, t);
    PlugDistinct(c', t');
    InorderMembers(Plug(c, t));
    InorderMembers(Plug(c', t'));
  }

  lemma ParentColour(h: seq<Node>, nil: Id, head: Id, c: Ctx, t: Tree, x: Id, n: nat)
    requires Rising(h, nil, head, c, t, x, n)
    ensures h[x].parent < |h| && (h[h[x].parent].red <==> c.Step? && c.red)
  {}

  lemma GrandparentExists(c: Ctx, t: Tree, n: nat)
    requires RisingShape(c, t, n) && c.Step? && c.red
    ensures c.up.Step?
  {
    RedParent(c, t, n);
  }

  lemma TopFacts(h: seq<Node>, nil: Id, head: Id, t: Tree)
    requires head < |h| && Zip(h, nil, head, Top, t, h[head].left, head) && t.Bin?
    ensures h[head].left == t.id < |h| && t.id != nil && t.id != head && Distinct(t) && h[t.id].parent == head
    ensures nil < |h|
    ensures t.id in Dom(t) && DomC(Top) == {}
  {}

  // The freshly attached node, once red, is a rising node.
  lemma NewLeaf(h: seq<Node>, h': seq<Node>, nil: Id, head: Id, c: Ctx, z: Id) returns (n: nat)
    requires z < |h| && Zip(h, nil, head, c, Bin(Leaf, z, h[z].red, Leaf), z, h[z].parent)
    requires RedBlack(Plug(c, Leaf)) && h' == h[z := h[z].(red := true)]
    ensures Rising(h', nil, head, c, Bin(Leaf, z, true, Leaf), z, n)
  {
    var t := Bin(Leaf, z, h[z].red, Leaf);
    ZipFacts(h, nil, head, c, t, z, h[z].parent);
    ColourZip(h, nil, head, c, t, z, h[z].parent, z, true);
    ColAbsentC(c, z, true);
    PlugColours(c, Leaf);
    var m: nat :| Height(Plug(c, Leaf), m);
    n := UnplugHeight(c, Leaf, m);
  }

  lemma LeafInorder(c: Ctx, z: Id)
    ensures Inorder(Plug(c, Leaf)) == Before(c) + After(c)
    ensures Inorder(Plug(c, Bin(Leaf, z, true, Leaf))) == Before(c) + [z] + After(c)
    ensures Dom(Plug(c, Leaf)) + {z} == DomC(c) + Dom(Bin(Leaf, z, true, Leaf))
  {
    PlugInorder(c, Leaf);
    PlugInorder(c, Bin(Leaf, z, true, Leaf));
    PlugDistinct(c, Leaf);
  }

  // The ids of the subtree whose top is id.
  ghost function SubtreeOf(t: Tree, id: Id): set<Id> {
    if t.Leaf? then {}
    else if t.id == id then Dom(t)
    else SubtreeOf(t.left, id) + SubtreeOf(t.right, id)
  }

  lemma {:induction false} NotBelow(t: Tree, id: Id)
    requires id !in Dom(t)
    ensures SubtreeOf(t, id) == {}
  {
    if t.Bin? {
      NotBelow(t.left, id);
      NotBelow(t.right, id);
    }
  }

  lemma {:induction false} SubtreeAt(c: Ctx, t: Tree)
    requires t.Bin? && Distinct(Plug(c, t))
    ensures SubtreeOf(Plug(c, t), t.id) == Dom(t)
  {
    SubtreeAbove(c, t, t.id);
  }

  lemma {:induction false} SubtreeAbove(c: Ctx, t: Tree, id: Id)
    requires id in Dom(t) && Distinct(Plug(c, t))
    ensures SubtreeOf(Plug(c, t), id) == SubtreeOf(t, id)
  {
    if c.Step? {
      Sideways(c, t, id);
      hide Dom, SubtreeOf, Distinct;
      SubtreeAbove(c.up, Mk(c.d, t, c.id, c.red, c.sib), id);
    }
  }

  lemma Sideways(c: Ctx, t: Tree, id: Id)
    requires c.Step? && id in Dom(t) && Distinct(Plug(c, t))
    ensures var u := Mk(c.d, t, c.id, c.red, c.sib);
            id in Dom(u) && Distinct(Plug(c.up, u)) && SubtreeOf(u, id) == SubtreeOf(t, id)
  {
    PlugDistinct(c, t);
    NotBelow(c.sib, id);
  }

  // ---- neighbours in the in-order sequence

  function Kid(t: Tree, d: Dir): Tree
    requires t.Bin?
  {
    if d == L then t.left else t.right
  }

  // The first or last id of a tree.
  ghost function End(t: Tree, d: Dir): Id
    requires t.Bin?
  {
    if d == L then Inorder(t)[0] else Inorder(t)[|Inorder(t)| - 1]
  }

  lemma EndKid(t: Tree, d: Dir)
    requires t.Bin?
    ensures End(t, d) == if Kid(t, d).Bin? then End(Kid(t, d), d) else t.id
  {
    var l, r := Inorder(t.left), Inorder(t.right);
    assert t.left.Bin? ==> |l| > 0;
    assert t.right.Bin? ==> |r| > 0;
    assert Inorder(t) == l + [t.id] + r;
    assert |l| > 0 ==> Inorder(t)[0] == l[0];
    assert |r| > 0 ==> Inorder(t)[|l| + |r|] == r[|r| - 1];
  }

  lemma EndFacts(t: Tree)
    requires t.Bin?
    ensures |Inorder(t)| > 0 && End(t, L) == Inorder(t)[0] && End(t, R) == Inorder(t)[|Inorder(t)| - 1]
  {}

  lemma LeafEmpty()
    ensures Inorder(Leaf) == []
  {}

  lemma StepAfter(c: Ctx)
    ensures c.Top? ==> After(c) == []
    ensures c.Step? && c.d == R ==> After(c) == After(c.up)
    ensures c.Step? && c.d == L ==> |After(c)| > 0 && After(c)[0] == c.id
  {}

  lemma StepBefore(c: Ctx)
    ensures c.Top? ==> Before(c) == []
    ensures c.Step? && c.d == L ==> Before(c) == Before(c.up)
    ensures c.Step? && c.d == R ==> |Before(c)| > 0 && Before(c)[|Before(c)| - 1] == c.id
  {}

  // Into a child, if there is one.
  lemma KidZip(h: seq<Node>, nil: Id, head: Id, c: Ctx, t: Tree, y: Id, d: Dir)
    requires y < |h| && t.Bin? && Zip(h, nil, head, c, t, y, h[y].parent)
    ensures t.id == y && (Get(h[y], d) == nil <==> Kid(t, d).Leaf?)
    ensures Kid(t, d).Bin? ==>
              && Get(h[y], d) == Kid(t, d).id < |h| && h[Get(h[y], d)].parent == y
              && Zip(h, nil, head, Step(c, d, t.id, t.red, Kid(t, Flip(d))), Kid(t, d), Get(h[y], d), y)
  {
    ZipDown(h, nil, head, c, d, Kid(t, d), t.id, t.red, Kid(t, Flip(d)), y, h[y].parent);
    ZipFacts(h, nil, head, Step(c, d, t.id, t.red, Kid(t, Flip(d))), Kid(t, d), Get(h[y], d), y);
  }

  lemma OnSide(h: seq<Node>, nil: Id, head: Id, c: Ctx, t: Tree, x: Id, y: Id)
    requires Zip(h, nil, head, c, t, x, y) && t.Bin?
    ensures y < |h| && (x == h[y].right <==> c.Step? && c.d == R) && (x == h[y].left <==> c.Top? || c.d == L)
  {
    ZipFacts(h, nil, head, c, t, x, y);
    ChildSide(h, nil, head, c, x, y, L);
    ChildSide(h, nil, head, c, x, y, R);
  }

  // The focus can be put on any subtree of the tree.
  lemma At(h: seq<Node>, nil: Id, head: Id, tree: Tree, c: Ctx, t: Tree)
    requires head < |h| && Zip(h, nil, head, Top, tree, h[head].left, head) && Plug(c, t) == tree && t.Bin?
    ensures t.id < |h| && Zip(h, nil, head, c, t, t.id, h[t.id].parent)
  {
    var p, par := ZipTo(h, nil, head, c, t);
  }

  lemma {:induction false} ZipTo(h: seq<Node>, nil: Id, head: Id, c: Ctx, t: Tree) returns (p: Id, par: Id)
    requires head < |h| && Zip(h, nil, head, Top, Plug(c, t), h[head].left, head)
    ensures Zip(h, nil, head, c, t, p, par) && (t.Bin? ==> p == t.id < |h| && h[p].parent == par)
  {
    if c.Top? {
      p, par := h[head].left, head;
    } else {
      var t' := Mk(c.d, t, c.id, c.red, c.sib);
      var p', par' := ZipTo(h, nil, head, c.up, t');
      ZipDown(h, nil, head, c.up, c.d, t, c.id, c.red, c.sib, p', par');
      p, par := Get(h[c.id], c.d), c.id;
      ZipFacts(h, nil, head, c, t, p, par);
    }
  }

  lemma TreeDistinct(h: seq<Node>, nil: Id, head: Id, tree: Tree)
    requires head < |h| && Zip(h, nil, head, Top, tree, h[head].left, head)
    ensures Distinct(tree)
  {}

  // r is the id after x in the sequence, or nil if x is the last.
  ghost predicate NextOf(s: seq<Id>, x: Id, nil: Id, r: Id) {
    forall i :: 0 <= i < |s| && s[i] == x ==> r == if i + 1 < |s| then s[i + 1] else nil
  }

  // r is the id before x in the sequence, or nil if x is the first.
  ghost predicate PreviousOf(s: seq<Id>, x: Id, nil: Id, r: Id) {
    forall i :: 0 <= i < |s| && s[i] == x ==> r == if i > 0 then s[i - 1] else nil
  }

  // An id occurs once in the in-order sequence, so its neighbours there are those at its position.
  lemma Neighbours(tree: Tree, before: seq<Id>, x: Id, after: seq<Id>)
    requires Distinct(tree) && Inorder(tree) == before + [x] + after
    ensures var s := Inorder(tree);
            forall i :: 0 <= i < |s| && s[i] == x ==>
              && i == |before|
              && (i + 1 < |s| <==> |after| > 0) && (i + 1 < |s| ==> s[i + 1] == after[0])
              && (i > 0 <==> |before| > 0) && (i > 0 ==> s[i - 1] == before[|before| - 1])
  {
    OccursOnce(tree);
    var s := Inorder(tree);
    assert s[|before|] == x;
    assert |after| > 0 ==> s[|before| + 1] == after[0];
    assert |before| > 0 ==> s[|before| - 1] == before[|before| - 1];
  }

  lemma {:induction false} OccursOnce(t: Tree)
    requires Distinct(t)
    ensures forall i, j :: 0 <= i < j < |Inorder(t)| ==> Inorder(t)[i] != Inorder(t)[j]
  {
    if t.Bin? {
      OccursOnce(t.left);
      OccursOnce(t.right);
      InorderMembers(t.left);
      InorderMembers(t.right);
      var s, m := Inorder(t), |Inorder(t.left)|;
      forall i, j | 0 <= i < j < |s|
        ensures s[i] != s[j]
      {
        assert i < m ==> s[i] in Dom(t.left);
        assert j < m ==> s[j] in Dom(t.left);
        assert i > m ==> s[i] == Inorder(t.right)[i - m - 1] && s[i] in Dom(t.right);
        assert j > m ==> s[j] == Inorder(t.right)[j - m - 1] && s[j] in Dom(t.right);
      }
    }
  }

  // ---- the fix-up loop of deletion

  lemma NotAtTop(h: seq<Node>, nil: Id, head: Id, c: Ctx, t: Tree, x: Id, n: nat)
    requires Short(h, nil, head, c, t, x, n) && head < |h| && x != h[head].left
    ensures c.Step?
  {}

  lemma ShortColour(h: seq<Node>, nil: Id, head: Id, c: Ctx, t: Tree, x: Id, n: nat)
    requires Short(h, nil, head, c, t, x, n)
    ensures h[x].red <==> !Black(t)
  {}

  lemma ShortInDom(h: seq<Node>, nil: Id, head: Id, c: Ctx, t: Tree, x: Id, n: nat)
    requires Short(h, nil, head, c, t, x, n)
    ensures (x == nil && !h[nil].red) || x in Dom(t)
  {}

  lemma ShortOutside(h: seq<Node>, nil: Id, head: Id, c: Ctx, t: Tree, x: Id, n: nat)
    requires Short(h, nil, head, c, t, x, n)
    ensures nil !in DomC(c) + Dom(t) + {head}
  {}

  // When the loop ends without a final rotation, blackening x completes the tree.
  lemma FixupEnds(h: seq<Node>, h': seq<Node>, nil: Id, head: Id, c: Ctx, t: Tree, x: Id, n: nat)
    requires Short(h, nil, head, c, t, x, n) && head < |h| && h' == h[x := h[x].(red := false)]
    requires Black(t) ==> x == h[head].left
    ensures Zip(h', nil, head, Top, Plug(c, Blackened(t)), h'[head].left, head)
    ensures RedBlack(Plug(c, Blackened(t))) && Inorder(Plug(c, Blackened(t))) == Inorder(Plug(c, t))
  {
    if c.Step? {
      Around(h, nil, head, c, t, x, n);
    }
    BlackenedIsRedBlack(c, t, n);
    ZipFacts(h, nil, head, c, t, x, h[x].parent);
    if t.Bin? {
      ColourZip(h, nil, head, c, t, x, h[x].parent, x, false);
      ColTop(t, false);
      ColAbsentC(c, x, false);
    } else {
      assert h' == h;
    }
    ZipToTop(h', nil, head, c, Blackened(t), x, h'[x].parent);
  }

  // After the final rotation the cached root is a black node, whether or not it is still the top.
  lemma RootIsBlack(h: seq<Node>, nil: Id, head: Id, c: Ctx, t: Tree, near: Tree, w: Id, far: Tree, par: Id)
    requires c.Step? && Zip(h, nil, head, c.up, Rotated(c.d, t, c.id, false, near, w, c.red, Blackened(far)), w, par)
    requires RedBlack(Plug(c.up, SiblingUp(c, t, near, w, far)))
    ensures head < |h| && Zip(h, nil, head, Top, Plug(c.up, SiblingUp(c, t, near, w, far)), h[head].left, head)
    ensures c.id < |h| && !h[c.id].red && TopId(c) < |h| && !h[TopId(c)].red
  {
    var t' := SiblingUp(c, t, near, w, far);
    ZipToTop(h, nil, head, c.up, t', w, par);
    ZipDown(h, nil, head, c.up, c.d, Mk(c.d, t, c.id, false, near), w, c.red, Blackened(far), w, par);
    Pointer(h, nil, Mk(c.d, t, c.id, false, near), Get(h[w], c.d), w);
    if c.up.Step? {
      TopIdFacts(h, nil, head, c.up, w, par);
    }
  }

  // ---- deletion

  // The successor of a node with two children, at the end of a leftmost path below its right child.
  lemma NextPosition(h: seq<Node>, nil: Id, head: Id, tree: Tree, cz: Ctx, tz: Tree, y: Id) returns (d: Ctx, t: Tree)
    requires head < |h| && Zip(h, nil, head, Top, tree, h[head].left, head) && Plug(cz, tz) == tree
    requires tz.Bin? && tz.right.Bin?
    requires NextOf(Inorder(tree), tz.id, nil, y)
    ensures tz.right == Plug(d, t) && Before(d) == [] && t.Bin? && t == Bin(Leaf, y, t.red, t.right) && y != tz.id
  {
    AtTop(tz.right);
    d, t := LeftmostPath(tz.right, Top);
    PlugAround(cz, tz);
    TreeDistinct(h, nil, head, tree);
    Neighbours(tree, Before(cz) + Inorder(tz.left), tz.id, Inorder(tz.right) + After(cz));
    EndFacts(tz.right);
    var s, k := Inorder(tree), |Before(cz) + Inorder(tz.left)|;
    assert s[k] == tz.id;
    assert s == (Before(cz) + Inorder(tz.left)) + [tz.id] + (Inorder(tz.right) + After(cz));
    assert k + 1 < |s| && s[k + 1] == Inorder(tz.right)[0];
    assert y == s[k + 1];
    PlugDistinct(cz, tz);
    PlugDistinct(d, t);
  }

  lemma SpliceFacts(h: seq<Node>, nil: Id, head: Id, c: Ctx, t: Tree, y: Id)
    requires y < |h| && t.Bin? && (t.left.Leaf? || t.right.Leaf?) && Zip(h, nil, head, c, t, y, h[y].parent)
    ensures y == t.id && h[y].red == t.red && y != nil && y != head && h[y].parent < |h| && h[y].parent != y
    ensures h[y].left < |h| && h[y].right < |h|
    ensures var x := if h[y].left != nil then h[y].left else h[y].right;
            x != y && x != h[y].parent && (x == nil || x in Dom(t))
    ensures h[y].parent in DomC(c) + {head} && h[y].parent != nil
    ensures y == h[h[y].parent].left <==> c.Top? || c.d == L
  {
    ZipFacts(h, nil, head, c, t, y, h[y].parent);
    OnSide(h, nil, head, c, t, y, h[y].parent);
    Pointer(h, nil, t.left, h[y].left, y);
    Pointer(h, nil, t.right, h[y].right, y);
  }

  lemma RenamedShape(d: Ctx, b: Ctx, y: Id, s: Tree, n: nat)
    requires b.Step?
    ensures FitShape(App(d, b), s, n) ==> FitShape(App(d, b.(id := y)), s, n)
    ensures ShortShape(App(d, b), s, n) ==> ShortShape(App(d, b.(id := y)), s, n)
  {
    RenamedColours(d, b, y, n, !Black(s));
    RenamedColours(d, b, y, n + 1, false);
  }

  lemma RootListed(t: Tree)
    ensures t.Bin? ==> t.id in Inorder(t)
  {}

  class RedBlackTree {
    var heap: seq<Node>
    const nil: Id
    const head: Id  // the source's tree->root
    const key: Id -> int
    ghost var tree: Tree

    ghost predicate Sorted(s: seq<Id>) {
      forall i, j :: 0 <= i < j < |s| ==> key(s[i]) <= key(s[j])
    }

    ghost predicate Valid()
      reads this
    {
      && head < |heap| && Zip(heap, nil, head, Top, tree, heap[head].left, head)
      && RedBlack(tree) && Sorted(Inorder(tree))
    }

    // rb_tree_create, given the two sentinel nodes; the store's other slots belong to future nodes.
    constructor (nodes: seq<Node>, nilNode: Id, headNode: Id, order: Id -> int)
      requires nilNode != headNode && nilNode < |nodes| && headNode < |nodes|
      ensures Valid() && Inorder(tree) == [] && nil == nilNode && head == headNode && key == order
      ensures Untouched(nodes, heap, {nilNode, headNode})
    {
      var blank := Node(false, nilNode, nilNode, nilNode);
      heap := nodes[nilNode := blank][headNode := blank];
      nil, head, key, tree := nilNode, headNode, order, Leaf;
      new;
      assert Height(Leaf, 0);
    }

    // rb_insert
    method Insert(node: Id) returns (ghost k: nat)
      requires Valid() && node < |heap| && node != nil && node != head && node !in Dom(tree)
      modifies this
      ensures Valid()
      ensures k <= |old(Inorder(tree))| && Inorder(tree) == old(Inorder(tree))[..k] + [node] + old(Inorder(tree))[k..]
      ensures forall i :: 0 <= i < |old(Inorder(tree))| ==> (i < k <==> key(old(Inorder(tree))[i]) <= key(node))
      ensures |heap| == |old(heap)| && Untouched(old(heap), heap, Dom(tree) + {head})
    {
      hide Zip, RisingShape, RedBlack, Dom, DomC, Inorder, Before, After, Plug;
      ghost var c := InsertBinary(node);
      k := |Before(c)|;
      LeafInorder(c, node);
      ghost var h := heap;
      heap := heap[node := heap[node].(red := true)];
      ghost var n: nat;
      n := NewLeaf(h, heap, nil, head, c, node);
      ghost var t := Bin(Leaf, node, true, Leaf);
      InsertFixup(node, c, t, n);
      SortedWith(Before(c), node, After(c));
    }

    // The loop of rb_insert and the final colouring of the top.
    method InsertFixup(node: Id, ghost c0: Ctx, ghost t0: Tree, ghost n0: nat)
      requires Rising(heap, nil, head, c0, t0, node, n0)
      modifies this
      ensures head < |heap| && Zip(heap, nil, head, Top, tree, heap[head].left, head)
      ensures RedBlack(tree) && Inorder(tree) == Inorder(Plug(c0, t0)) && Dom(tree) == DomC(c0) + Dom(t0)
      ensures Untouched(old(heap), heap, DomC(c0) + Dom(t0) + {head})
    {
      hide Zip, RisingShape, Dom, DomC;
      var x := node;
      ghost var c, t, n := c0, t0, n0;
      SameIds(c, t, c, t);
      ParentColour(heap, nil, head, c, t, x, n);
      while heap[heap[x].parent].red
        invariant Rising(heap, nil, head, c, t, x, n) && Inorder(Plug(c, t)) == Inorder(Plug(c0, t0))
        invariant DomC(c) + Dom(t) == DomC(c0) + Dom(t0)
        invariant Untouched(old(heap), heap, DomC(c0) + Dom(t0) + {head})
        invariant heap[x].parent < |heap| && (heap[heap[x].parent].red <==> c.Step? && c.red)
        decreases Depth(c)
      {
        ghost var c1, t1 := c, t;
        GrandparentExists(c, t, n);
        Lineage(heap, nil, head, c, t, x);
        if heap[x].parent == heap[heap[heap[x].parent].parent].left {
          x, c, t, n := InsertSub(x, L, c, t, n);
        } else {
          x, c, t, n := InsertSub(x, R, c, t, n);
        }
        SameIds(c1, t1, c, t);
        ParentColour(heap, nil, head, c, t, x, n);
      }
      ZipToTop(heap, nil, head, c, t, x, heap[x].parent);
      RisenIsRedBlack(c, t, n);
      ghost var h, top := heap, Plug(c, t);
      SameIds(c, t, Top, top);
      TopFacts(h, nil, head, top);
      heap := heap[heap[head].left := heap[heap[head].left].(red := false)];
      ColourZip(h, nil, head, Top, top, top.id, head, top.id, false);
      ColTop(top, false);
      SameIds(Top, top, Top, top.(red := false));
      tree := top.(red := false);
      ZipFacts(heap, nil, head, Top, tree, heap[head].left, head);
      assert !heap[nil].red && !heap[head].red;
    }

    lemma SortedWith(before: seq<Id>, node: Id, after: seq<Id>)
      requires Sorted(before + after)
      requires forall i :: i in before ==> key(i) <= key(node)
      requires forall i :: i in after ==> key(i) > key(node)
      ensures Sorted(before + [node] + after)
      ensures var s := before + after; forall i :: 0 <= i < |s| ==> (i < |before| <==> key(s[i]) <= key(node))
    {
      var s, s' := before + after, before + [node] + after;
      forall i, j | 0 <= i < j < |s'|
        ensures key(s'[i]) <= key(s'[j])
      {
        var i', j' := if i > |before| then i - 1 else i, if j > |before| then j - 1 else j;
        assert i != |before| ==> s'[i] == s[i'];
        assert j != |before| ==> s'[j] == s[j'];
      }
    }

    ghost predicate Untouched(h: seq<Node>, h': seq<Node>, ids: set<Id>) {
      |h| == |h'| && forall i: Id :: i < |h| && i !in ids ==> h'[i] == h[i]
    }

    // The tail of rb_insert_binary: node z becomes a child of y.
    method Attach(z: Id, y: Id, ghost c: Ctx)
      requires Zip(heap, nil, head, c, Leaf, nil, y) && (c.Top? <==> y == head) && y < |heap|
      requires z < |heap| && z !in DomC(c) && z != nil && z != head && z != y
      requires heap[z].left == nil && heap[z].right == nil
      requires c.Step? ==> c.d == if key(y) > key(z) then L else R
      modifies this`heap
      ensures z < |heap| && Zip(heap, nil, head, c, Bin(Leaf, z, heap[z].red, Leaf), z, heap[z].parent)
      ensures Untouched(old(heap), heap, {y, z})
    {
      hide Zip;
      heap := heap[z := heap[z].(parent := y)];
      if y == head || key(y) > key(z) {
        heap := heap[y := heap[y].(left := z)];
      } else {
        heap := heap[y := heap[y].(right := z)];
      }
      AttachRep(old(heap), heap, nil, head, c, y, z);
    }

    // rb_insert_binary
    method InsertBinary(node: Id) returns (ghost c: Ctx)
      requires Valid() && node < |heap| && node != nil && node != head && node !in Dom(tree)
      modifies this`heap
      ensures node < |heap| && Zip(heap, nil, head, c, Bin(Leaf, node, heap[node].red, Leaf), node, heap[node].parent)
      ensures Plug(c, Leaf) == tree && node !in DomC(c)
      ensures forall i :: i in Before(c) ==> key(i) <= key(node)
      ensures forall i :: i in After(c) ==> key(i) > key(node)
      ensures Untouched(old(heap), heap, Dom(tree) + {head, node})
    {
      hide Zip, RedBlack, Dom, Inorder, Before, After;
      ghost var h := heap;
      var z := node;
      heap := heap[z := heap[z].(left := nil, right := nil)];
      var y: Id := head;
      var x: Id := heap[y].left;
      c := Top;
      ghost var t := tree;
      FrameZip(h, heap, nil, head, Top, tree, h[head].left, head);
      AtTop(tree);
      while x != nil
        invariant heap == h[z := h[z].(left := nil, right := nil)]
        invariant Zip(heap, nil, head, c, t, x, y) && Plug(c, t) == tree
        invariant c.Top? <==> y == head
        invariant c.Step? ==> y < |heap| && c.d == if key(y) > key(node) then L else R
        invariant forall i :: i in Before(c) ==> key(i) <= key(node)
        invariant forall i :: i in After(c) ==> key(i) > key(node)
        decreases t
      {
        ZipFacts(heap, nil, head, c, t, x, y);
        DescendOrder(c, t, key(node));
        y := x;
        if key(x) > key(node) {
          ZipDown(heap, nil, head, c, L, t.left, t.id, t.red, t.right, x, heap[x].parent);
          c, t := Step(c, L, t.id, t.red, t.right), t.left;
          x := heap[x].left;
        } else {
          ZipDown(heap, nil, head, c, R, t.right, t.id, t.red, t.left, x, heap[x].parent);
          c, t := Step(c, R, t.id, t.red, t.left), t.right;
          x := heap[x].right;
        }
      }
      ZipFacts(heap, nil, head, c, t, x, y);
      PlugDistinct(c, t);
      Attach(z, y, c);
    }

    // Where the search goes left, all later ids are above the key; where it goes right, all earlier ids are not.
    lemma DescendOrder(c: Ctx, t: Tree, k: int)
      requires t.Bin? && Sorted(Inorder(Plug(c, t)))
      requires forall i :: i in Before(c) ==> key(i) <= k
      requires forall i :: i in After(c) ==> key(i) > k
      ensures var left := Step(c, L, t.id, t.red, t.right);
              Before(left) == Before(c) && (key(t.id) > k ==> forall i :: i in After(left) ==> key(i) > k)
      ensures var right := Step(c, R, t.id, t.red, t.left);
              After(right) == After(c) && (key(t.id) <= k ==> forall i :: i in Before(right) ==> key(i) <= k)
      ensures Plug(Step(c, L, t.id, t.red, t.right), t.left) == Plug(c, t) ==
                Plug(Step(c, R, t.id, t.red, t.left), t.right)
    {
      SortedAround(c, t);
      assert forall i :: i in After(Step(c, L, t.id, t.red, t.right)) ==>
                           i == t.id || i in Inorder(t.right) || i in After(c);
      assert forall i :: i in Before(Step(c, R, t.id, t.red, t.left)) ==>
                           i in Before(c) || i in Inorder(t.left) || i == t.id;
    }

    lemma SortedAround(c: Ctx, t: Tree)
      requires t.Bin? && Sorted(Inorder(Plug(c, t)))
      ensures forall i :: i in Inorder(t.right) ==> key(t.id) <= key(i)
      ensures forall i :: i in Inorder(t.left) ==> key(i) <= key(t.id)
    {
      hide Inorder, Plug, Before, After;
      PlugAround(c, t);
      SortedBySides(Before(c) + Inorder(t.left), t.id, Inorder(t.right) + After(c));
    }

    lemma SortedBySides(before: seq<Id>, x: Id, after: seq<Id>)
      requires Sorted(before + [x] + after)
      ensures forall i :: i in before ==> key(i) <= key(x)
      ensures forall i :: i in after ==> key(x) <= key(i)
    {
      var s := before + [x] + after;
      assert s[|before|] == x;
      forall j | 0 <= j < |before|
        ensures key(before[j]) <= key(x)
      {
        assert s[j] == before[j];
      }
      forall j | 0 <= j < |after|
        ensures key(x) <= key(after[j])
      {
        assert s[|before| + 1 + j] == after[j];
      }
    }

    // RB_INSERT_SUB with _left == d, on a node whose parent is red and the d-child of the grandparent.
    method InsertSub(x0: Id, d: Dir, ghost c0: Ctx, ghost t0: Tree, ghost n0: nat)
      returns (x: Id, ghost c: Ctx, ghost t: Tree, ghost n: nat)
      requires Rising(heap, nil, head, c0, t0, x0, n0) && c0.Step? && c0.red && c0.up.Step? && c0.up.d == d
      modifies this`heap
      ensures Rising(heap, nil, head, c, t, x, n) && Inorder(Plug(c, t)) == Inorder(Plug(c0, t0))
      ensures Depth(c) < Depth(c0)
      ensures Untouched(old(heap), heap, DomC(c0) + Dom(t0) + {head})
    {
      hide Zip, Dom, DomC;
      x, c, t, n := x0, c0, t0, n0;
      Lineage(heap, nil, head, c, t, x);
      var p := heap[x].parent;
      var g := heap[p].parent;
      var y := Get(heap[g], Flip(d));
      if heap[y].red {
        PushUp(x, p, y, g, c, t, n);
        x, c, t, n := g, c.up.up, PushedUp(c, t), n + 1;
      } else {
        if x == Get(heap[p], Flip(d)) {
          x, c, t := Straighten(x, d, c, t, n);
        }
        c := Settle(x, d, c, t, n);
      }
    }

    // The red-uncle branch.
    method PushUp(x: Id, p: Id, y: Id, g: Id, ghost c: Ctx, ghost t: Tree, ghost n: nat)
      requires Rising(heap, nil, head, c, t, x, n) && c.Step? && c.red && c.up.Step? && !Black(c.up.sib)
      requires p == c.id && g == c.up.id && y == c.up.sib.id
      modifies this`heap
      ensures Rising(heap, nil, head, c.up.up, PushedUp(c, t), g, n + 1)
      ensures Inorder(Plug(c.up.up, PushedUp(c, t))) == Inorder(Plug(c, t))
      ensures Untouched(old(heap), heap, DomC(c) + Dom(t) + {head})
    {
      hide Zip;
      PushedUpShape(c, t, n);
      Lineage(heap, nil, head, c, t, x);
      ghost var h := heap;
      heap := heap[p := heap[p].(red := false)];
      heap := heap[y := heap[y].(red := false)];
      heap := heap[g := heap[g].(red := true)];
      PushUpRep(h, heap, nil, head, c, t, x);
    }

    // The inner-child branch: x becomes its parent, which is rotated below it.
    method Straighten(x0: Id, d: Dir, ghost c0: Ctx, ghost t0: Tree, ghost n: nat)
      returns (x: Id, ghost c: Ctx, ghost t: Tree)
      requires Rising(heap, nil, head, c0, t0, x0, n) && c0.Step? && c0.red && c0.up.Step? && Black(c0.up.sib)
      requires c0.up.d == d && c0.d == Flip(d)
      modifies this`heap
      ensures Rising(heap, nil, head, c, t, x, n) && c.Step? && c.red && c.up == c0.up && c.d == d
      ensures Inorder(Plug(c, t)) == Inorder(Plug(c0, t0)) && Depth(c) == Depth(c0)
      ensures DomC(c) + Dom(t) == DomC(c0) + Dom(t0)
      ensures Untouched(old(heap), heap, DomC(c0) + Dom(t0) + {head})
    {
      hide Zip, RisingShape, Dom, DomC;
      Lineage(heap, nil, head, c0, t0, x0);
      ghost var p, b, e := c0.id, if d == L then t0.left else t0.right, if d == L then t0.right else t0.left;
      BeforeStraighten(heap, nil, head, c0, t0, x0, n);
      x := heap[x0].parent;
      Rotate(x, d, c0.up, c0.sib, true, b, x0, true, e);
      AfterStraighten(heap, nil, head, c0, b, x0, e, c0.up.id);
      c, t := Step(c0.up, d, x0, true, e), Mk(d, c0.sib, p, true, b);
    }

    // The outer-child branch: recolour parent and grandparent and rotate the grandparent below the parent.
    method Settle(x: Id, d: Dir, ghost c0: Ctx, ghost t: Tree, ghost n: nat) returns (ghost c: Ctx)
      requires Rising(heap, nil, head, c0, t, x, n) && c0.Step? && c0.red && c0.up.Step? && Black(c0.up.sib)
      requires c0.up.d == d && c0.d == d
      modifies this`heap
      ensures Rising(heap, nil, head, c, t, x, n) && c.Step? && !c.red
      ensures Inorder(Plug(c, t)) == Inorder(Plug(c0, t)) && Depth(c) < Depth(c0)
      ensures Untouched(old(heap), heap, DomC(c0) + Dom(t) + {head})
    {
      hide Zip, RisingShape, Dom, DomC;
      Lineage(heap, nil, head, c0, t, x);
      ghost var h := heap;
      heap := heap[heap[x].parent := heap[heap[x].parent].(red := false)];
      var g := heap[heap[x].parent].parent;
      heap := heap[g := heap[g].(red := true)];
      BeforeSettle(h, heap, nil, head, c0, t, x, n);
      Rotate(g, Flip(d), c0.up.up, c0.up.sib, true, c0.sib, c0.id, false, t);
      AfterSettle(heap, nil, head, c0, t, x, h[g].parent);
      c := Settled(c0);
    }

    // rb_search with a compare function that orders nodes by their key; None is the source's NULL.
    method Search(k: int) returns (r: Option<Id>)
      requires Valid()
      ensures r.None? <==> forall i :: i in Dom(tree) ==> key(i) != k
      ensures r.Some? ==> r.value in Dom(tree) && key(r.value) == k
      ensures r.Some? ==> forall i :: i in Dom(tree) && key(i) == k ==> i in SubtreeOf(tree, r.value)
    {
      hide Zip, RedBlack, Dom, DomC, Inorder, Before, After;
      var node: Id := heap[head].left;
      ghost var c, t := Top, tree;
      AtTop(tree);
      ZipFacts(heap, nil, head, c, t, node, head);
      while node != nil && key(node) != k
        invariant exists par :: Zip(heap, nil, head, c, t, node, par)
        invariant Plug(c, t) == tree
        invariant forall i :: i in Before(c) ==> key(i) < k
        invariant forall i :: i in After(c) ==> key(i) > k
        invariant t.Leaf? <==> node == nil
        invariant t.Bin? ==> node == t.id < |heap|
        decreases t
      {
        ghost var par :| Zip(heap, nil, head, c, t, node, par);
        SearchOrder(c, t, k);
        if key(node) > k {
          ZipDown(heap, nil, head, c, L, t.left, t.id, t.red, t.right, node, par);
          c, t := Step(c, L, t.id, t.red, t.right), t.left;
          node := heap[node].left;
        } else {
          ZipDown(heap, nil, head, c, R, t.right, t.id, t.red, t.left, node, par);
          c, t := Step(c, R, t.id, t.red, t.left), t.right;
          node := heap[node].right;
        }
        ZipFacts(heap, nil, head, c, t, node, c.id);
      }
      TreeDistinct(heap, nil, head, tree);
      FoundAt(c, t, k);
      r := if node != nil then Some(node) else None;
    }

    lemma SearchOrder(c: Ctx, t: Tree, k: int)
      requires t.Bin? && Sorted(Inorder(Plug(c, t)))
      requires forall i :: i in Before(c) ==> key(i) < k
      requires forall i :: i in After(c) ==> key(i) > k
      ensures var left := Step(c, L, t.id, t.red, t.right);
              Before(left) == Before(c) && (key(t.id) > k ==> forall i :: i in After(left) ==> key(i) > k)
      ensures var right := Step(c, R, t.id, t.red, t.left);
              After(right) == After(c) && (key(t.id) < k ==> forall i :: i in Before(right) ==> key(i) < k)
      ensures Plug(Step(c, L, t.id, t.red, t.right), t.left) == Plug(c, t) ==
                Plug(Step(c, R, t.id, t.red, t.left), t.right)
    {
      SortedAround(c, t);
      assert forall i :: i in After(Step(c, L, t.id, t.red, t.right)) ==>
                           i == t.id || i in Inorder(t.right) || i in After(c);
      assert forall i :: i in Before(Step(c, R, t.id, t.red, t.left)) ==>
                           i in Before(c) || i in Inorder(t.left) || i == t.id;
    }

    // All ids with the key are in the subtree where the search ends.
    lemma FoundAt(c: Ctx, t: Tree, k: int)
      requires Distinct(Plug(c, t))
      requires forall i :: i in Before(c) ==> key(i) < k
      requires forall i :: i in After(c) ==> key(i) > k
      ensures forall i :: i in Dom(Plug(c, t)) && key(i) == k ==> i in Dom(t)
      ensures Dom(t) <= Dom(Plug(c, t))
      ensures t.Bin? ==> t.id in Dom(t) && SubtreeOf(Plug(c, t), t.id) == Dom(t)
      ensures t.Leaf? ==> Dom(t) == {}
    {
      PlugInorder(c, t);
      PlugDistinct(c, t);
      InorderMembers(Plug(c, t));
      InorderMembers(t);
      if t.Bin? {
        SubtreeAt(c, t);
      }
    }

    // The inner loops of rb_tree_successor and rb_tree_predecessor: the first (d == L) or last id of a subtree.
    method Extreme(y0: Id, d: Dir, ghost c0: Ctx, ghost t0: Tree) returns (y: Id)
      requires y0 < |heap| && t0.Bin? && Zip(heap, nil, head, c0, t0, y0, heap[y0].parent)
      ensures y == End(t0, d)
    {
      hide Zip, Inorder;
      y := y0;
      ghost var c, t := c0, t0;
      KidZip(heap, nil, head, c, t, y, d);
      while Get(heap[y], d) != nil
        invariant y < |heap| && t.Bin? && t.id == y && Zip(heap, nil, head, c, t, y, heap[y].parent)
        invariant End(t, d) == End(t0, d)
        invariant Get(heap[y], d) == nil <==> Kid(t, d).Leaf?
        decreases t
      {
        KidZip(heap, nil, head, c, t, y, d);
        EndKid(t, d);
        y, c, t := Get(heap[y], d), Step(c, d, t.id, t.red, Kid(t, Flip(d))), Kid(t, d);
        KidZip(heap, nil, head, c, t, y, d);
      }
      EndKid(t, d);
    }

    // rb_tree_successor
    method Successor(node: Id) returns (r: Id)
      requires Valid() && node in Dom(tree)
      ensures NextOf(Inorder(tree), node, nil, r)
    {
      hide Zip, RedBlack, Inorder, Before, After, Dom, DomC;
      ghost var c, t := Locate(tree, Top, node);
      At(heap, nil, head, tree, c, t);
      PlugAround(c, t);
      TreeDistinct(heap, nil, head, tree);
      Neighbours(tree, Before(c) + Inorder(t.left), node, Inorder(t.right) + After(c));
      var x: Id := node;
      KidZip(heap, nil, head, c, t, x, R);
      var y: Id := heap[x].right;
      if y != nil {
        EndFacts(t.right);
        r := Extreme(y, L, Step(c, R, x, t.red, t.left), t.right);
      } else {
        y := heap[x].parent;
        ghost var after := After(c);
        ZipFacts(heap, nil, head, c, t, x, y);
        OnSide(heap, nil, head, c, t, x, y);
        while x == heap[y].right
          invariant Zip(heap, nil, head, c, t, x, y) && t.Bin? && y < |heap| && After(c) == after
          invariant (x == heap[y].right <==> c.Step? && c.d == R) && (c.Step? ==> y == c.id && y != head)
          invariant (c.Top? ==> y == head)
          decreases c
        {
          ZipUp(heap, nil, head, c, t, x, y);
          StepAfter(c);
          x, t, c := y, Mk(c.d, t, c.id, c.red, c.sib), c.up;
          y := heap[y].parent;
          ZipFacts(heap, nil, head, c, t, x, y);
          OnSide(heap, nil, head, c, t, x, y);
        }
        StepAfter(c);
        LeafEmpty();
        r := if y == head then nil else y;
      }
    }

    // rb_tree_predecessor
    method Predecessor(node: Id) returns (r: Id)
      requires Valid() && node in Dom(tree)
      ensures PreviousOf(Inorder(tree), node, nil, r)
    {
      hide Zip, RedBlack, Inorder, Before, After, Dom, DomC;
      ghost var c, t := Locate(tree, Top, node);
      At(heap, nil, head, tree, c, t);
      PlugAround(c, t);
      TreeDistinct(heap, nil, head, tree);
      Neighbours(tree, Before(c) + Inorder(t.left), node, Inorder(t.right) + After(c));
      LeafEmpty();
      var x: Id := node;
      KidZip(heap, nil, head, c, t, x, L);
      var y: Id := heap[x].left;
      if y != nil {
        EndFacts(t.left);
        r := Extreme(y, R, Step(c, L, x, t.red, t.right), t.left);
      } else {
        y := heap[x].parent;
        ghost var before := Before(c);
        ZipFacts(heap, nil, head, c, t, x, y);
        OnSide(heap, nil, head, c, t, x, y);
        while x == heap[y].left
          invariant Zip(heap, nil, head, c, t, x, y) && t.Bin? && y < |heap| && Before(c) == before
          invariant (x == heap[y].left <==> c.Top? || c.d == L) && (c.Step? ==> y == c.id && y != head)
          invariant (c.Top? ==> y == head)
          decreases c
        {
          StepBefore(c);
          if y == head {
            return nil;
          }
          ZipUp(heap, nil, head, c, t, x, y);
          x, t, c := y, Mk(c.d, t, c.id, c.red, c.sib), c.up;
          y := heap[y].parent;
          ZipFacts(heap, nil, head, c, t, x, y);
          OnSide(heap, nil, head, c, t, x, y);
        }
        StepBefore(c);
        r := y;
      }
    }

    // rb_delete
    method Delete(node: Id) returns (ghost k: nat)
      requires Valid() && node in Dom(tree)
      modifies this
      ensures Valid()
      ensures k < |old(Inorder(tree))| && old(Inorder(tree))[k] == node
      ensures Inorder(tree) == Without(old(Inorder(tree)), k)
      ensures Untouched(old(heap), heap, old(Dom(tree)) + {head, nil})
    {
      hide Zip, RedBlack, Dom, DomC, Inorder, Before, After, Plug, ShortShape, FitShape, App;
      var z := node;
      ghost var cz, tz := Locate(tree, Top, z);
      AtTop(tree);
      At(heap, nil, head, tree, cz, tz);
      KidZip(heap, nil, head, cz, tz, z, L);
      KidZip(heap, nil, head, cz, tz, z, R);
      k := |Before(cz) + Inorder(tz.left)|;
      ghost var c, t, d := cz, tz, Top;
      var y := z;
      if heap[z].left == nil || heap[z].right == nil {
        SplicedInorder(cz, tz);
      } else {
        y := Successor(z);
        d, t := NextPosition(heap, nil, head, tree, cz, tz, y);
        c := App(d, Step(cz, R, z, tz.red, tz.left));
        TakeoverInorder(cz, tz, d, y, t.red, t.right);
        TakeoverPlug(cz, tz, d, y, t.red, t.right);
        At(heap, nil, head, tree, c, t);
      }
      SameIds(Top, tree, c, t);
      NoDomAtTop();
      OnlyChildDom(t);
      ghost var n := SplicedShape(c, t);
      var x := Splice(y, c, t);
      var needFixup := !heap[y].red;
      ghost var s := OnlyChild(t);
      if y != z {
        c := Takeover(z, y, x, d, cz, tz.red, tz.left, s);
        RenamedShape(d, Step(cz, R, z, tz.red, tz.left), y, s, n);
        TakeoverDom(d, cz, z, y, tz.red, tz.left);
      }
      Repair(x, needFixup, c, s, n);
      RemoveSorted(old(Inorder(tree)), k);
    }

    // The end of rb_delete.
    method Repair(x: Id, needFixup: bool, ghost c: Ctx, ghost s: Tree, ghost n: nat)
      requires x < |heap| && Zip(heap, nil, head, c, s, x, heap[x].parent)
      requires if s.Leaf? then x == nil else x == s.id
      requires if needFixup then ShortShape(c, s, n) else FitShape(c, s, n)
      modifies this
      ensures head < |heap| && Zip(heap, nil, head, Top, tree, heap[head].left, head)
      ensures RedBlack(tree) && Inorder(tree) == Inorder(Plug(c, s))
      ensures Untouched(old(heap), heap, DomC(c) + Dom(s) + {head})
    {
      hide Zip, RedBlack, Dom, DomC, Inorder, Plug, ShortShape, FitShape;
      if needFixup {
        DeleteFixup(x, c, s, n);
      } else {
        ZipToTop(heap, nil, head, c, s, x, heap[x].parent);
        FitIsRedBlack(c, s, n);
        tree := Plug(c, s);
      }
    }

    // The splice at the start of rb_delete.
    method Splice(y: Id, ghost c: Ctx, ghost t: Tree) returns (x: Id)
      requires y < |heap| && t.Bin? && (t.left.Leaf? || t.right.Leaf?) && Zip(heap, nil, head, c, t, y, heap[y].parent)
      modifies this`heap
      ensures x < |heap| && y < |heap| && Zip(heap, nil, head, c, OnlyChild(t), x, heap[x].parent)
      ensures (if OnlyChild(t).Leaf? then x == nil else x == OnlyChild(t).id) && y !in Dom(OnlyChild(t)) + DomC(c)
      ensures heap[y] == old(heap[y]) && heap[y].red == t.red && y == t.id && y != nil && y != head
      ensures Untouched(old(heap), heap, DomC(c) + Dom(t) + {head, nil})
    {
      hide Zip, Dom, DomC;
      ghost var h := heap;
      SpliceFacts(h, nil, head, c, t, y);
      x := if heap[y].left != nil then heap[y].left else heap[y].right;
      assert y != head && y != nil;
      heap := heap[x := heap[x].(parent := heap[y].parent)];
      var p := heap[y].parent;
      if y == heap[p].left {
        heap := heap[p := heap[p].(left := x)];
      } else {
        heap := heap[p := heap[p].(right := x)];
      }
      SplicedRep(h, heap, nil, head, c, t, y, x, h[y].parent);
    }

    // The branch of rb_delete in which the spliced-out y takes the place of z.
    method Takeover(z: Id, y: Id, x: Id, ghost d: Ctx, ghost cz: Ctx, ghost rz: bool, ghost l: Tree, ghost s: Tree)
      returns (ghost c: Ctx)
      requires x < |heap| && y < |heap| && l.Bin? && y != nil && y != head
      requires Zip(heap, nil, head, App(d, Step(cz, R, z, rz, l)), s, x, heap[x].parent)
      requires y !in Dom(s) + DomC(App(d, Step(cz, R, z, rz, l)))
      modifies this`heap
      ensures c == App(d, Step(cz, R, y, rz, l)) && x < |heap| && Zip(heap, nil, head, c, s, x, heap[x].parent)
      ensures Untouched(old(heap), heap, DomC(App(d, Step(cz, R, z, rz, l))) + Dom(s) + {y, head, nil})
    {
      hide Zip, RepT, RepC, RepSeg, Dom, DomC, Distinct, DistinctC, App;
      ghost var h := heap;
      ZipParts(h, nil, head, d, cz, z, rz, l, s, x, h[x].parent, y);
      RightChild(h, nil, head, d, cz, z, rz, l, s, x, h[x].parent, y);
      TakeoverDom(d, cz, z, y, rz, l);
      ChildSide(h, nil, head, cz, z, h[z].parent, L);
      TakeoverPointers(z, y, if cz.Top? then L else cz.d);
      TakeoverRep(h, heap, nil, head, d, cz, z, rz, l, s, x, h[x].parent, y);
      c := App(d, Step(cz, R, y, rz, l));
    }

    method TakeoverPointers(z: Id, y: Id, ghost side: Dir)
      requires z < |heap| && y < |heap| && heap[z].parent < |heap| && heap[z].left < |heap| && heap[z].right < |heap|
      requires y != z && heap[z].parent != z && heap[z].parent != y
      requires heap[z].left != z && heap[z].right != z && heap[z].left != y && heap[z].right != y
      requires heap[z].left != heap[z].parent && heap[z].right != heap[z].parent && heap[z].left != heap[z].right
      requires z == heap[heap[z].parent].left <==> side == L
      modifies this`heap
      ensures TakeoverWrites(old(heap), heap, z, y, side)
    {
      var p := heap[z].parent;
      if z == heap[p].left {
        heap := heap[p := heap[p].(left := y)];
      } else {
        heap := heap[p := heap[p].(right := y)];
      }
      assert heap == old(heap)[p := Set(old(heap)[p], side, y)];
      var r := heap[z].right;
      heap := heap[r := heap[r].(parent := y)];
      var l := heap[z].left;
      heap := heap[l := heap[l].(parent := y)];
      heap := heap[y := heap[z]];
    }

    lemma RemoveSorted(s: seq<Id>, k: nat)
      requires Sorted(s) && k < |s|
      ensures Sorted(Without(s, k))
    {
      var s' := Without(s, k);
      assert forall i :: 0 <= i < |s'| ==> s'[i] == s[if i < k then i else i + 1];
    }

    // rb_delete_fixup; the tree it leaves is red-black, with the same ids in the same order.
    method DeleteFixup(node: Id, ghost c0: Ctx, ghost t0: Tree, ghost n0: nat)
      requires Short(heap, nil, head, c0, t0, node, n0)
      modifies this
      ensures head < |heap| && Zip(heap, nil, head, Top, tree, heap[head].left, head)
      ensures RedBlack(tree) && Inorder(tree) == Inorder(Plug(c0, t0))
      ensures Untouched(old(heap), heap, DomC(c0) + Dom(t0) + {head})
    {
      hide Zip, ShortShape, Dom, DomC, RedBlack;
      var x: Id := node;
      ZipFacts(heap, nil, head, c0, t0, x, heap[x].parent);
      var root := heap[head].left;
      ghost var c, t, n: nat, done := c0, t0, n0, false;
      SameIds(c, t, c, t);
      ShortColour(heap, nil, head, c, t, x, n);
      while x != root && !heap[x].red
        invariant x < |heap| && head < |heap| && nil < |heap|
        invariant done ==> x == root && !heap[x].red && Zip(heap, nil, head, Top, tree, heap[head].left, head) &&
                           RedBlack(tree) && Inorder(tree) == Inorder(Plug(c0, t0))
        invariant !done ==> Short(heap, nil, head, c, t, x, n) && Inorder(Plug(c, t)) == Inorder(Plug(c0, t0))
        invariant !done ==> (heap[x].red <==> !Black(t)) && (Black(t) ==> root == heap[head].left)
        invariant !done ==> DomC(c) + Dom(t) == DomC(c0) + Dom(t0)
        invariant Untouched(old(heap), heap, DomC(c0) + Dom(t0) + {head})
        decreases if done || !Black(t) then 0 else 1 + Depth(c)
      {
        NotAtTop(heap, nil, head, c, t, x, n);
        Around(heap, nil, head, c, t, x, n);
        ghost var c1, t1 := c, t;
        if x == heap[heap[x].parent].left {
          x, c, t, n, done := DeleteFixupSub(x, L, root, c, t, n);
        } else {
          x, c, t, n, done := DeleteFixupSub(x, R, root, c, t, n);
        }
        if !done {
          SameIds(c1, t1, c, t);
          ShortColour(heap, nil, head, c, t, x, n);
        }
      }
      ghost var h := heap;
      heap := heap[x := heap[x].(red := false)];
      if done {
        assert heap == h;
      } else {
        FixupEnds(h, heap, nil, head, c, t, x, n);
        tree := Plug(c, Blackened(t));
        ShortInDom(h, nil, head, c, t, x, n);
      }
    }

    // RB_DELETE_FIXUP_SUB with _left == d; `done` tells that the tree, put in the field, is repaired.
    method DeleteFixupSub(x0: Id, d: Dir, root: Id, ghost c0: Ctx, ghost t0: Tree, ghost n0: nat)
      returns (x: Id, ghost c: Ctx, ghost t: Tree, ghost n: nat, ghost done: bool)
      requires Short(heap, nil, head, c0, t0, x0, n0) && c0.Step? && c0.d == d && Black(t0) && head < |heap|
      requires root == heap[head].left
      modifies this
      ensures x < |heap| && head < |heap| && |heap| == |old(heap)|
      ensures done ==> x == root && !heap[x].red && Zip(heap, nil, head, Top, tree, heap[head].left, head) &&
                       RedBlack(tree) && Inorder(tree) == Inorder(Plug(c0, t0))
      ensures !done ==> Short(heap, nil, head, c, t, x, n) && Inorder(Plug(c, t)) == Inorder(Plug(c0, t0))
      ensures !done && Black(t) ==> root == heap[head].left
      ensures !done && Black(t) ==> Depth(c) < Depth(c0)
      ensures Untouched(old(heap), heap, DomC(c0) + Dom(t0) + {head})
    {
      hide Zip, ShortShape, Dom, DomC, RedBlack;
      Around(heap, nil, head, c0, t0, x0, n0);
      SameIds(c0, t0, c0, t0);
      var w := Get(heap[heap[x0].parent], Flip(d));
      c := c0;
      if heap[w].red {
        c := RaiseRedSibling(x0, w, d, c0, t0, n0);
        SameIds(c0, t0, c, t0);
        Around(heap, nil, head, c, t0, x0, n0);
        w := Get(heap[heap[x0].parent], Flip(d));
      }
      x, c, t, n, done := BlackSibling(x0, w, d, root, c, t0, n0);
    }

    // The rest of the macro, where the sibling w is black.
    method BlackSibling(x0: Id, w0: Id, d: Dir, root: Id, ghost c0: Ctx, ghost t0: Tree, ghost n0: nat)
      returns (x: Id, ghost c: Ctx, ghost t: Tree, ghost n: nat, ghost done: bool)
      requires Short(heap, nil, head, c0, t0, x0, n0) && c0.Step? && c0.d == d && Black(t0)
      requires c0.sib.Bin? && !c0.sib.red && w0 == c0.sib.id && (root == c0.id || root == TopId(c0))
      modifies this
      ensures x < |heap| && head < |heap| && |heap| == |old(heap)|
      ensures done ==> x == root && !heap[x].red && Zip(heap, nil, head, Top, tree, heap[head].left, head) &&
                       RedBlack(tree) && Inorder(tree) == Inorder(Plug(c0, t0))
      ensures !done ==> Short(heap, nil, head, c, t, x, n) && Inorder(Plug(c, t)) == Inorder(Plug(c0, t0))
      ensures !done ==> heap[head].left == old(heap)[head].left && c == c0.up && Black(t) == !c0.red
      ensures Untouched(old(heap), heap, DomC(c0) + Dom(t0) + {head})
    {
      hide Zip, ShortShape, Dom, DomC, RedBlack;
      x, c, t, n, done := x0, c0, t0, n0, false;
      ZipFacts(heap, nil, head, c, t, x, heap[x].parent);
      Around(heap, nil, head, c, t, x, n);
      Nephews(heap, nil, head, c, t, x, n, Kid(c.sib, d), w0, Kid(c.sib, Flip(d)));
      if !heap[Get(heap[w0], d)].red && !heap[Get(heap[w0], Flip(d))].red {
        x, c, t, n := ReddenSibling(x, w0, d, c, t, n);
      } else {
        RaiseNephews(x, w0, d, root, c, t, n);
        x, done := root, true;
      }
    }

    // Case 2 of the macro.
    method ReddenSibling(x0: Id, w: Id, d: Dir, ghost c0: Ctx, ghost t0: Tree, ghost n0: nat)
      returns (x: Id, ghost c: Ctx, ghost t: Tree, ghost n: nat)
      requires Short(heap, nil, head, c0, t0, x0, n0) && c0.Step? && c0.d == d && Black(t0) && head < |heap|
      requires c0.sib.Bin? && !c0.sib.red && w == c0.sib.id && Black(Kid(c0.sib, d)) && Black(Kid(c0.sib, Flip(d)))
      modifies this`heap
      ensures Short(heap, nil, head, c, t, x, n) && Inorder(Plug(c, t)) == Inorder(Plug(c0, t0))
      ensures |heap| == |old(heap)| && heap[head].left == old(heap)[head].left && c == c0.up && Black(t) == !c0.red
      ensures Untouched(old(heap), heap, DomC(c0) + Dom(t0) + {head})
    {
      hide Zip, ShortShape, Dom, DomC;
      ghost var h := heap;
      Around(h, nil, head, c0, t0, x0, n0);
      SiblingReddenedShape(c0, t0, n0);
      heap := heap[w := heap[w].(red := true)];
      x := heap[x0].parent;
      SiblingReddenedRep(h, heap, nil, head, c0, t0, x0, n0);
      c, t, n := c0.up, SiblingReddened(c0, t0), if c0.red then n0 else n0 + 1;
    }

    // Cases 3 and 4.
    method RaiseNephews(x: Id, w0: Id, d: Dir, root: Id, ghost c0: Ctx, ghost t: Tree, ghost n: nat)
      requires Short(heap, nil, head, c0, t, x, n) && c0.Step? && c0.d == d && Black(t)
      requires c0.sib.Bin? && !c0.sib.red && w0 == c0.sib.id && (root == c0.id || root == TopId(c0))
      requires !(Black(Kid(c0.sib, d)) && Black(Kid(c0.sib, Flip(d))))
      modifies this
      ensures head < |heap| && |heap| == |old(heap)| && root < |heap| && !heap[root].red
      ensures Zip(heap, nil, head, Top, tree, heap[head].left, head)
      ensures RedBlack(tree) && Inorder(tree) == Inorder(Plug(c0, t))
      ensures Untouched(old(heap), heap, DomC(c0) + Dom(t) + {head})
    {
      hide Zip, ShortShape, Dom, DomC, RedBlack;
      ghost var c := c0;
      var w := w0;
      Around(heap, nil, head, c, t, x, n);
      Nephews(heap, nil, head, c, t, x, n, Kid(c.sib, d), w, Kid(c.sib, Flip(d)));
      if !heap[Get(heap[w], Flip(d))].red {
        c := RaiseNephew(x, w, d, c0, t, n);
        SameIds(c0, t, c, t);
        Around(heap, nil, head, c, t, x, n);
        w := Get(heap[heap[x].parent], Flip(d));
      }
      RaiseSibling(x, w, d, root, c, t, n);
    }

    // Case 1 of the macro.
    method RaiseRedSibling(x: Id, w: Id, d: Dir, ghost c: Ctx, ghost t: Tree, ghost n: nat) returns (ghost c': Ctx)
      requires Short(heap, nil, head, c, t, x, n) && c.Step? && c.d == d && c.sib.Bin? && c.sib.red && w == c.sib.id
      modifies this`heap
      ensures Short(heap, nil, head, c', t, x, n) && c'.Step? && c'.red && c'.d == d && c'.id == c.id && c'.sib.Bin?
      ensures !c'.sib.red
      ensures Inorder(Plug(c', t)) == Inorder(Plug(c, t)) && c'.up.Step?
      ensures c.up.Step? ==> TopId(c') == TopId(c)
      ensures Untouched(old(heap), heap, DomC(c) + Dom(t) + {head})
    {
      hide Zip, ShortShape, Dom, DomC;
      ghost var h := heap;
      ghost var near, far := Kid(c.sib, d), Kid(c.sib, Flip(d));
      Around(h, nil, head, c, t, x, n);
      ShortOutside(h, nil, head, c, t, x, n);
      RedSiblingUpShape(c, near, w, far, t, n);
      heap := heap[w := heap[w].(red := false)];
      heap := heap[heap[x].parent := heap[heap[x].parent].(red := true)];
      BeforeRedSiblingUp(h, heap, nil, head, c, t, x, n, near, w, far);
      Rotate(heap[x].parent, d, c.up, t, true, near, w, false, far);
      ghost var p := AfterRedSiblingUp(heap, nil, head, c, t, near, w, far, h[c.id].parent);
      c' := RedSiblingUp(c, near, w, far);
      SiblingExists(c', t, n);
    }

    // Case 3 of the macro.
    method RaiseNephew(x: Id, w: Id, d: Dir, ghost c: Ctx, ghost t: Tree, ghost n: nat) returns (ghost c': Ctx)
      requires Short(heap, nil, head, c, t, x, n) && c.Step? && c.d == d && c.sib.Bin? && !c.sib.red && w == c.sib.id
      requires !Black(Kid(c.sib, d)) && Black(Kid(c.sib, Flip(d)))
      modifies this`heap
      ensures Short(heap, nil, head, c', t, x, n) && c'.Step? && c'.d == d && c'.id == c.id && c'.red == c.red
      ensures c'.up == c.up
      ensures c'.sib.Bin? && !c'.sib.red && !Black(Kid(c'.sib, Flip(d)))
      ensures Inorder(Plug(c', t)) == Inorder(Plug(c, t))
      ensures Untouched(old(heap), heap, DomC(c) + Dom(t) + {head})
    {
      hide Zip, ShortShape, Dom, DomC;
      ghost var h := heap;
      ghost var near, far := Kid(c.sib, d), Kid(c.sib, Flip(d));
      ghost var a, v, b := Kid(near, d), near.id, Kid(near, Flip(d));
      Around(h, nil, head, c, t, x, n);
      ShortOutside(h, nil, head, c, t, x, n);
      Nephews(h, nil, head, c, t, x, n, near, w, far);
      NephewUpShape(c, a, v, b, w, far, t, n);
      var v' := Get(heap[w], d);
      heap := heap[v' := heap[v'].(red := false)];
      heap := heap[w := heap[w].(red := true)];
      BeforeNephewUp(h, heap, nil, head, c, t, x, n, a, v, b, w, far);
      Rotate(w, Flip(d), Step(c.up, Flip(d), c.id, c.red, t), far, true, b, v, false, a);
      ghost var p := AfterNephewUp(heap, nil, head, c, t, a, v, b, w, far, c.id);
      c' := NephewUp(c, a, v, b, w, far);
    }

    // Case 4 of the macro.
    method RaiseSibling(x: Id, w: Id, d: Dir, root: Id, ghost c: Ctx, ghost t: Tree, ghost n: nat)
      requires Short(heap, nil, head, c, t, x, n) && c.Step? && c.d == d && Black(t)
      requires c.sib.Bin? && !c.sib.red && w == c.sib.id && !Black(Kid(c.sib, Flip(d)))
      requires root == c.id || root == TopId(c)
      modifies this
      ensures head < |heap| && root < |heap| && Zip(heap, nil, head, Top, tree, heap[head].left, head)
      ensures !heap[root].red && RedBlack(tree) && Inorder(tree) == Inorder(Plug(c, t))
      ensures Untouched(old(heap), heap, DomC(c) + Dom(t) + {head})
    {
      hide Zip, ShortShape, Dom, DomC, RedBlack;
      ghost var h := heap;
      ghost var near, far := Kid(c.sib, d), Kid(c.sib, Flip(d));
      Around(h, nil, head, c, t, x, n);
      Nephews(h, nil, head, c, t, x, n, near, w, far);
      SiblingUpShape(c, t, near, w, far, n);
      var p := heap[x].parent;
      heap := heap[w := heap[w].(red := heap[p].red)];
      heap := heap[p := heap[p].(red := false)];
      var f := Get(heap[w], Flip(d));
      heap := heap[f := heap[f].(red := false)];
      BeforeSiblingUp(h, heap, nil, head, c, t, x, n, near, w, far);
      Rotate(p, d, c.up, t, false, near, w, c.red, Blackened(far));
      ghost var t' := SiblingUp(c, t, near, w, far);
      RootIsBlack(heap, nil, head, c, t, near, w, far, h[p].parent);
      tree := Plug(c.up, t');
    }

    // check_tree: none of its assertions fails on a tree in order, and it returns one more than the black height.
    method CheckTree(node: Id, ghost t: Tree, ghost par: Id, ghost n: nat) returns (hb: nat)
      requires nil < |heap| && !heap[nil].red && RepT(heap, nil, t, node, par) && nil !in Dom(t)
      requires NoRedRed(t) && Height(t, n) && Sorted(Inorder(t))
      ensures hb == n + 1
      decreases t
    {
      if node == nil {
        assert t.Leaf?;
        return 1;
      }
      ghost var n' := if t.red then n else n - 1;
      Pointer(heap, nil, t.left, heap[node].left, node);
      Pointer(heap, nil, t.right, heap[node].right, node);
      ChildrenSorted(t);
      if heap[node].left != nil {
        assert key(node) - key(heap[node].left) >= 0;
        assert heap[heap[node].left].parent == node;
      }
      if heap[node].right != nil {
        assert key(node) - key(heap[node].right) <= 0;
        assert heap[heap[node].right].parent == node;
      }
      if heap[node].red {
        assert !heap[heap[node].left].red && !heap[heap[node].right].red;
      }
      var hbLeft := CheckTree(heap[node].left, t.left, node, n');
      var hbRight := CheckTree(heap[node].right, t.right, node, n');
      assert hbLeft == hbRight;
      hb := hbLeft;
      if !heap[node].red {
        hb := hb + 1;
      }
    }

    lemma ChildrenSorted(t: Tree)
      requires t.Bin? && Sorted(Inorder(t))
      ensures Sorted(Inorder(t.left)) && Sorted(Inorder(t.right))
      ensures t.left.Bin? ==> key(t.left.id) <= key(t.id)
      ensures t.right.Bin? ==> key(t.id) <= key(t.right.id)
    {
      SidesSorted(Inorder(t.left), t.id, Inorder(t.right));
      SortedBySides(Inorder(t.left), t.id, Inorder(t.right));
      hide Sorted;
      RootListed(t.left);
      RootListed(t.right);
    }

    lemma SidesSorted(l: seq<Id>, x: Id, r: seq<Id>)
      requires Sorted(l + [x] + r)
      ensures Sorted(l) && Sorted(r)
    {
      var s := l + [x] + r;
      assert forall i :: 0 <= i < |l| ==> l[i] == s[i];
      assert forall i :: 0 <= i < |r| ==> r[i] == s[|l| + 1 + i];
    }

    // FUNC_ROTATE; the ghost arguments name the position and the parts of the rotated tree.
    method Rotate(x: Id, d: Dir, ghost c: Ctx, ghost a: Tree, ghost rx: bool, ghost b: Tree, ghost y0: Id,
                  ghost ry: bool, ghost e: Tree)
      requires x < |heap| && Zip(heap, nil, head, c, Unrotated(d, a, x, rx, b, y0, ry, e), x, heap[x].parent)
      modifies this`heap
      ensures |heap| == |old(heap)|
      ensures Zip(heap, nil, head, c, Rotated(d, a, x, rx, b, y0, ry, e), y0, old(heap[x].parent))
      ensures Dom(Rotated(d, a, x, rx, b, y0, ry, e)) == Dom(Unrotated(d, a, x, rx, b, y0, ry, e))
      ensures Untouched(old(heap), heap, DomC(c) + Dom(Unrotated(d, a, x, rx, b, y0, ry, e)) + {head})
    {
      hide Zip, RepT, RepC, Dom, DomC, Distinct, DistinctC;
      ghost var h := heap;
      UnrotatedParts(h, nil, head, c, h[x].parent, d, a, x, rx, b, y0, ry, e);
      ParentOfCApart(h, nil, head, c, h[x].parent, d, a, x, rx, b, y0, ry, e);
      Pointer(h, nil, b, Get(h[y0], d), y0);
      ChildSide(h, nil, head, c, x, h[x].parent, d);
      RotatePointers(x, d, if c.Top? then L else c.d);
      RotationRep(h, heap, nil, head, c, h[x].parent, d, a, x, rx, b, y0, ry, e);
      forall i: Id | i < |h| && i !in DomC(c) + Dom(Unrotated(d, a, x, rx, b, y0, ry, e)) + {head}
        ensures heap[i] == h[i]
      {
        RotationUntouched(h, heap, nil, head, c, h[x].parent, d, a, x, rx, b, y0, ry, e, i);
      }
      assert !heap[nil].red;
    }

    // The assignments of FUNC_ROTATE, in the source's order.
    method RotatePointers(x: Id, d: Dir, ghost side: Dir)
      requires x < |heap| && Get(heap[x], Flip(d)) < |heap| && heap[x].parent < |heap|
      requires x != head && x != nil && Get(heap[x], Flip(d)) != nil
      requires var y := Get(heap[x], Flip(d)); var b := Get(heap[y], d); var p := heap[x].parent;
               && x != y && p != x && p != y && (b != nil ==> b < |heap| && b != x && b != y && b != p)
               && (x == Get(heap[p], d) <==> d == side)
      modifies this`heap
      ensures RotationWrites(old(heap), heap, nil, d, x, side)
    {
      var y := Get(heap[x], Flip(d));
      assert x != head && x != nil && y != nil;
      MoveInner(x, y, d);
      MoveOuter(x, y, d, side);
    }

    // The first half of FUNC_ROTATE: x takes over the inner subtree of y, and y the parent of x.
    method MoveInner(x: Id, y: Id, d: Dir)
      requires x < |heap| && y < |heap| && x != y
      requires var b := Get(heap[y], d); b != nil ==> b < |heap| && b != x && b != y
      modifies this`heap
      ensures |heap| == |old(heap)|
      ensures var b := old(Get(heap[y], d));
              forall i :: 0 <= i < |heap| ==>
                heap[i] == if i == x then Set(old(heap[x]), Flip(d), b)
                           else if i == y then old(heap[y]).(parent := old(heap[x]).parent)
                           else if i == b && b != nil then old(heap)[i].(parent := x)
                           else old(heap)[i]
    {
      heap := heap[x := Set(heap[x], Flip(d), Get(heap[y], d))];
      if Get(heap[y], d) != nil {
        var b := Get(heap[y], d);
        heap := heap[b := heap[b].(parent := x)];
      }
      heap := heap[y := heap[y].(parent := heap[x].parent)];
    }

    // The second half: the parent points to y, and y to x.
    method MoveOuter(x: Id, y: Id, d: Dir, ghost side: Dir)
      requires x < |heap| && y < |heap| && heap[x].parent < |heap| && x != y
      requires heap[x].parent != x && heap[x].parent != y
      requires x == Get(heap[heap[x].parent], d) <==> d == side
      modifies this`heap
      ensures |heap| == |old(heap)|
      ensures var p := old(heap[x].parent);
              forall i :: 0 <= i < |heap| ==>
                heap[i] == if i == x then old(heap[x]).(parent := y)
                           else if i == y then Set(old(heap[y]), d, x)
                           else if i == p then Set(old(heap)[p], side, y)
                           else old(heap)[i]
    {
      var p := heap[x].parent;
      if x == Get(heap[p], d) {
        heap := heap[p := Set(heap[p], d, y)];
      } else {
        heap := heap[p := Set(heap[p], Flip(d), y)];
      }
      heap := heap[y := Set(heap[y], d, x)];
      heap := heap[x := heap[x].(parent := y)];
    }
  }
}
