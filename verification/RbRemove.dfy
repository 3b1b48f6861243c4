/**
  The splice of rb_delete: taking out a node with at most one child, and putting
  the spliced-out successor into the place of the node to be deleted.
 */
module RbRemove {
  import opened RbShape
  import opened RbHeap
  import opened RbDelete

  // ---- shapes

  // The tree at position c fits it.
  ghost predicate FitShape(c: Ctx, t: Tree, n: nat) {
    && NoRedRed(t) && Height(t, n)
    && NoRedRedC(c, !Black(t)) && HeightC(c, n) && (if c.Top? then Black(t) else BlackTop(c))
  }

  lemma FitIsRedBlack(c: Ctx, t: Tree, n: nat)
    requires FitShape(c, t, n)
    ensures RedBlack(Plug(c, t))
  {
    PlugColours(c, t);
    PlugHeight(c, t, n);
  }

  // The only child, if any, of a node about to be spliced out.
  function OnlyChild(t: Tree): Tree
    requires t.Bin?
  {
    if t.left.Bin? then t.left else t.right
  }

  // Splicing out a red node leaves a fitting tree, splicing out a black one a tree that is one too short.
  lemma SplicedShape(c: Ctx, t: Tree) returns (n: nat)
    requires RedBlack(Plug(c, t)) && t.Bin? && (t.left.Leaf? || t.right.Leaf?)
    ensures t.red ==> FitShape(c, OnlyChild(t), n)
    ensures !t.red ==> ShortShape(c, OnlyChild(t), n)
  {
    PlugColours(c, t);
    var m: nat :| Height(Plug(c, t), m);
    var k := UnplugHeight(c, t, m);
    n := if t.red then k else k - 1;
  }

  // d, a path inside a subtree, continued by b.
  function App(d: Ctx, b: Ctx): Ctx {
    if d.Top? then b else Step(App(d.up, b), d.d, d.id, d.red, d.sib)
  }

  lemma {:induction false} AppPlug(d: Ctx, b: Ctx, t: Tree)
    ensures Plug(App(d, b), t) == Plug(b, Plug(d, t))
  {
    if d.Step? {
      AppPlug(d.up, b, Mk(d.d, t, d.id, d.red, d.sib));
    }
  }

  lemma {:induction false} AppDom(d: Ctx, b: Ctx)
    ensures DomC(App(d, b)) == DomC(d) + DomC(b)
    ensures DistinctC(App(d, b)) <==> DistinctC(d) && DistinctC(b) && DomC(d) !! DomC(b)
  {
    if d.Step? {
      AppDom(d.up, b);
    }
  }

  lemma {:induction false} AppOrder(d: Ctx, b: Ctx)
    ensures Before(App(d, b)) == Before(b) + Before(d) && After(App(d, b)) == After(d) + After(b)
  {
    if d.Step? {
      AppOrder(d.up, b);
    }
  }

  // Ids play no part in colours and heights.
  lemma {:induction false} RenamedColours(d: Ctx, b: Ctx, y: Id, n: nat, red: bool)
    requires b.Step?
    ensures HeightC(App(d, b.(id := y)), n) == HeightC(App(d, b), n)
    ensures NoRedRedC(App(d, b.(id := y)), red) == NoRedRedC(App(d, b), red)
    ensures BlackTop(App(d, b.(id := y))) == BlackTop(App(d, b))
    ensures App(d, b).Step? && App(d, b.(id := y)).Step?
  {
    if d.Step? {
      RenamedColours(d.up, b, y, if d.red then n else n + 1, d.red);
    }
  }

  // The leftmost node of a tree: nothing comes before it.
  lemma {:induction false} LeftmostPath(t: Tree, d: Ctx) returns (d': Ctx, t': Tree)
    requires t.Bin? && Before(d) == []
    ensures Plug(d', t') == Plug(d, t) && t'.Bin? && t'.left.Leaf? && Before(d') == []
    ensures t'.id == Inorder(t)[0]
    decreases t
  {
    if t.left.Leaf? {
      d', t' := d, t;
    } else {
      d', t' := LeftmostPath(t.left, Step(d, L, t.id, t.red, t.right));
      assert Inorder(t)[0] == Inorder(t.left)[0];
    }
  }

  // ---- the store: splicing out

  lemma SplicedRep(h: seq<Node>, h': seq<Node>, nil: Id, head: Id, c: Ctx, t: Tree, y: Id, x: Id, par: Id)
    requires Zip(h, nil, head, c, t, y, par) && t.Bin? && (t.left.Leaf? || t.right.Leaf?)
    requires y < |h| && x < |h| && par < |h| && |h'| == |h|
    requires x == if h[y].left != nil then h[y].left else h[y].right
    requires forall i :: 0 <= i < |h| ==>
               h'[i] == if i == x then h[x].(parent := par)
                        else if i == par then Set(h[par], if c.Top? then L else c.d, x)
                        else h[i]
    ensures Zip(h', nil, head, c, OnlyChild(t), x, par) && h'[x].parent == par
    ensures (if OnlyChild(t).Leaf? then x == nil else x == OnlyChild(t).id) && y !in Dom(OnlyChild(t)) + DomC(c)
  {
    var s := OnlyChild(t);
    Pointer(h, nil, t.left, h[y].left, y);
    Pointer(h, nil, t.right, h[y].right, y);
    ParentOfC(h, nil, head, c, y, par);
    ReparentT(h, h', nil, s, x, y, par);
    ReplaceInC(h, h', nil, head, c, y, x, par);
  }

  // ---- the store: the successor takes the deleted node's place

  // A path inside a subtree that node qpar points to with q.
  ghost predicate RepSeg(h: seq<Node>, nil: Id, d: Ctx, p: Id, par: Id, q: Id, qpar: Id) {
    match d
    case Top => p == q && par == qpar
    case Step(up, dir, id, red, sib) =>
      && par == id < |h|
      && h[id].red == red && Get(h[id], dir) == p
      && RepT(h, nil, sib, Get(h[id], Flip(dir)), id)
      && RepSeg(h, nil, up, id, h[id].parent, q, qpar)
  }

  lemma {:induction false} RepApp(h: seq<Node>, nil: Id, head: Id, d: Ctx, b: Ctx, p: Id, par: Id)
    requires b.Step? && b.id < |h|
    ensures RepC(h, nil, head, App(d, b), p, par) <==>
            && RepSeg(h, nil, d, p, par, Get(h[b.id], b.d), b.id)
            && RepC(h, nil, head, b, Get(h[b.id], b.d), b.id)
  {
    if d.Step? && par == d.id < |h| {
      RepApp(h, nil, head, d.up, b, d.id, h[d.id].parent);
    }
  }

  // The pointer into a path's subtree is the path's topmost id.
  lemma {:induction false} SegTop(h: seq<Node>, nil: Id, d: Ctx, p: Id, par: Id, q: Id, qpar: Id)
    requires RepSeg(h, nil, d, p, par, q, qpar) && d.Step?
    ensures q == TopId(d) && q in DomC(d) && q < |h| && h[q].parent == qpar
  {
    if d.up.Step? {
      SegTop(h, nil, d.up, d.id, h[d.id].parent, q, qpar);
    }
  }

  // Hanging the subtree from another node changes the parent of its top only.
  lemma {:induction false} SegReparent(h: seq<Node>, h': seq<Node>, nil: Id, d: Ctx, p: Id, par: Id, q: Id, qpar: Id,
                                       qpar': Id)
    requires RepSeg(h, nil, d, p, par, q, qpar) && d.Step? && DistinctC(d) && |h'| == |h|
    requires q < |h| && h'[q] == h[q].(parent := qpar')
    requires forall i :: i in DomC(d) && i != q ==> i >= |h| || h'[i] == h[i]
    ensures RepSeg(h', nil, d, p, par, q, qpar')
  {
    SegTop(h, nil, d, p, par, q, qpar);
    FrameT(h, h', nil, d.sib, Get(h[d.id], Flip(d.d)), d.id) by {
      if d.up.Step? {
        SegTop(h, nil, d.up, d.id, h[d.id].parent, q, qpar);
      }
    }
    if d.up.Step? {
      SegTop(h, nil, d.up, d.id, h[d.id].parent, q, qpar);
      SegReparent(h, h', nil, d.up, d.id, h[d.id].parent, q, qpar, qpar');
    }
  }

  // What rb_delete writes when y takes over the place and the links of z.
  ghost predicate TakeoverWrites(h: seq<Node>, h': seq<Node>, z: Id, y: Id, side: Dir) {
    && |h'| == |h| && z < |h| && y < |h| && h[z].parent < |h|
    && forall i :: 0 <= i < |h| ==>
         h'[i] == if i == y then h[z]
                  else if i == h[z].parent then Set(h[i], side, y)
                  else if i == h[z].left || i == h[z].right then h[i].(parent := y)
                  else h[i]
  }

  // The parts of the store around z, the node that y replaces: path d below its right child, subtree l on its left.
  ghost predicate TakeoverParts(h: seq<Node>, nil: Id, head: Id, d: Ctx, cz: Ctx, z: Id, rz: bool, l: Tree, s: Tree,
                                x: Id, par: Id, y: Id) {
    && SentinelsOk(h, nil, head) && l.Bin?
    && x < |h| && z < |h| && y < |h| && h[z].parent < |h| && h[z].red == rz && h[x].parent == par
    && RepSeg(h, nil, d, x, par, h[z].right, z) && RepT(h, nil, s, x, par) && RepT(h, nil, l, h[z].left, z)
    && RepC(h, nil, head, cz, z, h[z].parent)
    && Distinct(s) && Distinct(l) && DistinctC(d) && DistinctC(cz)
    && Dom(s) !! Dom(l) && Dom(s) !! DomC(d) && Dom(s) !! DomC(cz) && Dom(l) !! DomC(d) && Dom(l) !! DomC(cz)
    && DomC(d) !! DomC(cz)
    && z !in Dom(s) + Dom(l) + DomC(d) + DomC(cz) && y !in Dom(s) + Dom(l) + DomC(d) + DomC(cz)
    && y != z && y != nil && y != head && z != nil && z != head
    && nil !in Dom(s) + Dom(l) + DomC(d) + DomC(cz) && head !in Dom(s) + Dom(l) + DomC(d) + DomC(cz)
  }

  lemma ZipParts(h: seq<Node>, nil: Id, head: Id, d: Ctx, cz: Ctx, z: Id, rz: bool, l: Tree, s: Tree, x: Id, par: Id,
                 y: Id)
    requires Zip(h, nil, head, App(d, Step(cz, R, z, rz, l)), s, x, par) && l.Bin?
    requires x < |h| && h[x].parent == par && y < |h| && y != nil && y != head
    requires y !in Dom(s) + DomC(App(d, Step(cz, R, z, rz, l)))
    ensures TakeoverParts(h, nil, head, d, cz, z, rz, l, s, x, par, y)
  {
    var b := Step(cz, R, z, rz, l);
    AppDom(d, b);
    InBounds(h, nil, head, d, b, x, par);
    RepApp(h, nil, head, d, b, x, par);
    ParentOfC(h, nil, head, cz, z, h[z].parent);
  }

  lemma {:induction false} InBounds(h: seq<Node>, nil: Id, head: Id, d: Ctx, b: Ctx, p: Id, par: Id)
    requires b.Step? && RepC(h, nil, head, App(d, b), p, par)
    ensures b.id < |h|
  {
    if d.Step? {
      InBounds(h, nil, head, d.up, b, d.id, h[d.id].parent);
    }
  }

  lemma PartsZip(h: seq<Node>, nil: Id, head: Id, d: Ctx, cz: Ctx, z: Id, rz: bool, l: Tree, s: Tree, x: Id, par: Id,
                 q: Id, zl: Id, pz: Id)
    requires SentinelsOk(h, nil, head) && z < |h| && h[z] == Node(rz, pz, zl, q)
    requires RepSeg(h, nil, d, x, par, q, z) && RepT(h, nil, s, x, par) && RepT(h, nil, l, zl, z)
    requires RepC(h, nil, head, cz, z, pz)
    requires Distinct(s) && Distinct(l) && DistinctC(d) && DistinctC(cz)
    requires Dom(s) !! Dom(l) && Dom(s) !! DomC(d) && Dom(s) !! DomC(cz) && Dom(l) !! DomC(d) && Dom(l) !! DomC(cz)
    requires DomC(d) !! DomC(cz)
    requires z !in Dom(s) + Dom(l) + DomC(d) + DomC(cz) && z != nil && z != head
    requires nil !in Dom(s) + Dom(l) + DomC(d) + DomC(cz) && head !in Dom(s) + Dom(l) + DomC(d) + DomC(cz)
    ensures Zip(h, nil, head, App(d, Step(cz, R, z, rz, l)), s, x, par)
  {
    hide RepT, RepSeg, RepC, Dom, DomC, Distinct, DistinctC, App, SentinelsOk;
    JoinRep(h, nil, head, d, cz, z, rz, l, x, par, q, zl, pz);
    JoinDistinct(d, cz, z, rz, l, s);
  }

  lemma JoinRep(h: seq<Node>, nil: Id, head: Id, d: Ctx, cz: Ctx, z: Id, rz: bool, l: Tree, x: Id, par: Id, q: Id,
                zl: Id, pz: Id)
    requires z < |h| && h[z] == Node(rz, pz, zl, q)
    requires RepSeg(h, nil, d, x, par, q, z) && RepT(h, nil, l, zl, z) && RepC(h, nil, head, cz, z, pz)
    ensures RepC(h, nil, head, App(d, Step(cz, R, z, rz, l)), x, par)
  {
    RepApp(h, nil, head, d, Step(cz, R, z, rz, l), x, par);
  }

  lemma JoinDistinct(d: Ctx, cz: Ctx, z: Id, rz: bool, l: Tree, s: Tree)
    requires Distinct(l) && DistinctC(d) && DistinctC(cz)
    requires Dom(s) !! Dom(l) && Dom(s) !! DomC(d) && Dom(s) !! DomC(cz) && Dom(l) !! DomC(d) && Dom(l) !! DomC(cz)
    requires DomC(d) !! DomC(cz)
    requires z !in Dom(s) + Dom(l) + DomC(d) + DomC(cz)
    ensures var c := App(d, Step(cz, R, z, rz, l));
            DistinctC(c) && DomC(c) == DomC(d) + DomC(cz) + {z} + Dom(l) && Dom(s) !! DomC(c)
  {
    var b := Step(cz, R, z, rz, l);
    hide App, Dom, Distinct;
    assert DistinctC(b) && DomC(b) == DomC(cz) + {z} + Dom(l);
    assert DomC(d) !! DomC(b) && Dom(s) !! DomC(b);
    AppDom(d, b);
  }

  // The right child of z is the top of the path below it, or x itself when that path is empty.
  lemma RightChild(h: seq<Node>, nil: Id, head: Id, d: Ctx, cz: Ctx, z: Id, rz: bool, l: Tree, s: Tree, x: Id, par: Id,
                   y: Id)
    requires TakeoverParts(h, nil, head, d, cz, z, rz, l, s, x, par, y)
    ensures d.Top? ==> h[z].right == x && par == z
    ensures d.Step? ==> h[z].right in DomC(d) && h[z].right < |h|
    ensures x == nil || x in Dom(s)
    ensures h[z].left in Dom(l) && h[z].left != nil && h[z].left < |h|
    ensures h[z].parent in DomC(cz) + {head}
    ensures d.Step? ==> par in DomC(d)
  {
    if d.Step? {
      SegTop(h, nil, d, x, par, h[z].right, z);
    }
    Pointer(h, nil, s, x, par);
    Pointer(h, nil, l, h[z].left, z);
    ParentOfC(h, nil, head, cz, z, h[z].parent);
  }

  lemma TakeoverC(h: seq<Node>, h': seq<Node>, nil: Id, head: Id, d: Ctx, cz: Ctx, z: Id, rz: bool, l: Tree, s: Tree,
                  x: Id, par: Id, y: Id)
    requires TakeoverParts(h, nil, head, d, cz, z, rz, l, s, x, par, y)
    requires TakeoverWrites(h, h', z, y, if cz.Top? then L else cz.d)
    ensures SentinelsOk(h', nil, head) && RepC(h', nil, head, cz, y, h[z].parent) && RepT(h', nil, l, h[z].left, y)
  {
    RightChild(h, nil, head, d, cz, z, rz, l, s, x, par, y);
    ReplaceInC(h, h', nil, head, cz, z, y, h[z].parent);
    ReparentT(h, h', nil, l, h[z].left, z, y);
  }

  lemma TakeoverSeg(h: seq<Node>, h': seq<Node>, nil: Id, head: Id, d: Ctx, cz: Ctx, z: Id, rz: bool, l: Tree, s: Tree,
                    x: Id, par: Id, y: Id)
    requires TakeoverParts(h, nil, head, d, cz, z, rz, l, s, x, par, y)
    requires TakeoverWrites(h, h', z, y, if cz.Top? then L else cz.d)
    ensures var par' := if d.Top? then y else par;
            RepSeg(h', nil, d, x, par', h[z].right, y) && RepT(h', nil, s, x, par') && h'[x].parent == par'
  {
    RightChild(h, nil, head, d, cz, z, rz, l, s, x, par, y);
    if d.Top? {
      ReparentT(h, h', nil, s, x, z, y);
    } else {
      SegReparent(h, h', nil, d, x, par, h[z].right, z, y);
      FrameT(h, h', nil, s, x, par);
    }
  }

  /** After the take-over the store holds the same tree with y in the place of z. */
  lemma TakeoverRep(h: seq<Node>, h': seq<Node>, nil: Id, head: Id, d: Ctx, cz: Ctx, z: Id, rz: bool, l: Tree, s: Tree,
                    x: Id, par: Id, y: Id)
    requires TakeoverParts(h, nil, head, d, cz, z, rz, l, s, x, par, y)
    requires TakeoverWrites(h, h', z, y, if cz.Top? then L else cz.d)
    ensures Zip(h', nil, head, App(d, Step(cz, R, y, rz, l)), s, x, h'[x].parent)
  {
    hide RepT, RepC, RepSeg, Dom, DomC, Distinct, DistinctC;
    TakeoverC(h, h', nil, head, d, cz, z, rz, l, s, x, par, y);
    TakeoverSeg(h, h', nil, head, d, cz, z, rz, l, s, x, par, y);
    PartsZip(h', nil, head, d, cz, y, rz, l, s, x, h'[x].parent, h[z].right, h[z].left, h[z].parent);
  }

  lemma TakeoverDom(d: Ctx, cz: Ctx, z: Id, y: Id, rz: bool, l: Tree)
    ensures DomC(App(d, Step(cz, R, z, rz, l))) == DomC(d) + DomC(cz) + {z} + Dom(l)
    ensures DomC(App(d, Step(cz, R, y, rz, l))) <= DomC(App(d, Step(cz, R, z, rz, l))) + {y}
  {
    AppDom(d, Step(cz, R, z, rz, l));
    AppDom(d, Step(cz, R, y, rz, l));
  }

  lemma OnlyChildDom(t: Tree)
    requires t.Bin?
    ensures Dom(OnlyChild(t)) <= Dom(t) && t.id in Dom(t)
  {}

  // ---- the in-order sequence

  function Without(s: seq<Id>, k: nat): seq<Id>
    requires k < |s|
  {
    s[..k] + s[k + 1..]
  }

  lemma WithoutMiddle(before: seq<Id>, z: Id, after: seq<Id>)
    ensures var s := before + [z] + after; s[|before|] == z && Without(s, |before|) == before + after
  {}

  lemma WithoutNode(b: seq<Id>, l: seq<Id>, z: Id, r: seq<Id>, a: seq<Id>)
    ensures var s := (b + l) + [z] + (r + a); s[|b + l|] == z && Without(s, |b + l|) == b + (l + r) + a
  {
    hide Without;
    WithoutMiddle(b + l, z, r + a);
    assert (b + l) + (r + a) == b + (l + r) + a;
  }

  lemma WithoutReplaced(b: seq<Id>, l: seq<Id>, z: Id, y: Id, s: seq<Id>, m: seq<Id>, a: seq<Id>)
    ensures var full := (b + l) + [z] + (([] + ([y] + s) + m) + a);
            full[|b + l|] == z && Without(full, |b + l|) == ((b + l + [y]) + []) + s + (m + a)
  {
    hide Without;
    WithoutMiddle(b + l, z, ([] + ([y] + s) + m) + a);
    assert (b + l) + (([] + ([y] + s) + m) + a) == ((b + l + [y]) + []) + s + (m + a);
  }

  lemma SplicedInorder(c: Ctx, t: Tree)
    requires t.Bin? && (t.left.Leaf? || t.right.Leaf?)
    ensures var k := |Before(c) + Inorder(t.left)|; var s := Inorder(Plug(c, t));
            k < |s| && s[k] == t.id && Inorder(Plug(c, OnlyChild(t))) == Without(s, k)
  {
    hide Plug, Before, After, Without;
    OnlyChildInorder(t);
    hide Inorder, OnlyChild;
    PlugAround(c, t);
    PlugInorder(c, OnlyChild(t));
    WithoutNode(Before(c), Inorder(t.left), t.id, Inorder(t.right), After(c));
  }

  lemma OnlyChildInorder(t: Tree)
    requires t.Bin? && (t.left.Leaf? || t.right.Leaf?)
    ensures Inorder(OnlyChild(t)) == Inorder(t.left) + Inorder(t.right)
  {}

  lemma TakeoverPlug(cz: Ctx, t: Tree, d: Ctx, y: Id, ry: bool, s: Tree)
    requires t.Bin? && t.right == Plug(d, Bin(Leaf, y, ry, s))
    ensures Plug(App(d, Step(cz, R, t.id, t.red, t.left)), Bin(Leaf, y, ry, s)) == Plug(cz, t)
  {
    AppPlug(d, Step(cz, R, t.id, t.red, t.left), Bin(Leaf, y, ry, s));
  }

  lemma LeafLeftInorder(y: Id, ry: bool, s: Tree)
    ensures Inorder(Bin(Leaf, y, ry, s)) == [y] + Inorder(s)
  {}

  lemma RightStepOrder(cz: Ctx, y: Id, red: bool, l: Tree)
    ensures Before(Step(cz, R, y, red, l)) == Before(cz) + Inorder(l) + [y]
    ensures After(Step(cz, R, y, red, l)) == After(cz)
  {}

  lemma TakeoverInorder(cz: Ctx, t: Tree, d: Ctx, y: Id, ry: bool, s: Tree)
    requires t.Bin? && t.right == Plug(d, Bin(Leaf, y, ry, s)) && Before(d) == []
    ensures var k := |Before(cz) + Inorder(t.left)|; var full := Inorder(Plug(cz, t));
            && k < |full| && full[k] == t.id
            && Inorder(Plug(App(d, Step(cz, R, y, t.red, t.left)), s)) == Without(full, k)
  {
    hide Plug, Before, After, Inorder, App, Without;
    var b := Step(cz, R, y, t.red, t.left);
    RightStepOrder(cz, y, t.red, t.left);
    LeafLeftInorder(y, ry, s);
    PlugAround(cz, t);
    PlugInorder(d, Bin(Leaf, y, ry, s));
    AppOrder(d, b);
    PlugInorder(App(d, b), s);
    WithoutReplaced(Before(cz), Inorder(t.left), t.id, y, Inorder(s), After(d), After(cz));
  }
}
