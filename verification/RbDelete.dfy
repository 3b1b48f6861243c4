/**
  What rb_delete and the cases of RB_DELETE_FIXUP_SUB do to the tree: shapes
  before and after, with their colours, heights and in-order sequence.
 */
module RbDelete {
  import opened RbShape
  import opened RbHeap

  function Blackened(t: Tree): Tree {
    if t.Leaf? then t else t.(red := false)
  }

  // A tree t whose black height is one less than position c needs; its top may be red below a red node.
  ghost predicate ShortShape(c: Ctx, t: Tree, n: nat) {
    && NoRedRed(Blackened(t)) && Height(t, n)
    && NoRedRedC(c, false) && HeightC(c, n + 1) && BlackTop(c)
  }

  // The sibling of a short tree is a node; a red sibling has a black parent and black children.
  lemma SiblingExists(c: Ctx, t: Tree, n: nat)
    requires ShortShape(c, t, n) && c.Step?
    ensures c.sib.Bin? && NoRedRed(c.sib) && Height(c.sib, n + 1)
    ensures c.sib.red ==> !c.red
    ensures NoRedRedC(c.up, c.red) && HeightC(c.up, if c.red then n + 1 else n + 2) && BlackTop(c.up)
    ensures c.red ==> c.up.Step?
  {}

  // Case 1, red sibling s == Mk(d, near, w, true, far): it becomes the grandparent, the parent red.
  function RedSiblingUp(c: Ctx, near: Tree, w: Id, far: Tree): Ctx
    requires c.Step?
  {
    Step(Step(c.up, c.d, w, false, far), c.d, c.id, true, near)
  }

  lemma RedSiblingUpShape(c: Ctx, near: Tree, w: Id, far: Tree, t: Tree, n: nat)
    requires c.Step? && c.sib == Mk(c.d, near, w, true, far) && ShortShape(c, t, n)
    ensures ShortShape(RedSiblingUp(c, near, w, far), t, n) && Black(near)
    ensures Inorder(Plug(RedSiblingUp(c, near, w, far), t)) == Inorder(Plug(c, t))
  {
    SiblingExists(c, t, n);
    var c' := RedSiblingUp(c, near, w, far);
    assert HeightC(c'.up, n + 1) && NoRedRedC(c'.up, true) && BlackTop(c'.up);
    RotationInorder(c.d, t, c.id, true, near, w, false, far);
    SameInorder(c.up, Rotated(c.d, t, c.id, true, near, w, false, far), Mk(c.d, t, c.id, c.red, c.sib));
    assert Plug(c', t) == Plug(c.up, Rotated(c.d, t, c.id, true, near, w, false, far));
  }

  // Case 2, black sibling with black children: it becomes red, and the parent's tree is now the short one.
  function SiblingReddened(c: Ctx, t: Tree): Tree
    requires c.Step? && c.sib.Bin?
  {
    Mk(c.d, t, c.id, c.red, c.sib.(red := true))
  }

  lemma SiblingReddenedShape(c: Ctx, t: Tree, n: nat)
    requires ShortShape(c, t, n) && Black(t) && c.Step? && c.sib.Bin? && !c.sib.red && Black(c.sib.left)
    requires Black(c.sib.right)
    ensures ShortShape(c.up, SiblingReddened(c, t), if c.red then n else n + 1)
    ensures Inorder(Plug(c.up, SiblingReddened(c, t))) == Inorder(Plug(c, t))
  {
    SiblingExists(c, t, n);
    var s := c.sib.(red := true);
    assert Height(s, n) && NoRedRed(s);
    MkHeight(c.d, t, c.id, c.red, s, n);
    SameInorder(c.up, SiblingReddened(c, t), Mk(c.d, t, c.id, c.red, c.sib));
  }

  // Case 3, red near nephew, c.sib == Mk(d, Mk(d, a, v, true, b), w, false, far): rotated above the sibling.
  function NephewUp(c: Ctx, a: Tree, v: Id, b: Tree, w: Id, far: Tree): Ctx
    requires c.Step?
  {
    c.(sib := Mk(c.d, a, v, false, Mk(c.d, b, w, true, far)))
  }

  lemma NephewUpShape(c: Ctx, a: Tree, v: Id, b: Tree, w: Id, far: Tree, t: Tree, n: nat)
    requires c.Step? && c.sib == Mk(c.d, Mk(c.d, a, v, true, b), w, false, far) && Black(far)
    requires ShortShape(c, t, n)
    ensures ShortShape(NephewUp(c, a, v, b, w, far), t, n)
    ensures Inorder(Plug(NephewUp(c, a, v, b, w, far), t)) == Inorder(Plug(c, t))
  {
    SiblingExists(c, t, n);
    var near := Mk(c.d, a, v, true, b);
    assert NoRedRed(near) && Height(near, n) && Height(far, n);
    var e := Flip(c.d);
    var s := NephewUp(c, a, v, b, w, far).sib;
    assert Black(a) && Black(b) && NoRedRed(a) && NoRedRed(b);
    assert NoRedRed(Mk(c.d, b, w, true, far)) && NoRedRed(s);
    MkHeight(c.d, b, w, true, far, n);
    MkHeight(c.d, a, v, false, Mk(c.d, b, w, true, far), n);
    RotationInorder(e, far, w, true, b, v, false, a);
    assert Inorder(s) == Inorder(Rotated(e, far, w, true, b, v, false, a));
    assert Inorder(c.sib) == Inorder(Unrotated(e, far, w, true, b, v, false, a));
    assert Inorder(Mk(c.d, t, c.id, c.red, s)) == Inorder(Mk(c.d, t, c.id, c.red, c.sib));
    SameInorder(c.up, Mk(c.d, t, c.id, c.red, s), Mk(c.d, t, c.id, c.red, c.sib));
  }

  // Case 4, red far nephew, c.sib == Mk(d, near, w, false, far): the sibling takes the parent's place and colour.
  function SiblingUp(c: Ctx, t: Tree, near: Tree, w: Id, far: Tree): Tree
    requires c.Step?
  {
    Mk(c.d, Mk(c.d, t, c.id, false, near), w, c.red, Blackened(far))
  }

  lemma {:induction false} SiblingUpShape(c: Ctx, t: Tree, near: Tree, w: Id, far: Tree, n: nat)
    requires c.Step? && c.sib == Mk(c.d, near, w, false, far) && !Black(far)
    requires ShortShape(c, t, n) && Black(t)
    ensures var t' := Plug(c.up, SiblingUp(c, t, near, w, far));
            RedBlack(t') && Inorder(t') == Inorder(Plug(c, t))
  {
    SiblingExists(c, t, n);
    assert Height(near, n) && Height(far, n) && NoRedRed(near) && NoRedRed(far);
    var p, f := Mk(c.d, t, c.id, false, near), Blackened(far);
    MkHeight(c.d, t, c.id, false, near, n);
    assert Height(f, n + 1) && NoRedRed(f) && NoRedRed(p);
    MkHeight(c.d, p, w, c.red, f, n + 1);
    var t' := SiblingUp(c, t, near, w, far);
    PlugColours(c.up, t');
    PlugHeight(c.up, t', if c.red then n + 1 else n + 2);
    RotationInorder(c.d, t, c.id, c.red, near, w, false, far);
    assert Inorder(t') == Inorder(Rotated(c.d, t, c.id, c.red, near, w, false, far));
    SameInorder(c.up, t', Mk(c.d, t, c.id, c.red, c.sib));
  }

  // At the top, or once the short tree's top is red, blackening the top ends the repair.
  lemma BlackenedIsRedBlack(c: Ctx, t: Tree, n: nat)
    requires ShortShape(c, t, n) && (c.Top? || !Black(t))
    ensures RedBlack(Plug(c, Blackened(t))) && Inorder(Plug(c, Blackened(t))) == Inorder(Plug(c, t))
  {
    var t' := Blackened(t);
    assert Height(t', if Black(t) then n else n + 1);
    PlugColours(c, t');
    PlugHeight(c, t', if Black(t) then n else n + 1);
    SameInorder(c, t', t);
  }

  // ---- the store

  // The short tree t hangs at position c, and x, which may be nil, points back to its parent.
  ghost predicate Short(h: seq<Node>, nil: Id, head: Id, c: Ctx, t: Tree, x: Id, n: nat) {
    && x < |h| && Zip(h, nil, head, c, t, x, h[x].parent)
    && (if t.Leaf? then x == nil else x == t.id)
    && ShortShape(c, t, n)
  }

  // The topmost id of a path.
  function TopId(c: Ctx): Id
    requires c.Step?
  {
    if c.up.Top? then c.id else TopId(c.up)
  }

  lemma {:induction false} TopIdFacts(h: seq<Node>, nil: Id, head: Id, c: Ctx, p: Id, par: Id)
    requires RepC(h, nil, head, c, p, par) && c.Step?
    ensures head < |h| && h[head].left == TopId(c) && TopId(c) in DomC(c)
  {
    if c.up.Step? {
      TopIdFacts(h, nil, head, c.up, c.id, h[c.id].parent);
    }
  }

  // The nodes around a short tree.
  lemma Around(h: seq<Node>, nil: Id, head: Id, c: Ctx, t: Tree, x: Id, n: nat)
    requires Short(h, nil, head, c, t, x, n) && c.Step?
    ensures h[x].parent == c.id < |h| && c.id != nil && c.id != head && c.id != x && c.id in DomC(c) && c.id !in Dom(t)
    ensures h[c.id].red == c.red && c.sib.Bin?
    ensures Get(h[c.id], Flip(c.d)) == c.sib.id < |h| && h[c.sib.id].red == c.sib.red && c.sib.id in Dom(c.sib)
    ensures c.sib.id != nil && c.sib.id != head && c.sib.id !in Dom(t) && c.sib.id in DomC(c) && c.sib.id != c.id
    ensures x == h[c.id].left <==> c.d == L
    ensures h[head].left == TopId(c) && TopId(c) in DomC(c) && TopId(c) != x && x != head
    ensures h[x].red <==> !Black(t)
  {
    SiblingExists(c, t, n);
    Pointer(h, nil, t, x, h[x].parent);
    Pointer(h, nil, c.sib, Get(h[c.id], Flip(c.d)), c.id);
    TopIdFacts(h, nil, head, c, x, h[x].parent);
  }

  // The colours of the sibling's children, read through the store.
  lemma {:induction false} Nephews(h: seq<Node>, nil: Id, head: Id, c: Ctx, t: Tree, x: Id, n: nat, near: Tree, w: Id,
                                   far: Tree)
    requires Short(h, nil, head, c, t, x, n) && c.Step? && c.sib == Mk(c.d, near, w, c.sib.red, far)
    ensures w < |h| && Get(h[w], c.d) < |h| && Get(h[w], Flip(c.d)) < |h|
    ensures (h[Get(h[w], c.d)].red <==> !Black(near)) && (h[Get(h[w], Flip(c.d))].red <==> !Black(far))
    ensures near.Bin? ==> Get(h[w], c.d) == near.id && near.id in Dom(near)
    ensures far.Bin? ==> Get(h[w], Flip(c.d)) == far.id && far.id in Dom(far)
    ensures Dom(c.sib) == Dom(near) + {w} + Dom(far) && DomC(c) == DomC(c.up) + {c.id} + Dom(c.sib)
    ensures Dom(near) !! Dom(far) && w !in Dom(near) + Dom(far) && c.id !in Dom(near) + Dom(far)
    ensures nil !in DomC(c) && head !in DomC(c) && nil !in Dom(t) && head !in Dom(t)
    ensures Distinct(near) && Distinct(far) && Distinct(t) && DistinctC(c) && Dom(t) !! DomC(c)
  {
    MkFacts(h, nil, c.d, near, w, c.sib.red, far, Get(h[c.id], Flip(c.d)), c.id);
    Pointer(h, nil, near, Get(h[w], c.d), w);
    Pointer(h, nil, far, Get(h[w], Flip(c.d)), w);
  }

  // From a position to its sibling's.
  lemma SwapFocus(h: seq<Node>, nil: Id, head: Id, c: Ctx, t: Tree, p: Id, par: Id)
    requires Zip(h, nil, head, c, t, p, par) && c.Step?
    ensures c.id < |h|
    ensures Zip(h, nil, head, Step(c.up, Flip(c.d), c.id, c.red, t), c.sib, Get(h[c.id], Flip(c.d)), c.id)
  {
    ZipUp(h, nil, head, c, t, p, par);
    ZipDown(h, nil, head, c.up, Flip(c.d), c.sib, c.id, c.red, t, c.id, h[c.id].parent);
  }

  // ---- recolouring around a position

  lemma ColourSibling(h: seq<Node>, nil: Id, head: Id, c: Ctx, t: Tree, p: Id, par: Id, red: bool)
    requires Zip(h, nil, head, c, t, p, par) && c.Step? && c.sib.Bin?
    ensures c.sib.id < |h|
    ensures Zip(h[c.sib.id := h[c.sib.id].(red := red)], nil, head, c.(sib := c.sib.(red := red)), t, p, par)
  {
    assert c.sib.id in Dom(c.sib) && c.sib.id in DomC(c);
    ColourZip(h, nil, head, c, t, p, par, c.sib.id, red);
    ColSibling(c, red);
    ColAbsentT(t, c.sib.id, red);
  }

  lemma ColourParent(h: seq<Node>, nil: Id, head: Id, c: Ctx, t: Tree, p: Id, par: Id, red: bool)
    requires Zip(h, nil, head, c, t, p, par) && c.Step?
    ensures c.id < |h| && Zip(h[c.id := h[c.id].(red := red)], nil, head, c.(red := red), t, p, par)
  {
    assert c.id in DomC(c);
    ColourZip(h, nil, head, c, t, p, par, c.id, red);
    ColParent(c, red);
    ColAbsentT(t, c.id, red);
  }

  // The d-child of the sibling.
  lemma ColourNephew(h: seq<Node>, nil: Id, head: Id, c: Ctx, t: Tree, p: Id, par: Id, d: Dir, kid: Tree, w: Id,
                     rw: bool, other: Tree, red: bool)
    requires Zip(h, nil, head, c, t, p, par) && c.Step? && c.sib == Mk(d, kid, w, rw, other) && kid.Bin?
    ensures kid.id < |h|
    ensures Zip(h[kid.id := h[kid.id].(red := red)], nil, head,
                c.(sib := Mk(d, kid.(red := red), w, rw, other)), t, p, par)
  {
    NephewApart(c, d, kid, w, rw, other);
    assert RepT(h, nil, kid, Get(h[w], d), w);
    ColourZip(h, nil, head, c, t, p, par, kid.id, red);
    ColTop(kid, red);
    ColAbsentT(other, kid.id, red);
    ColAbsentC(c.up, kid.id, red);
    ColAbsentT(t, kid.id, red);
  }

  lemma NephewApart(c: Ctx, d: Dir, kid: Tree, w: Id, rw: bool, other: Tree)
    requires DistinctC(c) && c.Step? && c.sib == Mk(d, kid, w, rw, other) && kid.Bin?
    ensures kid.id in Dom(kid) && kid.id in Dom(c.sib) && kid.id in DomC(c) && Distinct(kid)
    ensures kid.id != w && kid.id != c.id && kid.id !in Dom(other) && kid.id !in DomC(c.up)
  {}

  lemma DomAround(c: Ctx, t: Tree, rx: bool, near: Tree, w: Id, rw: bool, ry: bool, far: Tree, far': Tree)
    requires c.Step? && c.sib == Mk(c.d, near, w, rw, far) && Dom(far') == Dom(far)
    ensures DomC(c) + Dom(t) == DomC(c.up) + Dom(Unrotated(c.d, t, c.id, rx, near, w, ry, far'))
  {}

  // Case 1: the store before and after the rotation about the parent.
  lemma BeforeRedSiblingUp(h: seq<Node>, h': seq<Node>, nil: Id, head: Id, c: Ctx, t: Tree, x: Id, n: nat, near: Tree,
                           w: Id, far: Tree)
    requires Short(h, nil, head, c, t, x, n) && c.Step? && c.sib == Mk(c.d, near, w, true, far)
    requires w < |h| && c.id < |h|
    requires var h1 := h[w := h[w].(red := false)]; h' == h1[c.id := h1[c.id].(red := true)]
    ensures var tree := Unrotated(c.d, t, c.id, true, near, w, false, far);
            && Zip(h', nil, head, c.up, tree, c.id, h'[c.id].parent) && h'[c.id].parent == h[c.id].parent
            && DomC(c) + Dom(t) == DomC(c.up) + Dom(tree)
  {
    hide Zip, ShortShape, Dom, DomC;
    ColourSibling(h, nil, head, c, t, x, h[x].parent, false);
    var c1 := c.(sib := Mk(c.d, near, w, false, far));
    ColourParent(h[w := h[w].(red := false)], nil, head, c1, t, x, h[x].parent, true);
    Around(h, nil, head, c, t, x, n);
    ZipUp(h', nil, head, c1.(red := true), t, x, c.id);
    DomAround(c, t, true, near, w, true, false, far, far);
  }

  lemma AfterRedSiblingUp(h: seq<Node>, nil: Id, head: Id, c: Ctx, t: Tree, near: Tree, w: Id, far: Tree, par: Id)
    returns (p: Id)
    requires c.Step? && Zip(h, nil, head, c.up, Rotated(c.d, t, c.id, true, near, w, false, far), w, par)
    ensures Zip(h, nil, head, RedSiblingUp(c, near, w, far), t, p, c.id)
    ensures if t.Leaf? then p == nil else p == t.id < |h| && h[p].parent == c.id
  {
    var d := c.d;
    ZipDown(h, nil, head, c.up, d, Mk(d, t, c.id, true, near), w, false, far, w, par);
    ZipDown(h, nil, head, Step(c.up, d, w, false, far), d, t, c.id, true, near, Get(h[w], d), w);
    p := Get(h[c.id], d);
    Pointer(h, nil, t, p, c.id);
  }

  // Case 2: only the sibling is recoloured.
  lemma SiblingReddenedRep(h: seq<Node>, h': seq<Node>, nil: Id, head: Id, c: Ctx, t: Tree, x: Id, n: nat)
    requires Short(h, nil, head, c, t, x, n) && c.Step? && c.sib.Bin? && c.sib.id < |h|
    requires h' == h[c.sib.id := h[c.sib.id].(red := true)]
    ensures c.id < |h'| && Zip(h', nil, head, c.up, SiblingReddened(c, t), c.id, h'[c.id].parent)
  {
    Around(h, nil, head, c, t, x, n);
    ColourZip(h, nil, head, c, t, x, c.id, c.sib.id, true);
    ColSibling(c, true);
    ColAbsentT(t, c.sib.id, true);
    ZipUp(h', nil, head, c.(sib := c.sib.(red := true)), t, x, c.id);
  }

  // Case 3: the store before and after the rotation about the sibling.
  lemma BeforeNephewUp(h: seq<Node>, h': seq<Node>, nil: Id, head: Id, c: Ctx, t: Tree, x: Id, n: nat,
                       a: Tree, v: Id, b: Tree, w: Id, far: Tree)
    requires Short(h, nil, head, c, t, x, n) && c.Step? && c.sib == Mk(c.d, Mk(c.d, a, v, true, b), w, false, far)
    requires v < |h| && w < |h|
    requires var h1 := h[v := h[v].(red := false)]; h' == h1[w := h1[w].(red := true)]
    ensures var tree := Unrotated(Flip(c.d), far, w, true, b, v, false, a);
            var cw := Step(c.up, Flip(c.d), c.id, c.red, t);
            && Zip(h', nil, head, cw, tree, w, h'[w].parent) && h'[w].parent == c.id
            && DomC(c) + Dom(t) == DomC(cw) + Dom(tree)
  {
    hide Zip, ShortShape, Dom, DomC;
    var near := Mk(c.d, a, v, true, b);
    ColourNephew(h, nil, head, c, t, x, h[x].parent, c.d, near, w, false, far, false);
    var c1 := c.(sib := Mk(c.d, Mk(c.d, a, v, false, b), w, false, far));
    ColourSibling(h[v := h[v].(red := false)], nil, head, c1, t, x, h[x].parent, true);
    var c2 := c1.(sib := Mk(c.d, Mk(c.d, a, v, false, b), w, true, far));
    SwapFocus(h', nil, head, c2, t, x, h[x].parent);
    ZipTop(h', nil, head, Step(c.up, Flip(c.d), c.id, c.red, t), c2.sib, Get(h'[c.id], Flip(c.d)), c.id);
    DomSwap(c, t, a, v, b, w, far);
  }

  lemma ZipTop(h: seq<Node>, nil: Id, head: Id, c: Ctx, t: Tree, p: Id, par: Id)
    requires Zip(h, nil, head, c, t, p, par) && t.Bin?
    ensures p == t.id < |h| && h[p].parent == par
  {}

  lemma DomSwap(c: Ctx, t: Tree, a: Tree, v: Id, b: Tree, w: Id, far: Tree)
    requires c.Step? && c.sib == Mk(c.d, Mk(c.d, a, v, true, b), w, false, far)
    ensures DomC(c) + Dom(t) ==
            DomC(Step(c.up, Flip(c.d), c.id, c.red, t)) + Dom(Unrotated(Flip(c.d), far, w, true, b, v, false, a))
  {
    assert Dom(Mk(c.d, a, v, true, b)) == Dom(a) + {v} + Dom(b);
  }

  lemma AfterNephewUp(h: seq<Node>, nil: Id, head: Id, c: Ctx, t: Tree, a: Tree, v: Id, b: Tree, w: Id, far: Tree,
                      par: Id)
    returns (p: Id)
    requires c.Step?
    requires Zip(h, nil, head, Step(c.up, Flip(c.d), c.id, c.red, t),
                 Rotated(Flip(c.d), far, w, true, b, v, false, a), v, par)
    ensures Zip(h, nil, head, NephewUp(c, a, v, b, w, far), t, p, c.id)
    ensures if t.Leaf? then p == nil else p == t.id < |h| && h[p].parent == c.id
  {
    var s := Rotated(Flip(c.d), far, w, true, b, v, false, a);
    var cw := Step(c.up, Flip(c.d), c.id, c.red, t);
    SwapFocus(h, nil, head, cw, s, v, par);
    p := Get(h[c.id], c.d);
    Pointer(h, nil, t, p, c.id);
  }

  // Case 4: the store before the rotation about the parent.
  lemma BeforeSiblingUp(h: seq<Node>, h': seq<Node>, nil: Id, head: Id, c: Ctx, t: Tree, x: Id, n: nat, near: Tree,
                        w: Id, far: Tree)
    requires Short(h, nil, head, c, t, x, n) && c.Step? && c.sib == Mk(c.d, near, w, false, far) && far.Bin?
    requires w < |h| && c.id < |h| && far.id < |h|
    requires var h1 := h[w := h[w].(red := c.red)];
             var h2 := h1[c.id := h1[c.id].(red := false)];
             h' == h2[far.id := h2[far.id].(red := false)]
    ensures var tree := Unrotated(c.d, t, c.id, false, near, w, c.red, Blackened(far));
            && Zip(h', nil, head, c.up, tree, c.id, h'[c.id].parent) && h'[c.id].parent == h[c.id].parent
            && DomC(c) + Dom(t) == DomC(c.up) + Dom(tree)
  {
    hide Zip, ShortShape, Dom, DomC;
    var h1 := h[w := h[w].(red := c.red)];
    var h2 := h1[c.id := h1[c.id].(red := false)];
    ColourSibling(h, nil, head, c, t, x, h[x].parent, c.red);
    var c1 := c.(sib := Mk(c.d, near, w, c.red, far));
    ColourParent(h1, nil, head, c1, t, x, h[x].parent, false);
    var c2 := c1.(red := false);
    ColourNephew(h2, nil, head, c2, t, x, h[x].parent, Flip(c.d), far, w, c.red, near, false);
    var c3 := c2.(sib := Mk(c.d, near, w, c.red, Blackened(far)));
    Around(h, nil, head, c, t, x, n);
    ZipUp(h', nil, head, c3, t, x, c.id);
    BlackenedDom(far);
    DomAround(c, t, false, near, w, false, c.red, far, Blackened(far));
  }

  lemma BlackenedDom(t: Tree)
    ensures Dom(Blackened(t)) == Dom(t)
  {}
}
