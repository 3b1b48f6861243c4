/**
  How nodes in memory represent a tree at a position.  A node is a slot of the
  store; `nil` is the shared sentinel below the leaves and `head` the node whose
  left child is the top of the tree.
 */
module RbHeap {
  import opened RbShape

  datatype Node = Node(red: bool, parent: Id, left: Id, right: Id)

  function Get(n: Node, d: Dir): Id {
    if d == L then n.left else n.right
  }

  function Set(n: Node, d: Dir, v: Id): Node {
    if d == L then n.(left := v) else n.(right := v)
  }

  // p points to the tree t, whose nodes carry right colours and parents; the parent of its top is par.
  ghost predicate RepT(h: seq<Node>, nil: Id, t: Tree, p: Id, par: Id) {
    match t
    case Leaf => p == nil
    case Bin(l, id, red, r) =>
      && p == id < |h|
      && h[id].red == red && h[id].parent == par
      && RepT(h, nil, l, h[id].left, id) && RepT(h, nil, r, h[id].right, id)
  }

  // The position c is where node par points to p.
  ghost predicate RepC(h: seq<Node>, nil: Id, head: Id, c: Ctx, p: Id, par: Id) {
    match c
    case Top => par == head < |h| && h[head].left == p
    case Step(up, d, id, red, sib) =>
      && par == id < |h|
      && h[id].red == red && Get(h[id], d) == p
      && RepT(h, nil, sib, Get(h[id], Flip(d)), id)
      && RepC(h, nil, head, up, id, h[id].parent)
  }

  // The sentinels are in place.
  ghost predicate SentinelsOk(h: seq<Node>, nil: Id, head: Id) {
    && nil != head && nil < |h| && head < |h|
    && !h[nil].red && !h[head].red && h[head].right == nil
  }

  // The whole store holds Plug(c, t), with p pointing to t from par.
  ghost predicate Zip(h: seq<Node>, nil: Id, head: Id, c: Ctx, t: Tree, p: Id, par: Id) {
    && SentinelsOk(h, nil, head)
    && RepT(h, nil, t, p, par) && RepC(h, nil, head, c, p, par)
    && Distinct(t) && DistinctC(c) && Dom(t) !! DomC(c)
    && nil !in Dom(t) + DomC(c) && head !in Dom(t) + DomC(c)
  }

  // ---- framing

  lemma {:induction false} FrameT(h: seq<Node>, h': seq<Node>, nil: Id, t: Tree, p: Id, par: Id)
    requires RepT(h, nil, t, p, par) && |h| <= |h'|
    requires forall i :: i in Dom(t) ==> i >= |h| || h'[i] == h[i]
    ensures RepT(h', nil, t, p, par)
  {
    if t.Bin? {
      FrameT(h, h', nil, t.left, h[t.id].left, t.id);
      FrameT(h, h', nil, t.right, h[t.id].right, t.id);
    }
  }

  lemma {:induction false} FrameC(h: seq<Node>, h': seq<Node>, nil: Id, head: Id, c: Ctx, p: Id, par: Id)
    requires RepC(h, nil, head, c, p, par) && |h| <= |h'|
    requires forall i :: i in DomC(c) || i == head ==> i >= |h| || h'[i] == h[i]
    ensures RepC(h', nil, head, c, p, par)
  {
    if c.Step? {
      FrameT(h, h', nil, c.sib, Get(h[c.id], Flip(c.d)), c.id);
      FrameC(h, h', nil, head, c.up, c.id, h[c.id].parent);
    }
  }

  // Giving the top node of a tree a new parent.
  lemma ReparentT(h: seq<Node>, h': seq<Node>, nil: Id, t: Tree, p: Id, par: Id, par': Id)
    requires RepT(h, nil, t, p, par) && Distinct(t) && |h| == |h'|
    requires forall i :: i in Dom(t) ==> i >= |h| || h'[i] == if i == p then h[i].(parent := par') else h[i]
    ensures RepT(h', nil, t, p, par')
  {
    if t.Bin? {
      FrameT(h, h', nil, t.left, h[t.id].left, t.id);
      FrameT(h, h', nil, t.right, h[t.id].right, t.id);
    }
  }

  // Making the position's parent point to q instead of p.
  lemma ReplaceInC(h: seq<Node>, h': seq<Node>, nil: Id, head: Id, c: Ctx, p: Id, q: Id, par: Id)
    requires RepC(h, nil, head, c, p, par) && DistinctC(c) && |h| == |h'| && head !in DomC(c)
    requires forall i :: (i in DomC(c) || i == head) && i != par ==> i >= |h| || h'[i] == h[i]
    requires par < |h| && h'[par] == Set(h[par], if c.Top? then L else c.d, q)
    ensures RepC(h', nil, head, c, q, par)
  {
    if c.Step? {
      FrameT(h, h', nil, c.sib, Get(h[c.id], Flip(c.d)), c.id);
      FrameC(h, h', nil, head, c.up, c.id, h[c.id].parent);
    }
  }

  // ---- recolouring

  lemma {:induction false} ColourT(h: seq<Node>, nil: Id, t: Tree, p: Id, par: Id, id: Id, red: bool)
    requires RepT(h, nil, t, p, par) && id < |h|
    ensures RepT(h[id := h[id].(red := red)], nil, ColT(t, id, red), p, par)
  {
    if t.Bin? {
      ColourT(h, nil, t.left, h[t.id].left, t.id, id, red);
      ColourT(h, nil, t.right, h[t.id].right, t.id, id, red);
    }
  }

  lemma {:induction false} ColourC(h: seq<Node>, nil: Id, head: Id, c: Ctx, p: Id, par: Id, id: Id, red: bool)
    requires RepC(h, nil, head, c, p, par) && id < |h|
    ensures RepC(h[id := h[id].(red := red)], nil, head, ColC(c, id, red), p, par)
  {
    if c.Step? {
      ColourT(h, nil, c.sib, Get(h[c.id], Flip(c.d)), c.id, id, red);
      ColourC(h, nil, head, c.up, c.id, h[c.id].parent, id, red);
    }
  }

  /** Writing a node's colour recolours that node of the tree and nothing else. */
  lemma ColourZip(h: seq<Node>, nil: Id, head: Id, c: Ctx, t: Tree, p: Id, par: Id, id: Id, red: bool)
    requires Zip(h, nil, head, c, t, p, par) && id < |h| && id != nil && id != head
    ensures Zip(h[id := h[id].(red := red)], nil, head, ColC(c, id, red), ColT(t, id, red), p, par)
  {
    hide RepT, RepC, Distinct, DistinctC, Dom, DomC;
    ColourT(h, nil, t, p, par, id, red);
    ColourC(h, nil, head, c, p, par, id, red);
    ColDomT(t, id, red);
    ColDomC(c, id, red);
  }

  // ---- moving the focus

  // Up: the position and its parent node.
  lemma ZipUp(h: seq<Node>, nil: Id, head: Id, c: Ctx, t: Tree, p: Id, par: Id)
    requires Zip(h, nil, head, c, t, p, par) && c.Step?
    ensures par == c.id < |h|
    ensures Zip(h, nil, head, c.up, Mk(c.d, t, c.id, c.red, c.sib), par, h[par].parent)
  {}

  // Down: into the d-child.
  lemma ZipDown(h: seq<Node>, nil: Id, head: Id, c: Ctx, d: Dir, near: Tree, id: Id, red: bool, far: Tree, p: Id,
                par: Id)
    requires Zip(h, nil, head, c, Mk(d, near, id, red, far), p, par)
    ensures p == id < |h|
    ensures Zip(h, nil, head, Step(c, d, id, red, far), near, Get(h[id], d), id)
  {}

  // The ids of a position's parent and of a tree are in the store.
  lemma {:induction false} InStore(h: seq<Node>, nil: Id, t: Tree, p: Id, par: Id)
    requires RepT(h, nil, t, p, par)
    ensures forall i :: i in Dom(t) ==> i < |h|
  {
    if t.Bin? {
      InStore(h, nil, t.left, h[t.id].left, t.id);
      InStore(h, nil, t.right, h[t.id].right, t.id);
    }
  }

  // The node the position hangs from is the one c names, or the head.
  lemma ParentOfC(h: seq<Node>, nil: Id, head: Id, c: Ctx, p: Id, par: Id)
    requires RepC(h, nil, head, c, p, par)
    ensures par < |h| && par == (if c.Top? then head else c.id)
  {}

  // Comparing a parent's d-child with the node at the position tells on which side the position is.
  lemma ChildSide(h: seq<Node>, nil: Id, head: Id, c: Ctx, p: Id, par: Id, d: Dir)
    requires SentinelsOk(h, nil, head) && RepC(h, nil, head, c, p, par) && p !in DomC(c) && p != nil
    ensures par < |h| && (p == Get(h[par], d) <==> d == if c.Top? then L else c.d)
  {
    if c.Step? {
      Pointer(h, nil, c.sib, Get(h[c.id], Flip(c.d)), c.id);
    }
  }

  // ---- rotation

  lemma MkFacts(h: seq<Node>, nil: Id, d: Dir, near: Tree, id: Id, red: bool, far: Tree, p: Id, par: Id)
    ensures var t := Mk(d, near, id, red, far);
            && (RepT(h, nil, t, p, par) <==>
                  && p == id < |h| && h[id].red == red && h[id].parent == par
                  && RepT(h, nil, near, Get(h[id], d), id) && RepT(h, nil, far, Get(h[id], Flip(d)), id))
            && Dom(t) == Dom(near) + {id} + Dom(far)
            && (Distinct(t) <==>
                  Distinct(near) && Distinct(far) && Dom(near) !! Dom(far) && id !in Dom(near) + Dom(far))
  {}

  lemma Pointer(h: seq<Node>, nil: Id, t: Tree, p: Id, par: Id)
    requires RepT(h, nil, t, p, par)
    ensures if t.Leaf? then p == nil else p == t.id && p in Dom(t) && p < |h| && h[p].parent == par
  {}

  ghost predicate Apart(c: Ctx, a: Tree, b: Tree, e: Tree, x: Id, y: Id) {
    && x != y && x !in Dom(a) + Dom(b) + Dom(e) + DomC(c) && y !in Dom(a) + Dom(b) + Dom(e) + DomC(c)
    && Dom(a) !! Dom(b) && Dom(a) !! Dom(e) && Dom(b) !! Dom(e)
    && DomC(c) !! Dom(a) && DomC(c) !! Dom(b) && DomC(c) !! Dom(e)
    && Distinct(a) && Distinct(b) && Distinct(e) && DistinctC(c)
  }

  // The parts of a tree about to be rotated, and where they are.
  ghost predicate RotationParts(h: seq<Node>, nil: Id, head: Id, c: Ctx, par: Id,
                                d: Dir, a: Tree, x: Id, rx: bool, b: Tree, y: Id, ry: bool, e: Tree) {
    && SentinelsOk(h, nil, head) && RepC(h, nil, head, c, x, par)
    && x < |h| && y < |h| && h[x].red == rx && h[x].parent == par
    && Get(h[x], Flip(d)) == y && h[y].red == ry && h[y].parent == x
    && RepT(h, nil, a, Get(h[x], d), x) && RepT(h, nil, b, Get(h[y], d), y) && RepT(h, nil, e, Get(h[y], Flip(d)), y)
    && Apart(c, a, b, e, x, y)
    && nil !in Dom(a) + Dom(b) + Dom(e) + DomC(c) + {x, y} && head !in Dom(a) + Dom(b) + Dom(e) + DomC(c) + {x, y}
  }

  lemma UnrotatedParts(h: seq<Node>, nil: Id, head: Id, c: Ctx, par: Id,
                       d: Dir, a: Tree, x: Id, rx: bool, b: Tree, y: Id, ry: bool, e: Tree)
    requires Zip(h, nil, head, c, Unrotated(d, a, x, rx, b, y, ry, e), x, par)
    ensures RotationParts(h, nil, head, c, par, d, a, x, rx, b, y, ry, e)
    ensures Dom(Unrotated(d, a, x, rx, b, y, ry, e)) == Dom(a) + Dom(b) + Dom(e) + {x, y}
  {
    hide RepT, RepC, Dom, DomC, Distinct, DistinctC, SentinelsOk, Mk;
    MkFacts(h, nil, d, a, x, rx, Mk(d, b, y, ry, e), x, par);
    MkFacts(h, nil, d, b, y, ry, e, Get(h[x], Flip(d)), x);
  }

  // What the pointer assignments of a rotation about x leave in the store.
  ghost predicate RotationWrites(h: seq<Node>, h': seq<Node>, nil: Id, d: Dir, x: Id, side: Dir)
  {
    && x < |h| && |h'| == |h|
    && var y := Get(h[x], Flip(d));
       var par := h[x].parent;
       && y < |h| && par < |h|
       && var b := Get(h[y], d);
          forall i :: 0 <= i < |h| ==>
            h'[i] == if i == x then Set(h[x], Flip(d), b).(parent := y)
                     else if i == y then Set(h[y], d, x).(parent := par)
                     else if i == par then Set(h[par], side, y)
                     else if i == b && b != nil then h[b].(parent := x)
                     else h[i]
  }

  lemma RotatedC(h: seq<Node>, h': seq<Node>, nil: Id, head: Id, c: Ctx, par: Id,
                 d: Dir, a: Tree, x: Id, rx: bool, b: Tree, y: Id, ry: bool, e: Tree)
    requires RotationParts(h, nil, head, c, par, d, a, x, rx, b, y, ry, e)
    requires RotationWrites(h, h', nil, d, x, if c.Top? then L else c.d)
    ensures RepC(h', nil, head, c, y, par) && SentinelsOk(h', nil, head)
  {
    ParentOfC(h, nil, head, c, x, par);
    Pointer(h, nil, b, Get(h[y], d), y);
    ReplaceInC(h, h', nil, head, c, x, y, par);
  }

  lemma RotatedT(h: seq<Node>, h': seq<Node>, nil: Id, head: Id, c: Ctx, par: Id,
                 d: Dir, a: Tree, x: Id, rx: bool, b: Tree, y: Id, ry: bool, e: Tree)
    requires RotationParts(h, nil, head, c, par, d, a, x, rx, b, y, ry, e)
    requires RotationWrites(h, h', nil, d, x, if c.Top? then L else c.d)
    ensures RepT(h', nil, a, Get(h[x], d), x) && RepT(h', nil, b, Get(h[y], d), x)
    ensures RepT(h', nil, e, Get(h[y], Flip(d)), y)
  {
    hide RepC;
    ParentOfCApart(h, nil, head, c, par, d, a, x, rx, b, y, ry, e);
    Pointer(h, nil, b, Get(h[y], d), y);
    FrameT(h, h', nil, a, Get(h[x], d), x);
    FrameT(h, h', nil, e, Get(h[y], Flip(d)), y);
    ReparentT(h, h', nil, b, Get(h[y], d), y, x);
  }

  lemma ParentOfCApart(h: seq<Node>, nil: Id, head: Id, c: Ctx, par: Id,
                       d: Dir, a: Tree, x: Id, rx: bool, b: Tree, y: Id, ry: bool, e: Tree)
    requires RotationParts(h, nil, head, c, par, d, a, x, rx, b, y, ry, e)
    ensures par !in Dom(a) + Dom(b) + Dom(e) + {x, y} && par < |h|
  {
    ParentOfC(h, nil, head, c, x, par);
  }

  /** A rotation turns the store's tree into the rotated tree, at the same position. */
  lemma RotationRep(h: seq<Node>, h': seq<Node>, nil: Id, head: Id, c: Ctx, par: Id,
                    d: Dir, a: Tree, x: Id, rx: bool, b: Tree, y: Id, ry: bool, e: Tree)
    requires RotationParts(h, nil, head, c, par, d, a, x, rx, b, y, ry, e)
    requires RotationWrites(h, h', nil, d, x, if c.Top? then L else c.d)
    ensures Zip(h', nil, head, c, Rotated(d, a, x, rx, b, y, ry, e), y, par)
    ensures Dom(Rotated(d, a, x, rx, b, y, ry, e)) == Dom(a) + Dom(b) + Dom(e) + {x, y}
  {
    hide RepT, RepC, Dom, DomC, Distinct, DistinctC, SentinelsOk, Mk;
    RotatedC(h, h', nil, head, c, par, d, a, x, rx, b, y, ry, e);
    RotatedT(h, h', nil, head, c, par, d, a, x, rx, b, y, ry, e);
    ParentOfCApart(h, nil, head, c, par, d, a, x, rx, b, y, ry, e);
    MkFacts(h', nil, d, a, x, rx, b, x, y);
    MkFacts(h', nil, d, Mk(d, a, x, rx, b), y, ry, e, y, par);
  }

  // ---- attaching a new leaf node

  lemma FrameZip(h: seq<Node>, h': seq<Node>, nil: Id, head: Id, c: Ctx, t: Tree, p: Id, par: Id)
    requires Zip(h, nil, head, c, t, p, par) && |h| == |h'|
    requires forall i :: i in Dom(t) || i in DomC(c) || i == head || i == nil ==> i >= |h| || h'[i] == h[i]
    ensures Zip(h', nil, head, c, t, p, par)
  {
    hide RepT, RepC, Distinct, DistinctC, Dom, DomC;
    FrameT(h, h', nil, t, p, par);
    FrameC(h, h', nil, head, c, p, par);
  }

  lemma AttachRep(h: seq<Node>, h': seq<Node>, nil: Id, head: Id, c: Ctx, par: Id, z: Id)
    requires Zip(h, nil, head, c, Leaf, nil, par) && |h'| == |h| && z < |h| && z !in DomC(c) && z != nil && z != head
    requires h[z].left == nil && h[z].right == nil
    requires forall i :: 0 <= i < |h| ==>
               h'[i] == if i == z then h[z].(parent := par)
                        else if i == par then Set(h[par], if c.Top? then L else c.d, z)
                        else h[i]
    ensures Zip(h', nil, head, c, Bin(Leaf, z, h[z].red, Leaf), z, par)
  {
    ParentOfC(h, nil, head, c, nil, par);
    ReplaceInC(h, h', nil, head, c, nil, z, par);
  }

  lemma RotationUntouched(h: seq<Node>, h': seq<Node>, nil: Id, head: Id, c: Ctx, par: Id,
                          d: Dir, a: Tree, x: Id, rx: bool, b: Tree, y: Id, ry: bool, e: Tree, i: Id)
    requires RotationParts(h, nil, head, c, par, d, a, x, rx, b, y, ry, e)
    requires RotationWrites(h, h', nil, d, x, if c.Top? then L else c.d)
    requires i < |h| && i !in Dom(b) + {x, y} + DomC(c) + {head}
    ensures h'[i] == h[i]
  {
    ParentOfC(h, nil, head, c, x, par);
    Pointer(h, nil, b, Get(h[y], d), y);
  }

  // The focus can be moved to the top.
  lemma {:induction false} ZipToTop(h: seq<Node>, nil: Id, head: Id, c: Ctx, t: Tree, p: Id, par: Id)
    requires Zip(h, nil, head, c, t, p, par)
    ensures head < |h| && Zip(h, nil, head, Top, Plug(c, t), h[head].left, head)
    decreases c
  {
    if c.Step? {
      ZipUp(h, nil, head, c, t, p, par);
      ZipToTop(h, nil, head, c.up, Mk(c.d, t, c.id, c.red, c.sib), c.id, h[par].parent);
    }
  }
}
