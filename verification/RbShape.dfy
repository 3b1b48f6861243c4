/**
  Red-black trees as shapes: a tree of node ids and colours, and a context, the
  path from a position up to the top.  The fix-up loops of
  ucore/kern/libs/rb_tree.c walk such positions; the lemmas here say what each
  rewrite does to the in-order sequence, the colours and the black heights.
  Directions replace the _left/_right parameters of the source's macros.
 */
module RbShape {

  type Id = nat

  datatype Dir = L | R

  function Flip(d: Dir): Dir {
    if d == L then R else L
  }

  datatype Tree = Leaf | Bin(left: Tree, id: Id, red: bool, right: Tree)

  // The node whose d-child is `near`.
  function Mk(d: Dir, near: Tree, id: Id, red: bool, far: Tree): Tree {
    if d == L then Bin(near, id, red, far) else Bin(far, id, red, near)
  }

  // A position: the top, or the d-child of a node whose other child is `sib`.
  datatype Ctx = Top | Step(up: Ctx, d: Dir, id: Id, red: bool, sib: Tree)

  function Plug(c: Ctx, t: Tree): Tree {
    match c
    case Top => t
    case Step(up, d, id, red, sib) => Plug(up, Mk(d, t, id, red, sib))
  }

  function Depth(c: Ctx): nat {
    if c.Top? then 0 else 1 + Depth(c.up)
  }

  function Inorder(t: Tree): seq<Id> {
    if t.Leaf? then [] else Inorder(t.left) + [t.id] + Inorder(t.right)
  }

  // The in-order ids before and after a position.
  function Before(c: Ctx): seq<Id> {
    match c
    case Top => []
    case Step(up, d, id, _, sib) => if d == L then Before(up) else Before(up) + Inorder(sib) + [id]
  }

  function After(c: Ctx): seq<Id> {
    match c
    case Top => []
    case Step(up, d, id, _, sib) => if d == R then After(up) else [id] + Inorder(sib) + After(up)
  }

  lemma JoinLeft(b: seq<Id>, t: seq<Id>, x: Id, s: seq<Id>, a: seq<Id>)
    ensures b + (t + [x] + s) + a == b + t + ([x] + s + a) == (b + t) + [x] + (s + a)
  {}

  lemma JoinRight(b: seq<Id>, s: seq<Id>, x: Id, t: seq<Id>, a: seq<Id>)
    ensures b + (s + [x] + t) + a == (b + s + [x]) + t + a
  {}

  lemma {:induction false} PlugInorder(c: Ctx, t: Tree)
    ensures Inorder(Plug(c, t)) == Before(c) + Inorder(t) + After(c)
  {
    if c.Step? {
      PlugInorder(c.up, Mk(c.d, t, c.id, c.red, c.sib));
      JoinLeft(Before(c.up), Inorder(t), c.id, Inorder(c.sib), After(c.up));
      JoinRight(Before(c.up), Inorder(c.sib), c.id, Inorder(t), After(c.up));
    }
  }

  lemma PlugAround(c: Ctx, t: Tree)
    requires t.Bin?
    ensures Inorder(Plug(c, t)) == (Before(c) + Inorder(t.left)) + [t.id] + (Inorder(t.right) + After(c))
  {
    PlugInorder(c, t);
    JoinLeft(Before(c), Inorder(t.left), t.id, Inorder(t.right), After(c));
  }

  lemma SameInorder(c: Ctx, t: Tree, t': Tree)
    requires Inorder(t) == Inorder(t')
    ensures Inorder(Plug(c, t)) == Inorder(Plug(c, t'))
  {
    PlugInorder(c, t);
    PlugInorder(c, t');
  }

  function Unrotated(d: Dir, a: Tree, x: Id, rx: bool, b: Tree, y: Id, ry: bool, e: Tree): Tree {
    Mk(d, a, x, rx, Mk(d, b, y, ry, e))
  }

  function Rotated(d: Dir, a: Tree, x: Id, rx: bool, b: Tree, y: Id, ry: bool, e: Tree): Tree {
    Mk(d, Mk(d, a, x, rx, b), y, ry, e)
  }

  lemma Regroup(p: seq<Id>, x: Id, q: seq<Id>, y: Id, r: seq<Id>)
    ensures (p + [x] + q) + [y] + r == p + [x] + (q + [y] + r)
  {}

  lemma {:induction false} RotationInorder(d: Dir, a: Tree, x: Id, rx: bool, b: Tree, y: Id, ry: bool, e: Tree)
    ensures Inorder(Rotated(d, a, x, rx, b, y, ry, e)) == Inorder(Unrotated(d, a, x, rx, b, y, ry, e))
  {
    if d == L {
      Regroup(Inorder(a), x, Inorder(b), y, Inorder(e));
    } else {
      Regroup(Inorder(e), y, Inorder(b), x, Inorder(a));
    }
  }

  // ---- ids

  ghost function Dom(t: Tree): set<Id> {
    if t.Leaf? then {} else Dom(t.left) + {t.id} + Dom(t.right)
  }

  ghost function DomC(c: Ctx): set<Id> {
    if c.Top? then {} else DomC(c.up) + {c.id} + Dom(c.sib)
  }

  // Every id occurs once.
  ghost predicate Distinct(t: Tree) {
    t.Bin? ==>
      && Distinct(t.left) && Distinct(t.right)
      && Dom(t.left) !! Dom(t.right) && t.id !in Dom(t.left) + Dom(t.right)
  }

  ghost predicate DistinctC(c: Ctx) {
    c.Step? ==> DistinctC(c.up) && Distinct(c.sib) && c.id !in Dom(c.sib) && DomC(c.up) !! Dom(c.sib) + {c.id}
  }

  lemma {:induction false} PlugDistinct(c: Ctx, t: Tree)
    ensures Dom(Plug(c, t)) == DomC(c) + Dom(t)
    ensures Distinct(Plug(c, t)) <==> DistinctC(c) && Distinct(t) && DomC(c) !! Dom(t)
  {
    if c.Step? {
      PlugDistinct(c.up, Mk(c.d, t, c.id, c.red, c.sib));
    }
  }

  lemma {:induction false} InorderMembers(t: Tree)
    ensures forall i :: i in Inorder(t) <==> i in Dom(t)
  {
    if t.Bin? {
      InorderMembers(t.left);
      InorderMembers(t.right);
    }
  }

  // The position of an id in a tree.
  lemma {:induction false} Locate(t: Tree, c: Ctx, z: Id) returns (c': Ctx, t': Tree)
    requires z in Dom(t)
    ensures Plug(c', t') == Plug(c, t) && t'.Bin? && t'.id == z
    decreases t
  {
    if t.id == z {
      c', t' := c, t;
    } else if z in Dom(t.left) {
      c', t' := Locate(t.left, Step(c, L, t.id, t.red, t.right), z);
    } else {
      c', t' := Locate(t.right, Step(c, R, t.id, t.red, t.left), z);
    }
  }

  // ---- colours and black heights

  predicate Black(t: Tree) {
    t.Bin? ==> !t.red
  }

  // No red node has a red child.
  predicate NoRedRed(t: Tree) {
    t.Bin? ==> NoRedRed(t.left) && NoRedRed(t.right) && (t.red ==> Black(t.left) && Black(t.right))
  }

  // Every path down from t has n black nodes.
  predicate Height(t: Tree, n: nat) {
    match t
    case Leaf => n == 0
    case Bin(l, _, red, r) =>
      if red then Height(l, n) && Height(r, n) else n > 0 && Height(l, n - 1) && Height(r, n - 1)
  }

  lemma MkHeight(d: Dir, near: Tree, id: Id, red: bool, far: Tree, n: nat)
    requires Height(near, n) && Height(far, n)
    ensures Height(Mk(d, near, id, red, far), if red then n else n + 1)
  {}

  ghost predicate RedBlack(t: Tree) {
    Black(t) && NoRedRed(t) && exists n: nat :: Height(t, n)
  }

  // A subtree of height n, with a red root only if `red`, fits at the position.
  predicate HeightC(c: Ctx, n: nat) {
    c.Step? ==> Height(c.sib, n) && HeightC(c.up, if c.red then n else n + 1)
  }

  predicate NoRedRedC(c: Ctx, red: bool) {
    c.Step? ==> NoRedRed(c.sib) && (c.red ==> !red && Black(c.sib)) && NoRedRedC(c.up, c.red)
  }

  // The top node of the path is black.
  predicate BlackTop(c: Ctx) {
    c.Step? ==> if c.up.Top? then !c.red else BlackTop(c.up)
  }

  lemma {:induction false} PlugColours(c: Ctx, t: Tree)
    ensures NoRedRed(Plug(c, t)) <==> NoRedRed(t) && NoRedRedC(c, !Black(t))
    ensures Black(Plug(c, t)) <==> if c.Top? then Black(t) else BlackTop(c)
  {
    if c.Step? {
      PlugColours(c.up, Mk(c.d, t, c.id, c.red, c.sib));
    }
  }

  lemma {:induction false} PlugHeight(c: Ctx, t: Tree, n: nat)
    requires Height(t, n) && HeightC(c, n)
    ensures exists m: nat :: Height(Plug(c, t), m)
  {
    if c.Step? {
      var t' := Mk(c.d, t, c.id, c.red, c.sib);
      PlugHeight(c.up, t', if c.red then n else n + 1);
      assert Plug(c, t) == Plug(c.up, t');
    } else {
      assert Height(Plug(c, t), n);
    }
  }

  lemma {:induction false} UnplugHeight(c: Ctx, t: Tree, m: nat) returns (n: nat)
    requires Height(Plug(c, t), m)
    ensures Height(t, n) && HeightC(c, n)
  {
    if c.Top? {
      n := m;
    } else {
      var k := UnplugHeight(c.up, Mk(c.d, t, c.id, c.red, c.sib), m);
      n := if c.red then k else k - 1;
    }
  }

  lemma {:induction false} HeightIsUnique(t: Tree, n: nat, m: nat)
    requires Height(t, n) && Height(t, m)
    ensures n == m
  {
    if t.Bin? {
      HeightIsUnique(t.left, if t.red then n else n - 1, if t.red then m else m - 1);
    }
  }

  // ---- recolouring one node

  function ColT(t: Tree, id: Id, red: bool): Tree {
    if t.Leaf? then t
    else Bin(ColT(t.left, id, red), t.id, if t.id == id then red else t.red, ColT(t.right, id, red))
  }

  function ColC(c: Ctx, id: Id, red: bool): Ctx {
    if c.Top? then c
    else Step(ColC(c.up, id, red), c.d, c.id, if c.id == id then red else c.red, ColT(c.sib, id, red))
  }

  lemma {:induction false} ColAbsentT(t: Tree, id: Id, red: bool)
    requires id !in Dom(t)
    ensures ColT(t, id, red) == t
  {
    if t.Bin? {
      ColAbsentT(t.left, id, red);
      ColAbsentT(t.right, id, red);
    }
  }

  lemma {:induction false} ColAbsentC(c: Ctx, id: Id, red: bool)
    requires id !in DomC(c)
    ensures ColC(c, id, red) == c
  {
    if c.Step? {
      ColAbsentC(c.up, id, red);
      ColAbsentT(c.sib, id, red);
    }
  }

  lemma {:induction false} ColDomT(t: Tree, id: Id, red: bool)
    ensures Dom(ColT(t, id, red)) == Dom(t) && (Distinct(t) ==> Distinct(ColT(t, id, red)))
    ensures Inorder(ColT(t, id, red)) == Inorder(t)
  {
    if t.Bin? {
      ColDomT(t.left, id, red);
      ColDomT(t.right, id, red);
    }
  }

  lemma {:induction false} ColDomC(c: Ctx, id: Id, red: bool)
    ensures DomC(ColC(c, id, red)) == DomC(c) && (DistinctC(c) ==> DistinctC(ColC(c, id, red)))
    ensures Before(ColC(c, id, red)) == Before(c) && After(ColC(c, id, red)) == After(c)
  {
    if c.Step? {
      ColDomC(c.up, id, red);
      ColDomT(c.sib, id, red);
    }
  }

  // Recolouring the node a position hangs from, the one above it, or the top of the uncle.
  lemma ColParent(c: Ctx, red: bool)
    requires DistinctC(c) && c.Step?
    ensures ColC(c, c.id, red) == c.(red := red)
  {
    ColAbsentC(c.up, c.id, red);
    ColAbsentT(c.sib, c.id, red);
  }

  lemma ColGrandparent(c: Ctx, red: bool)
    requires DistinctC(c) && c.Step? && c.up.Step?
    ensures ColC(c, c.up.id, red) == c.(up := c.up.(red := red))
  {
    ColParent(c.up, red);
    assert c.up.id in DomC(c.up);
    ColAbsentT(c.sib, c.up.id, red);
  }

  lemma ColTop(t: Tree, red: bool)
    requires Distinct(t) && t.Bin?
    ensures ColT(t, t.id, red) == t.(red := red)
  {
    ColAbsentT(t.left, t.id, red);
    ColAbsentT(t.right, t.id, red);
  }

  lemma ColSibling(c: Ctx, red: bool)
    requires DistinctC(c) && c.Step? && c.sib.Bin?
    ensures ColC(c, c.sib.id, red) == c.(sib := c.sib.(red := red))
  {
    ColTop(c.sib, red);
    assert c.sib.id in Dom(c.sib);
    ColAbsentC(c.up, c.sib.id, red);
  }

  lemma ColUncle(c: Ctx, red: bool)
    requires DistinctC(c) && c.Step? && c.up.Step? && c.up.sib.Bin?
    ensures ColC(c, c.up.sib.id, red) == c.(up := c.up.(sib := c.up.sib.(red := red)))
  {
    ColSibling(c.up, red);
    assert c.up.sib.id in Dom(c.up.sib) && c.up.sib.id in DomC(c.up);
    ColAbsentT(c.sib, c.up.sib.id, red);
  }
}
