/**
  What the cases of RB_INSERT_SUB do to the tree: shapes before and after, with
  their colours, heights and in-order sequence.
 */
module RbInsert {
  import opened RbShape
  import opened RbHeap

  // A red node t at position c, where the only fault may be that c's node is red too.
  ghost predicate RisingShape(c: Ctx, t: Tree, n: nat) {
    && t.Bin? && t.red && NoRedRed(t) && Height(t, n)
    && NoRedRedC(c, false) && HeightC(c, n) && BlackTop(c)
  }

  ghost predicate Rising(h: seq<Node>, nil: Id, head: Id, c: Ctx, t: Tree, x: Id, n: nat) {
    x < |h| && t.Bin? && t.id == x && Zip(h, nil, head, c, t, x, h[x].parent) && RisingShape(c, t, n)
  }

  // A red parent is not the top, and the grandparent is black.
  lemma RedParent(c: Ctx, t: Tree, n: nat)
    requires RisingShape(c, t, n) && c.Step? && c.red
    ensures c.up.Step? && !c.up.red && Black(c.sib)
    ensures NoRedRed(c.sib) && Height(c.sib, n) && NoRedRed(c.up.sib) && Height(c.up.sib, n)
    ensures NoRedRedC(c.up.up, false) && HeightC(c.up.up, n + 1) && BlackTop(c.up.up)
  {
    assert NoRedRedC(c.up, true) && HeightC(c.up, n) && BlackTop(c.up);
  }

  // Case 1, red uncle: the grandparent becomes the red node.
  function PushedUp(c: Ctx, t: Tree): Tree
    requires c.Step? && c.up.Step? && c.up.sib.Bin?
  {
    Mk(c.up.d, Mk(c.d, t, c.id, false, c.sib), c.up.id, true, c.up.sib.(red := false))
  }

  lemma PushedUpShape(c: Ctx, t: Tree, n: nat)
    requires RisingShape(c, t, n) && c.Step? && c.red && c.up.Step? && !Black(c.up.sib)
    ensures RisingShape(c.up.up, PushedUp(c, t), n + 1)
    ensures Inorder(Plug(c.up.up, PushedUp(c, t))) == Inorder(Plug(c, t))
  {
    RedParent(c, t, n);
    assert RisingShape(c.up.up, PushedUp(c, t), n + 1) by {
      var p := Mk(c.d, t, c.id, false, c.sib);
      assert NoRedRed(p) && Height(p, n + 1) && Height(c.up.sib.(red := false), n + 1);
      MkHeight(c.up.d, p, c.up.id, true, c.up.sib.(red := false), n + 1);
    }
    assert Plug(c, t) == Plug(c.up.up, Mk(c.up.d, Mk(c.d, t, c.id, c.red, c.sib), c.up.id, c.up.red, c.up.sib));
    SameInorder(c.up.up, PushedUp(c, t), Mk(c.up.d, Mk(c.d, t, c.id, c.red, c.sib), c.up.id, c.up.red, c.up.sib));
  }

  // Case 2, inner child, here t == Mk(g.d, b, x, true, e): its parent becomes the red node below it.
  function Straightened(c: Ctx, b: Tree, x: Id, e: Tree): (Ctx, Tree)
    requires c.Step? && c.up.Step?
  {
    (Step(c.up, c.up.d, x, true, e), Mk(c.up.d, c.sib, c.id, true, b))
  }

  lemma StraightenedShape(c: Ctx, b: Tree, x: Id, e: Tree, n: nat)
    requires c.Step? && c.red && c.up.Step? && c.d == Flip(c.up.d)
    requires RisingShape(c, Mk(c.up.d, b, x, true, e), n)
    ensures var (c', t') := Straightened(c, b, x, e);
            RisingShape(c', t', n) && Inorder(Plug(c', t')) == Inorder(Plug(c, Mk(c.up.d, b, x, true, e)))
  {
    var d := c.up.d;
    var (c', t') := Straightened(c, b, x, e);
    RotationInorder(d, c.sib, c.id, true, b, x, true, e);
    SameInorder(c.up, Rotated(d, c.sib, c.id, true, b, x, true, e), Unrotated(d, c.sib, c.id, true, b, x, true, e));
    assert Plug(c', t') == Plug(c.up, Rotated(d, c.sib, c.id, true, b, x, true, e));
    assert Plug(c, Mk(d, b, x, true, e)) == Plug(c.up, Unrotated(d, c.sib, c.id, true, b, x, true, e));
  }

  // Case 3, outer child: the black parent takes the grandparent's place.
  function Settled(c: Ctx): Ctx
    requires c.Step? && c.up.Step?
  {
    Step(c.up.up, c.d, c.id, false, Mk(c.d, c.sib, c.up.id, true, c.up.sib))
  }

  lemma SettledShape(c: Ctx, t: Tree, n: nat)
    requires RisingShape(c, t, n) && c.Step? && c.red && c.up.Step? && Black(c.up.sib) && c.d == c.up.d
    ensures RisingShape(Settled(c), t, n) && !Settled(c).red
    ensures Inorder(Plug(Settled(c), t)) == Inorder(Plug(c, t))
  {
    RedParent(c, t, n);
    assert NoRedRed(Settled(c).sib) && Height(Settled(c).sib, n);
    var d := Flip(c.d);
    var rot := Rotated(d, c.up.sib, c.up.id, true, c.sib, c.id, false, t);
    var unrot := Unrotated(d, c.up.sib, c.up.id, true, c.sib, c.id, false, t);
    var orig := Mk(c.up.d, Mk(c.d, t, c.id, c.red, c.sib), c.up.id, c.up.red, c.up.sib);
    RotationInorder(d, c.up.sib, c.up.id, true, c.sib, c.id, false, t);
    assert Inorder(unrot) == Inorder(orig);
    SameInorder(c.up.up, rot, orig);
    assert Plug(c, t) == Plug(c.up.up, orig);
    assert Plug(Settled(c), t) == Plug(c.up.up, rot);
  }

  // Once the parent is black, colouring the top black gives a red-black tree.
  lemma RisenIsRedBlack(c: Ctx, t: Tree, n: nat)
    requires RisingShape(c, t, n) && (c.Step? ==> !c.red)
    ensures var t' := Plug(c, t);
            t'.Bin? && RedBlack(t'.(red := false)) && Inorder(t'.(red := false)) == Inorder(t')
  {
    PlugColours(c, t);
    PlugHeight(c, t, n);
    PlugBin(c, t);
    var t' := Plug(c, t);
    var m: nat :| Height(t', m);
    assert Height(t'.(red := false), if t'.red then m + 1 else m);
  }

  lemma {:induction false} PlugBin(c: Ctx, t: Tree)
    requires t.Bin?
    ensures Plug(c, t).Bin?
  {
    if c.Step? {
      PlugBin(c.up, Mk(c.d, t, c.id, c.red, c.sib));
    }
  }
}
