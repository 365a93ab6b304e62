/**
 Each fix-up case of insertion and deletion, carried out on the store: the recolourings and rotations of the case turn
 the picture that the store held before into the picture that the case promises.
 */
module RedBlackFixup {

  import opened RedBlackShape
  import opened RedBlackBalance

  // ----- Insertion -----

  lemma InsertRecolour(rk: Ranks, m: Store, c: Context, t: Tree)
    requires Holds(rk, m, c, t) && c.Up? && c.up.Up? && c.up.sib.Node?
    ensures c.id in m && c.up.sib.id in m && c.up.id in m
    ensures Holds(rk, WithRed(WithRed(WithRed(m, c.id, false), c.up.sib.id, false), c.up.id, true), c.up.up,
      Recoloured(c, t))
  {
    ParentRecoloured(rk, m, c, t, false);
    var m1 := WithRed(m, c.id, false);
    var parent := Mk(c.s, t, c.id, false, c.sib);
    HoldsUp(rk, m1, c.up, c.s, t, c.id, false, c.sib);
    SiblingRecoloured(rk, m1, c.up, parent, false);
    var m2 := WithRed(m1, c.up.sib.id, false);
    var c2 := c.up.(sib := c.up.sib.(red := false));
    ParentRecoloured(rk, m2, c2, parent, true);
    HoldsUp(rk, WithRed(m2, c.up.id, true), c.up.up, c.up.s, parent, c.up.id, true, c2.sib);
  }

  lemma InsertTriangle(rk: Ranks, m: Store, c: Context, b: Tree, id: Ptr, d: Tree)
    requires c.Up? && c.red && Holds(rk, m, c, Mk(!c.s, b, id, true, d))
    ensures c.id in m && id in m && Root(b) in m && m[c.id].parent in m && Root(b) != c.id
    ensures var m' := Rotated(m, !c.s, c.id, id, Root(b));
      && Holds(rk, m', Up(c.up, !c.s, id, true, d), Mk(!c.s, c.sib, c.id, true, b))
      && SameCaches(m, m')
  {
    var s := !c.s;
    HoldsUp(rk, m, c.up, c.s, Mk(s, b, id, true, d), c.id, true, c.sib);
    RotatedHolds(rk, m, c.up, s, c.sib, c.id, true, b, id, true, d);
    HoldsUp(rk, Rotated(m, s, c.id, id, Root(b)), c.up, s, Mk(s, c.sib, c.id, true, b), id, true, d);
  }

  lemma InsertLine(rk: Ranks, m: Store, c: Context, t: Tree)
    requires Holds(rk, m, c, t) && c.Up? && c.up.Up? && c.up.s == c.s
    ensures c.id in m && c.up.id in m && Root(c.sib) in m && m[c.up.id].parent in m && Root(c.sib) != c.up.id
    ensures var m' := Rotated(WithRed(WithRed(m, c.id, false), c.up.id, true), !c.s, c.up.id, c.id, Root(c.sib));
      && Holds(rk, m', Up(c.up.up, c.s, c.id, false, Mk(!c.s, c.up.sib, c.up.id, true, c.sib)), t)
      && SameCaches(m, m')
  {
    ParentRecoloured(rk, m, c, t, false);
    var m1 := WithRed(m, c.id, false);
    var parent := Mk(c.s, t, c.id, false, c.sib);
    HoldsUp(rk, m1, c.up, c.s, t, c.id, false, c.sib);
    ParentRecoloured(rk, m1, c.up, parent, true);
    var m2 := WithRed(m1, c.up.id, true);
    var g := c.up;
    HoldsUp(rk, m2, g.up, g.s, parent, g.id, true, g.sib);
    RotatedHolds(rk, m2, g.up, !c.s, g.sib, g.id, true, c.sib, c.id, false, t);
    var m3 := Rotated(m2, !c.s, g.id, c.id, Root(c.sib));
    HoldsUp(rk, m3, g.up, c.s, t, c.id, false, Mk(!c.s, g.sib, g.id, true, c.sib));
  }

  // ----- Deletion -----

  lemma DeleteRedSibling(rk: Ranks, m: Store, c: Context, t: Tree, near: Tree, id: Ptr, red: bool, far: Tree)
    requires Holds(rk, m, c, t) && c.Up? && c.sib == Mk(c.s, near, id, red, far)
    ensures id in m && c.id in m && Root(near) in m && m[c.id].parent in m && Root(near) != c.id
    ensures var m' := Rotated(WithRed(WithRed(m, id, false), c.id, true), c.s, c.id, id, Root(near));
      && Holds(rk, m', Up(Up(c.up, c.s, id, false, far), c.s, c.id, true, near), t)
      && SameCaches(m, m')
  {
    SiblingRecoloured(rk, m, c, t, false);
    var m1 := WithRed(m, id, false);
    var c1 := c.(sib := Mk(c.s, near, id, false, far));
    assert c1 == c.(sib := c.sib.(red := false));
    ParentRecoloured(rk, m1, c1, t, true);
    var m2 := WithRed(m1, c.id, true);
    HoldsUp(rk, m2, c.up, c.s, t, c.id, true, c1.sib);
    RotatedHolds(rk, m2, c.up, c.s, t, c.id, true, near, id, false, far);
    var m3 := Rotated(m2, c.s, c.id, id, Root(near));
    HoldsUp(rk, m3, c.up, c.s, Mk(c.s, t, c.id, true, near), id, false, far);
    HoldsUp(rk, m3, Up(c.up, c.s, id, false, far), c.s, t, c.id, true, near);
  }

  lemma DeleteBlackNephews(rk: Ranks, m: Store, c: Context, t: Tree)
    requires Holds(rk, m, c, t) && c.Up? && c.sib.Node?
    ensures c.sib.id in m && Holds(rk, WithRed(m, c.sib.id, true), c.up, Mk(c.s, t, c.id, c.red, c.sib.(red := true)))
  {
    SiblingRecoloured(rk, m, c, t, true);
    HoldsUp(rk, WithRed(m, c.sib.id, true), c.up, c.s, t, c.id, c.red, c.sib.(red := true));
  }

  /** Case 3 before its rotation: the near nephew turns black and the sibling red. */
  lemma NearNephewRecoloured(rk: Ranks, m: Store, c: Context, t: Tree, n: Tree, id: Ptr, far: Tree)
    requires Holds(rk, m, c, t) && c.Up? && n.Node? && c.sib == Mk(c.s, n, id, false, far)
    ensures n.id in m && id in m
    ensures Holds(rk, WithRed(WithRed(m, n.id, false), id, true), Up(c.up, !c.s, c.id, c.red, t),
                  Mk(c.s, n.(red := false), id, true, far))
  {
    var s := c.s;
    var k := Up(c.up, !s, c.id, c.red, t);
    HoldsUp(rk, m, c.up, s, t, c.id, c.red, c.sib);
    HoldsUp(rk, m, c.up, !s, c.sib, c.id, c.red, t);
    HoldsUp(rk, m, k, s, n, id, false, far);
    RecolouredHolds(rk, m, Up(k, s, id, false, far), n, false);
    var m1 := WithRed(m, n.id, false);
    ParentRecoloured(rk, m1, Up(k, s, id, false, far), n.(red := false), true);
    HoldsUp(rk, WithRed(m1, id, true), k, s, n.(red := false), id, true, far);
  }

  lemma DeleteNearNephew(rk: Ranks, m: Store, c: Context, t: Tree, n1: Tree, nid: Ptr, n2: Tree, id: Ptr, far: Tree)
    requires Holds(rk, m, c, t) && c.Up? && c.sib == Mk(c.s, Mk(c.s, n1, nid, true, n2), id, false, far)
    ensures nid in m && id in m && Root(n2) in m && m[id].parent in m && Root(n2) != id
    ensures var m' := Rotated(WithRed(WithRed(m, nid, false), id, true), !c.s, id, nid, Root(n2));
      && Holds(rk, m', c.(sib := Mk(c.s, n1, nid, false, Mk(c.s, n2, id, true, far))), t)
      && SameCaches(m, m')
  {
    var s := c.s;
    var k := Up(c.up, !s, c.id, c.red, t);
    NearNephewRecoloured(rk, m, c, t, Mk(s, n1, nid, true, n2), id, far);
    var m2 := WithRed(WithRed(m, nid, false), id, true);
    RotatedHolds(rk, m2, k, !s, far, id, true, n2, nid, false, n1);
    var m3 := Rotated(m2, !s, id, nid, Root(n2));
    var sib := Mk(s, n1, nid, false, Mk(s, n2, id, true, far));
    HoldsUp(rk, m3, c.up, !s, sib, c.id, c.red, t);
    HoldsUp(rk, m3, c.up, s, t, c.id, c.red, sib);
  }

  /** Case 4 before its rotation: the sibling takes the parent's colour, the parent and the far nephew turn black. */
  lemma FarNephewRecoloured(rk: Ranks, m: Store, c: Context, t: Tree, near: Tree, id: Ptr, far: Tree)
    requires Holds(rk, m, c, t) && c.Up? && c.sib == Mk(c.s, near, id, false, far) && far.Node?
    ensures id in m && c.id in m && far.id in m
    ensures Holds(rk, WithRed(WithRed(WithRed(m, id, c.red), c.id, false), far.id, false), c.up,
                  Mk(c.s, t, c.id, false, Mk(c.s, near, id, c.red, far.(red := false))))
  {
    var s := c.s;
    SiblingRecoloured(rk, m, c, t, c.red);
    var m1 := WithRed(m, id, c.red);
    var c1 := c.(sib := Mk(s, near, id, c.red, far));
    assert c1 == c.(sib := c.sib.(red := c.red));
    ParentRecoloured(rk, m1, c1, t, false);
    var m2 := WithRed(m1, c.id, false);
    HoldsUp(rk, m2, c.up, s, t, c.id, false, c1.sib);
    HoldsUp(rk, m2, c.up, !s, c1.sib, c.id, false, t);
    var k := Up(c.up, !s, c.id, false, t);
    HoldsUp(rk, m2, k, !s, far, id, c.red, near);
    RecolouredHolds(rk, m2, Up(k, !s, id, c.red, near), far, false);
    var m3 := WithRed(m2, far.id, false);
    var far' := far.(red := false);
    HoldsUp(rk, m3, k, !s, far', id, c.red, near);
    HoldsUp(rk, m3, c.up, !s, Mk(s, near, id, c.red, far'), c.id, false, t);
  }

  lemma DeleteFarNephew(rk: Ranks, m: Store, c: Context, t: Tree, near: Tree, id: Ptr, far: Tree)
    requires Holds(rk, m, c, t) && c.Up? && c.sib == Mk(c.s, near, id, false, far) && far.Node?
    ensures id in m && c.id in m && far.id in m && Root(near) in m && m[c.id].parent in m && Root(near) != c.id
    ensures var m' := Rotated(WithRed(WithRed(WithRed(m, id, c.red), c.id, false), far.id, false), c.s, c.id, id,
      Root(near));
      && Holds(rk, m', c.up, Mk(c.s, Mk(c.s, t, c.id, false, near), id, c.red, far.(red := false)))
      && SameCaches(m, m')
  {
    FarNephewRecoloured(rk, m, c, t, near, id, far);
    var m3 := WithRed(WithRed(WithRed(m, id, c.red), c.id, false), far.id, false);
    RotatedHolds(rk, m3, c.up, c.s, t, c.id, false, near, id, c.red, far.(red := false));
  }

  // ----- Reading the store -----

  /** What the slots around a node say about its position. */
  lemma Neighbours(rk: Ranks, m: Store, c: Context, t: Tree)
    requires Holds(rk, m, c, t) && c.Up?
    ensures c.id in m && c.id != NIL && Root(t) in m && m[NIL].parent != Root(t)
    ensures t.Node? ==> m[t.id].parent == c.id
    ensures m[c.id].red == c.red && m[c.id].parent == Par(c.up) && Par(c.up) in m && Root(c.sib) in m
    ensures (if c.s then m[c.id].left else m[c.id].right) == Root(t)
    ensures (if c.s then m[c.id].right else m[c.id].left) == Root(c.sib)
    ensures t.Node? || c.sib.Node? ==> Root(t) != Root(c.sib)
  {
    ContextRange(rk, c);
    ContextRange(rk, c.up);
    RootSlot(rk, m, c, Root(t));
    assert ContextRepr(m, c.up, c.id) && Repr(m, c.sib, c.id);
  }

  lemma Children(rk: Ranks, m: Store, c: Context, t: Tree)
    requires Holds(rk, m, c, t) && t.Node?
    ensures t.id in m && t.id != NIL && m[t.id].left == Root(t.left) && m[t.id].right == Root(t.right)
    ensures m[t.id].red == t.red
    ensures Root(t.left) in m && Root(t.right) in m && m[Root(t.left)].red == IsRed(t.left) &&
      m[Root(t.right)].red == IsRed(t.right)
    ensures t.left.Node? ==> t.left.id != NIL
    ensures t.right.Node? ==> t.right.id != NIL
  {
    ContextRange(rk, c);
    assert Repr(m, t.left, t.id) && Repr(m, t.right, t.id);
    assert Ranked(rk, t.left, Lo(rk, c), rk(t.id)) && Ranked(rk, t.right, rk(t.id), Hi(rk, c));
  }
}
