/**
 The red-black invariants on trees and contexts, and what each fix-up case does to them. Nothing here mentions the
 store.
 */
module RedBlackBalance {

  import opened RedBlackShape

  ghost predicate IsRed(t: Tree) {
    t.Node? && t.red
  }

  ghost function BlackHeight(t: Tree): nat {
    if t.Leaf? then 0 else BlackHeight(t.left) + if t.red then 0 else 1
  }

  /** No red node has a red child, and all paths down have the same number of black nodes. */
  ghost predicate Balanced(t: Tree) {
    t.Node? ==>
      && Balanced(t.left) && Balanced(t.right)
      && BlackHeight(t.left) == BlackHeight(t.right)
      && (t.red ==> !IsRed(t.left) && !IsRed(t.right))
  }

  /** A context that becomes a balanced tree with a black root when filled with a black tree of black height `h`. */
  ghost predicate ContextBalanced(c: Context, h: nat) {
    c.Up? ==>
      && Balanced(c.sib) && BlackHeight(c.sib) == h
      && (c.red ==> !IsRed(c.sib) && c.up.Up? && !c.up.red)
      && ContextBalanced(c.up, h + if c.red then 0 else 1)
  }

  lemma {:induction false} PlugBalanced(c: Context, t: Tree)
    requires Balanced(t) && ContextBalanced(c, BlackHeight(t)) && (IsRed(t) ==> c.Top? || !c.red)
    ensures Balanced(Plug(c, t))
    ensures c.Up? || !IsRed(t) ==> !IsRed(Plug(c, t))
  {
    if c.Up? {
      PlugBalanced(c.up, Mk(c.s, t, c.id, c.red, c.sib));
    }
  }

  lemma {:induction false} ContextOfBalanced(c: Context, t: Tree)
    requires Balanced(Plug(c, t)) && !IsRed(Plug(c, t))
    ensures Balanced(t) && ContextBalanced(c, BlackHeight(t)) && (IsRed(t) ==> c.Up? && !c.red)
  {
    if c.Up? {
      ContextOfBalanced(c.up, Mk(c.s, t, c.id, c.red, c.sib));
    }
  }

  // ----- Height -----

  ghost function Height(t: Tree): nat {
    if t.Leaf? then 0 else 1 + if Height(t.left) < Height(t.right) then Height(t.right) else Height(t.left)
  }

  ghost function Pow2(n: nat): nat {
    if n == 0 then 1 else 2 * Pow2(n - 1)
  }

  lemma {:induction false} Pow2Monotone(a: nat, b: nat)
    requires a <= b
    ensures Pow2(a) <= Pow2(b)
  {
    if a < b {
      Pow2Monotone(a, b - 1);
    }
  }

  lemma {:induction false} BlackHeightBounds(t: Tree)
    requires Balanced(t)
    ensures Height(t) <= 2 * BlackHeight(t) + (if IsRed(t) then 1 else 0)
    ensures Pow2(BlackHeight(t)) <= |Inorder(t)| + 1
  {
    if t.Node? {
      BlackHeightBounds(t.left);
      BlackHeightBounds(t.right);
    }
  }

  /** The height of a balanced tree with a black root is at most twice the binary logarithm of its size plus one. */
  lemma HeightLogarithmic(t: Tree)
    requires Balanced(t) && !IsRed(t)
    ensures Pow2((Height(t) + 1) / 2) <= |Inorder(t)| + 1
  {
    BlackHeightBounds(t);
    Pow2Monotone((Height(t) + 1) / 2, BlackHeight(t));
  }

  // ----- Insertion -----

  /** All is well except that the red root of `t` may sit under a red parent, or at the top. */
  ghost predicate RedExcess(c: Context, t: Tree) {
    IsRed(t) && Balanced(t) && ContextBalanced(c, BlackHeight(t))
  }

  /** Case 1: parent and uncle are red. */
  ghost function Recoloured(c: Context, t: Tree): Tree
    requires c.Up? && c.up.Up? && c.up.sib.Node?
  {
    Mk(c.up.s, Mk(c.s, t, c.id, false, c.sib), c.up.id, true, c.up.sib.(red := false))
  }

  lemma RecolouredExcess(c: Context, t: Tree)
    requires RedExcess(c, t) && c.Up? && c.red && c.up.Up? && IsRed(c.up.sib)
    ensures RedExcess(c.up.up, Recoloured(c, t))
    ensures Inorder(Plug(c.up.up, Recoloured(c, t))) == Inorder(Plug(c, t))
  {
    var was := Mk(c.up.s, Mk(c.s, t, c.id, c.red, c.sib), c.up.id, c.up.red, c.up.sib);
    assert ContextBalanced(c.up, BlackHeight(t));
    PlugInorder(c.up.up, was);
    PlugInorder(c.up.up, Recoloured(c, t));
    assert Inorder(was) == Inorder(Recoloured(c, t)) by {
      assert Inorder(Mk(c.s, t, c.id, c.red, c.sib)) == Inorder(Mk(c.s, t, c.id, false, c.sib));
    }
  }

  /** Case 2: the excess node is on the inside; `t` is `Mk(!c.s, b, id, true, d)` and rises above its parent. */
  lemma TriangleExcess(c: Context, b: Tree, id: Ptr, d: Tree)
    requires c.Up? && c.red && c.up.Up? && c.up.s != c.s && RedExcess(c, Mk(!c.s, b, id, true, d))
    ensures RedExcess(Up(c.up, !c.s, id, true, d), Mk(!c.s, c.sib, c.id, true, b))
    ensures Inorder(Plug(Up(c.up, !c.s, id, true, d), Mk(!c.s, c.sib, c.id, true, b))) ==
            Inorder(Plug(c, Mk(!c.s, b, id, true, d)))
  {
    var s := !c.s;
    var was := Mk(s, c.sib, c.id, true, Mk(s, b, id, true, d));
    var now := Mk(s, Mk(s, c.sib, c.id, true, b), id, true, d);
    PlugInorder(c.up, was);
    PlugInorder(c.up, now);
    assert Inorder(was) == Inorder(now);
  }

  /** Case 3: the excess node is on the outside; its parent rises, black, above the grandparent, red. */
  lemma LineExcess(c: Context, t: Tree)
    requires RedExcess(c, t) && c.Up? && c.red && c.up.Up? && c.up.s == c.s && !IsRed(c.up.sib)
    ensures RedExcess(Up(c.up.up, c.s, c.id, false, Mk(!c.s, c.up.sib, c.up.id, true, c.sib)), t)
    ensures Inorder(Plug(Up(c.up.up, c.s, c.id, false, Mk(!c.s, c.up.sib, c.up.id, true, c.sib)), t)) ==
      Inorder(Plug(c, t))
  {
    var was := Mk(c.s, Mk(c.s, t, c.id, true, c.sib), c.up.id, false, c.up.sib);
    var now := Mk(c.s, t, c.id, false, Mk(!c.s, c.up.sib, c.up.id, true, c.sib));
    assert ContextBalanced(c.up, BlackHeight(t));
    PlugInorder(c.up.up, was);
    PlugInorder(c.up.up, now);
    assert Inorder(was) == Inorder(now);
  }

  // ----- Deletion -----

  ghost function Blackened(t: Tree): Tree {
    if t.Leaf? then t else t.(red := false)
  }

  /** All is well except that `t` has one black node too few on every path, and that its root may be wrongly red. */
  ghost predicate BlackDeficit(c: Context, t: Tree) {
    Balanced(Blackened(t)) && ContextBalanced(c, BlackHeight(t) + 1)
  }

  lemma DeficitSibling(c: Context, t: Tree)
    requires BlackDeficit(c, t) && c.Up?
    ensures c.sib.Node?
    ensures c.sib.red ==> c.sib.left.Node? && c.sib.right.Node? && !c.sib.left.red && !c.sib.right.red && !c.red
  {
  }

  lemma SameInorder(c: Context, was: Tree, now: Tree)
    requires Inorder(was) == Inorder(now)
    ensures Inorder(Plug(c, was)) == Inorder(Plug(c, now))
  {
    PlugInorder(c, was);
    PlugInorder(c, now);
  }

  /** Case 1: a red sibling `Mk(c.s, near, id, true, far)` rises above the parent. */
  lemma RedSibling(c: Context, t: Tree, near: Tree, id: Ptr, far: Tree)
    requires BlackDeficit(c, t) && c.Up? && c.sib == Mk(c.s, near, id, true, far)
    ensures BlackDeficit(Up(Up(c.up, c.s, id, false, far), c.s, c.id, true, near), t)
    ensures Inorder(Plug(Up(Up(c.up, c.s, id, false, far), c.s, c.id, true, near), t)) == Inorder(Plug(c, t))
  {
    DeficitSibling(c, t);
    assert Balanced(near) && Balanced(far);
    assert ContextBalanced(Up(c.up, c.s, id, false, far), BlackHeight(t) + 1);
    var was := Mk(c.s, t, c.id, c.red, c.sib);
    var now := Mk(c.s, Mk(c.s, t, c.id, true, near), id, false, far);
    assert Inorder(was) == Inorder(now);
    SameInorder(c.up, was, now);
  }

  /** Case 2: a black sibling with black children turns red and the deficit moves to the parent. */
  lemma BlackNephews(c: Context, t: Tree)
    requires BlackDeficit(c, t) && !IsRed(t) && c.Up? && c.sib.Node? && !c.sib.red
    requires !IsRed(c.sib.left) && !IsRed(c.sib.right)
    ensures BlackDeficit(c.up, Mk(c.s, t, c.id, c.red, c.sib.(red := true)))
    ensures Inorder(Plug(c.up, Mk(c.s, t, c.id, c.red, c.sib.(red := true)))) == Inorder(Plug(c, t))
  {
    assert Blackened(t) == t;
    assert Balanced(c.sib.(red := true));
    SameInorder(c.up, Mk(c.s, t, c.id, c.red, c.sib), Mk(c.s, t, c.id, c.red, c.sib.(red := true)));
  }

  /**
   Case 3: the near nephew `Mk(c.s, n1, nid, true, n2)` is red and the far one black; the nephew rises above the
   sibling.
   */
  lemma NearNephew(c: Context, t: Tree, n1: Tree, nid: Ptr, n2: Tree, id: Ptr, far: Tree)
    requires BlackDeficit(c, t) && c.Up? && c.sib == Mk(c.s, Mk(c.s, n1, nid, true, n2), id, false, far) && !IsRed(far)
    ensures BlackDeficit(c.(sib := Mk(c.s, n1, nid, false, Mk(c.s, n2, id, true, far))), t)
    ensures Inorder(Plug(c.(sib := Mk(c.s, n1, nid, false, Mk(c.s, n2, id, true, far))), t)) == Inorder(Plug(c, t))
  {
    var sib := Mk(c.s, n1, nid, false, Mk(c.s, n2, id, true, far));
    assert Balanced(Mk(c.s, n1, nid, true, n2)) && Balanced(far);
    assert Balanced(Mk(c.s, n2, id, true, far));
    assert Inorder(sib) == Inorder(c.sib);
    SameInorder(c.up, Mk(c.s, t, c.id, c.red, c.sib), Mk(c.s, t, c.id, c.red, sib));
  }

  /**
   Case 4: the far nephew is red; the sibling rises above the parent in the parent's colour and the deficit is gone.
   */
  lemma FarNephew(c: Context, t: Tree, near: Tree, id: Ptr, far: Tree)
    requires BlackDeficit(c, t) && !IsRed(t) && c.Up? && c.sib == Mk(c.s, near, id, false, far) && IsRed(far)
    ensures var r := Plug(c.up, Mk(c.s, Mk(c.s, t, c.id, false, near), id, c.red, far.(red := false)));
      Balanced(r) && !IsRed(r) && Inorder(r) == Inorder(Plug(c, t))
  {
    var was := Mk(c.s, t, c.id, c.red, c.sib);
    var now := Mk(c.s, Mk(c.s, t, c.id, false, near), id, c.red, far.(red := false));
    assert Blackened(t) == t;
    assert Balanced(far) && Balanced(near);
    assert Balanced(Mk(c.s, t, c.id, false, near)) && Balanced(far.(red := false));
    PlugBalanced(c.up, now);
    assert Inorder(far.(red := false)) == Inorder(far);
    assert Inorder(was) == Inorder(now);
    SameInorder(c.up, was, now);
  }

  /** Blackening a red root cancels its deficit. */
  lemma DeficitPaid(c: Context, t: Tree)
    requires BlackDeficit(c, t) && IsRed(t)
    ensures Balanced(Plug(c, Blackened(t))) && !IsRed(Plug(c, Blackened(t)))
    ensures Inorder(Plug(c, Blackened(t))) == Inorder(Plug(c, t))
  {
    PlugBalanced(c, Blackened(t));
    SameInorder(c, t, Blackened(t));
  }
}
