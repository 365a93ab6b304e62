/**
 Trees, contexts and their representation in a store of intrusive hooks.

 A node is named by its address and `NIL` is the tree's sentinel. The sentinel's own slots hold tree-level state:
 its `parent` is the root, its `left` the cached minimum, its `right` the (never maintained) maximum.

 A position in a tree is a pair of a subtree and the context around it. Rotations and recolourings are described on
 such pairs; `Holds` says that the store contains exactly that picture. A rank function gives every linked node its
 place in key order (and the sentinel the place after the last), so that nodes in different parts of a tree differ.
 */
module RedBlackShape {

  type Ptr = int

  const NIL: Ptr := 0

  datatype Hook = Hook(left: Ptr, right: Ptr, parent: Ptr, red: bool)

  type Store = map<Ptr, Hook>

  type Ranks = Ptr -> int

  datatype Tree = Leaf | Node(left: Tree, id: Ptr, red: bool, right: Tree)

  /** The surroundings of a subtree: `Up` is a parent whose child on side `s` (`true` is left) is the subtree. */
  datatype Context = Top | Up(up: Context, s: bool, id: Ptr, red: bool, sib: Tree)

  // ----- Trees and contexts -----

  ghost function Root(t: Tree): Ptr {
    if t.Leaf? then NIL else t.id
  }

  ghost function Par(c: Context): Ptr {
    if c.Top? then NIL else c.id
  }

  /** A node with subtree `near` on side `s` and `far` on the other. */
  ghost function Mk(s: bool, near: Tree, id: Ptr, red: bool, far: Tree): Tree {
    if s then Node(near, id, red, far) else Node(far, id, red, near)
  }

  ghost function Plug(c: Context, t: Tree): Tree {
    if c.Top? then t else Plug(c.up, Mk(c.s, t, c.id, c.red, c.sib))
  }

  ghost function Inorder(t: Tree): seq<Ptr> {
    if t.Leaf? then [] else Inorder(t.left) + [t.id] + Inorder(t.right)
  }

  /** The elements that come before, and after, everything in the hole of a context. */
  ghost function Before(c: Context): seq<Ptr> {
    if c.Top? then [] else if c.s then Before(c.up) else Before(c.up) + Inorder(c.sib) + [c.id]
  }

  ghost function After(c: Context): seq<Ptr> {
    if c.Top? then [] else if c.s then [c.id] + Inorder(c.sib) + After(c.up) else After(c.up)
  }

  lemma {:induction false} PlugInorder(c: Context, t: Tree)
    ensures Inorder(Plug(c, t)) == Before(c) + Inorder(t) + After(c)
  {
    if !c.Top? {
      PlugInorder(c.up, Mk(c.s, t, c.id, c.red, c.sib));
    }
  }

  // ----- Ranks -----

  ghost predicate Ranked(rk: Ranks, t: Tree, lo: int, hi: int) {
    t.Node? ==> lo < rk(t.id) < hi && Ranked(rk, t.left, lo, rk(t.id)) && Ranked(rk, t.right, rk(t.id), hi)
  }

  /** The ranks strictly between which the hole of a context lies. */
  ghost function Lo(rk: Ranks, c: Context): int {
    if c.Top? then -1 else if c.s then Lo(rk, c.up) else rk(c.id)
  }

  ghost function Hi(rk: Ranks, c: Context): int {
    if c.Top? then rk(NIL) else if c.s then rk(c.id) else Hi(rk, c.up)
  }

  ghost predicate ContextRanked(rk: Ranks, c: Context) {
    if c.Top? then 0 <= rk(NIL) else
      && ContextRanked(rk, c.up)
      && Lo(rk, c.up) < rk(c.id) < Hi(rk, c.up)
      && (if c.s then Ranked(rk, c.sib, rk(c.id), Hi(rk, c.up)) else Ranked(rk, c.sib, Lo(rk, c.up), rk(c.id)))
  }

  lemma {:induction false} ContextRange(rk: Ranks, c: Context)
    requires ContextRanked(rk, c)
    ensures -1 <= Lo(rk, c) < Hi(rk, c) <= rk(NIL)
  {
    if !c.Top? {
      ContextRange(rk, c.up);
    }
  }

  ghost predicate Increasing(rk: Ranks, s: seq<Ptr>, lo: int, hi: int) {
    && (forall i :: 0 <= i < |s| ==> lo < rk(s[i]) < hi)
    && (forall i, j :: 0 <= i < j < |s| ==> rk(s[i]) < rk(s[j]))
  }

  lemma {:induction false} RankedMeansIncreasing(rk: Ranks, t: Tree, lo: int, hi: int)
    requires Ranked(rk, t, lo, hi)
    ensures Increasing(rk, Inorder(t), lo, hi)
  {
    if t.Node? {
      var l, r, s := Inorder(t.left), Inorder(t.right), Inorder(t);
      RankedMeansIncreasing(rk, t.left, lo, rk(t.id));
      RankedMeansIncreasing(rk, t.right, rk(t.id), hi);
      forall i | 0 <= i < |s|
        ensures i < |l| ==> s[i] == l[i]
        ensures i == |l| ==> s[i] == t.id
        ensures |l| < i ==> s[i] == r[i - |l| - 1]
      {
      }
    }
  }

  lemma {:induction false} IncreasingMeansRanked(rk: Ranks, t: Tree, lo: int, hi: int)
    requires Increasing(rk, Inorder(t), lo, hi)
    ensures Ranked(rk, t, lo, hi)
  {
    if t.Node? {
      var l, r, s := Inorder(t.left), Inorder(t.right), Inorder(t);
      assert s[|l|] == t.id;
      assert forall i :: 0 <= i < |l| ==> s[i] == l[i];
      assert forall i :: 0 <= i < |r| ==> s[|l| + 1 + i] == r[i];
      IncreasingMeansRanked(rk, t.left, lo, rk(t.id));
      IncreasingMeansRanked(rk, t.right, rk(t.id), hi);
    }
  }

  lemma RankedWiden(rk: Ranks, t: Tree, lo: int, hi: int, lo': int, hi': int)
    requires Ranked(rk, t, lo, hi) && lo' <= lo && hi <= hi'
    ensures Ranked(rk, t, lo', hi')
  {
    RankedMeansIncreasing(rk, t, lo, hi);
    IncreasingMeansRanked(rk, t, lo', hi');
  }

  // ----- Representation -----

  ghost predicate Repr(m: Store, t: Tree, p: Ptr) {
    t.Node? ==>
      && t.id in m
      && m[t.id] == Hook(Root(t.left), Root(t.right), p, t.red)
      && Repr(m, t.left, t.id)
      && Repr(m, t.right, t.id)
  }

  ghost predicate ContextRepr(m: Store, c: Context, h: Ptr) {
    if c.Top? then NIL in m && m[NIL].parent == h else
      && c.id in m
      && m[c.id] == (if c.s then Hook(h, Root(c.sib), Par(c.up), c.red) else Hook(Root(c.sib), h, Par(c.up), c.red))
      && Repr(m, c.sib, c.id)
      && ContextRepr(m, c.up, c.id)
  }

  /** The store contains tree `t` in context `c`, in the order that `rk` gives, and its sentinel is black. */
  ghost predicate Holds(rk: Ranks, m: Store, c: Context, t: Tree) {
    && NIL in m && !m[NIL].red
    && Repr(m, t, Par(c)) && ContextRepr(m, c, Root(t))
    && ContextRanked(rk, c) && Ranked(rk, t, Lo(rk, c), Hi(rk, c))
  }

  /** Moving between a node and its child on side `s`. */
  lemma HoldsUp(rk: Ranks, m: Store, c: Context, s: bool, t: Tree, id: Ptr, red: bool, sib: Tree)
    ensures Holds(rk, m, Up(c, s, id, red, sib), t) <==> Holds(rk, m, c, Mk(s, t, id, red, sib))
  {
  }

  lemma {:induction false} HoldsPlug(rk: Ranks, m: Store, c: Context, t: Tree)
    ensures Holds(rk, m, c, t) <==> Holds(rk, m, Top, Plug(c, t))
  {
    if !c.Top? {
      HoldsUp(rk, m, c.up, c.s, t, c.id, c.red, c.sib);
      HoldsPlug(rk, m, c.up, Mk(c.s, t, c.id, c.red, c.sib));
    }
  }

  // ----- Framing -----

  /** `m'` agrees with `m` on every node ranked strictly between `lo` and `hi`, except possibly `x`. */
  ghost predicate Same(rk: Ranks, m: Store, m': Store, lo: int, hi: int, x: Ptr) {
    forall k :: k in m && lo < rk(k) < hi && k != x ==> k in m' && m'[k] == m[k]
  }

  /** `m'` agrees with `m` on every node not ranked strictly between `lo` and `hi`, except possibly `x`. */
  ghost predicate SameOutside(rk: Ranks, m: Store, m': Store, lo: int, hi: int, x: Ptr) {
    forall k :: k in m && k != NIL && !(lo < rk(k) < hi) && k != x ==> k in m' && m'[k] == m[k]
  }

  lemma {:induction false} Frame(rk: Ranks, m: Store, m': Store, t: Tree, p: Ptr, lo: int, hi: int)
    requires Repr(m, t, p) && Ranked(rk, t, lo, hi) && Same(rk, m, m', lo, hi, NIL) && hi <= rk(NIL)
    ensures Repr(m', t, p)
  {
    if t.Node? {
      Frame(rk, m, m', t.left, t.id, lo, rk(t.id));
      Frame(rk, m, m', t.right, t.id, rk(t.id), hi);
    }
  }

  /** A subtree hung under a new parent: only the parent slot of its root differs. */
  lemma ReparentFrame(rk: Ranks, m: Store, m': Store, t: Tree, p: Ptr, q: Ptr, lo: int, hi: int)
    requires Repr(m, t, p) && Ranked(rk, t, lo, hi) && Same(rk, m, m', lo, hi, Root(t)) && hi <= rk(NIL)
    requires t.Node? ==> t.id in m' && m'[t.id] == m[t.id].(parent := q)
    ensures Repr(m', t, q)
  {
    if t.Node? {
      Frame(rk, m, m', t.left, t.id, lo, rk(t.id));
      Frame(rk, m, m', t.right, t.id, rk(t.id), hi);
    }
  }

  lemma {:induction false} ContextFrame(rk: Ranks, m: Store, m': Store, c: Context, h: Ptr)
    requires ContextRepr(m, c, h) && ContextRanked(rk, c) && SameOutside(rk, m, m', Lo(rk, c), Hi(rk, c), NIL)
    requires NIL in m && NIL in m' && m'[NIL].parent == m[NIL].parent
    ensures ContextRepr(m', c, h)
  {
    if !c.Top? {
      ContextRange(rk, c.up);
      if c.s {
        Frame(rk, m, m', c.sib, c.id, rk(c.id), Hi(rk, c.up));
      } else {
        Frame(rk, m, m', c.sib, c.id, Lo(rk, c.up), rk(c.id));
      }
      ContextFrame(rk, m, m', c.up, c.id);
    }
  }

  /** A context with something else in its hole: only the slot that points into the hole differs. */
  lemma HungFrame(rk: Ranks, m: Store, m': Store, c: Context, h: Ptr, h': Ptr)
    requires ContextRepr(m, c, h) && ContextRanked(rk, c) && SameOutside(rk, m, m', Lo(rk, c), Hi(rk, c), Par(c))
    requires NIL in m && NIL in m'
    requires if c.Top? then m'[NIL].parent == h' else
               && m'[NIL].parent == m[NIL].parent
               && c.id in m'
               && m'[c.id] == (if c.s then m[c.id].(left := h') else m[c.id].(right := h'))
    ensures ContextRepr(m', c, h')
  {
    if !c.Top? {
      ContextRange(rk, c.up);
      if c.s {
        Frame(rk, m, m', c.sib, c.id, rk(c.id), Hi(rk, c.up));
      } else {
        Frame(rk, m, m', c.sib, c.id, Lo(rk, c.up), rk(c.id));
      }
      ContextFrame(rk, m, m', c.up, c.id);
    }
  }

  lemma ContextParent(rk: Ranks, m: Store, c: Context, h: Ptr)
    requires ContextRepr(m, c, h) && ContextRanked(rk, c) && NIL in m && Lo(rk, c) < rk(h) < Hi(rk, c)
    ensures h != NIL && Par(c) in m && (Par(c) == NIL <==> c.Top?)
    ensures !(Lo(rk, c) < rk(Par(c)) < Hi(rk, c))
    ensures !c.Top? ==> (m[c.id].left == h <==> c.s)
  {
    ContextRange(rk, c);
    if c.Up? {
      ContextRange(rk, c.up);
    }
  }

  // ----- Elementary updates -----

  /** Same nodes, and the sentinel's minimum and maximum slots untouched. */
  ghost predicate SameCaches(m: Store, m': Store) {
    NIL in m && m'.Keys == m.Keys && m'[NIL].left == m[NIL].left && m'[NIL].right == m[NIL].right
  }

  ghost function WithKid(m: Store, x: Ptr, s: bool, k: Ptr): Store
    requires x in m
  {
    m[x := if s then m[x].(left := k) else m[x].(right := k)]
  }

  ghost function WithParent(m: Store, x: Ptr, p: Ptr): Store
    requires x in m
  {
    m[x := m[x].(parent := p)]
  }

  ghost function WithRed(m: Store, x: Ptr, red: bool): Store
    requires x in m
  {
    m[x := m[x].(red := red)]
  }

  /** Puts the subtree at `dst` where the subtree at `src` hangs. */
  ghost function Transplanted(m: Store, src: Ptr, dst: Ptr): Store
    requires NIL in m && src in m && dst in m && m[src].parent in m
  {
    var p := m[src].parent;
    var m1 :=
      if p == NIL then WithParent(WithParent(m, NIL, dst), dst, NIL)
      else WithKid(m, p, src == m[p].left, dst);
    if dst != NIL then WithParent(m1, dst, p) else m1
  }

  /** `LeftRotate` when `s`, `RightRotate` otherwise: the child on the other side takes the place of `x`. */
  ghost function Rotated(m: Store, s: bool, x: Ptr, y: Ptr, b: Ptr): Store
    requires NIL in m && x in m && y in m && b in m && m[x].parent in m && b != x
  {
    var m1 := WithKid(m, x, !s, b);
    var m2 := if b != NIL then WithParent(m1, b, x) else m1;
    var m3 := Transplanted(m2, x, y);
    WithParent(WithKid(m3, y, s, x), x, y)
  }

  lemma RecolouredHolds(rk: Ranks, m: Store, c: Context, t: Tree, red: bool)
    requires Holds(rk, m, c, t) && t.Node?
    ensures t.id in m && Holds(rk, WithRed(m, t.id, red), c, t.(red := red))
  {
    var m' := WithRed(m, t.id, red);
    ContextRange(rk, c);
    Frame(rk, m, m', t.left, t.id, Lo(rk, c), rk(t.id));
    Frame(rk, m, m', t.right, t.id, rk(t.id), Hi(rk, c));
    ContextFrame(rk, m, m', c, t.id);
  }

  /**
   The slots a rotation leaves behind: `p` is the pivot's parent and `b` the root of the subtree that changes sides.
   */
  ghost predicate Rotates(m: Store, m': Store, s: bool, x: Ptr, y: Ptr, b: Ptr, p: Ptr) {
    && m'.Keys == m.Keys && NIL in m && x in m && y in m && b in m && p in m
    && (forall k :: k in m && k != x && k != y && k != p && k != b && k != NIL ==> m'[k] == m[k])
    && m'[x] == (if s then m[x].(right := b, parent := y) else m[x].(left := b, parent := y))
    && m'[y] == (if s then m[y].(left := x, parent := p) else m[y].(right := x, parent := p))
    && (b != NIL ==> m'[b] == m[b].(parent := x))
    && m'[NIL] == (if p == NIL then m[NIL].(parent := y) else m[NIL])
    && (p != NIL ==> m'[p] == (if m[p].left == x then m[p].(left := y) else m[p].(right := y)))
  }

  lemma RotatedSlots(m: Store, s: bool, x: Ptr, y: Ptr, b: Ptr, p: Ptr)
    requires NIL in m && x in m && y in m && b in m && p in m && m[x].parent == p
    requires x != NIL && y != NIL && x != y && b != x && b != y && p != x && p != y && (b != NIL ==> p != b)
    ensures Rotates(m, Rotated(m, s, x, y, b), s, x, y, b, p)
  {
  }

  /** The parts of a tree about to rotate. */
  lemma SiteParts(rk: Ranks, m: Store, c: Context, s: bool, a: Tree, x: Ptr, xr: bool, b: Tree, y: Ptr, yr: bool,
        d: Tree)
    requires Holds(rk, m, c, Mk(s, a, x, xr, Mk(s, b, y, yr, d)))
    ensures Lo(rk, c) < rk(x) < Hi(rk, c) && Lo(rk, c) < rk(y) < Hi(rk, c)
    ensures Repr(m, a, x) && Repr(m, b, y) && Repr(m, d, y)
    ensures s ==> rk(x) < rk(y) && Ranked(rk, a, Lo(rk, c), rk(x)) && Ranked(rk, b, rk(x), rk(y))
    ensures s ==> Ranked(rk, d, rk(y), Hi(rk, c))
    ensures !s ==> rk(y) < rk(x) && Ranked(rk, a, rk(x), Hi(rk, c)) && Ranked(rk, b, rk(y), rk(x))
    ensures !s ==> Ranked(rk, d, Lo(rk, c), rk(y))
  {
    var u := Mk(s, b, y, yr, d);
    assert Repr(m, u, x);
    assert if s then Ranked(rk, u, rk(x), Hi(rk, c)) else Ranked(rk, u, Lo(rk, c), rk(x));
  }

  /** The nodes that a rotation writes. */
  lemma SiteNodes(rk: Ranks, m: Store, c: Context, s: bool, a: Tree, x: Ptr, xr: bool, b: Tree, y: Ptr, yr: bool,
        d: Tree)
    requires Holds(rk, m, c, Mk(s, a, x, xr, Mk(s, b, y, yr, d)))
    ensures x in m && y in m && Root(b) in m && m[x].parent == Par(c) && Par(c) in m
    ensures x != NIL && y != NIL && x != y && Root(b) != x && Root(b) != y && Par(c) != x && Par(c) != y
    ensures Root(b) != NIL ==> Par(c) != Root(b)
  {
    SiteParts(rk, m, c, s, a, x, xr, b, y, yr, d);
    ContextParent(rk, m, c, x);
    ContextRange(rk, c);
    assert Repr(m, Mk(s, b, y, yr, d), x);
  }

  /** A subtree none of whose nodes a rotation writes, except perhaps the root `b` that it hangs under `q`. */
  lemma RotatedPart(rk: Ranks, m: Store, m': Store, s: bool, x: Ptr, y: Ptr, b: Ptr, par: Ptr, t: Tree, p: Ptr,
        q: Ptr, lo: int, hi: int)
    requires Rotates(m, m', s, x, y, b, par) && Repr(m, t, p) && Ranked(rk, t, lo, hi) && hi <= rk(NIL)
    requires !(lo < rk(x) < hi) && !(lo < rk(y) < hi) && !(lo < rk(par) < hi)
    requires if b == Root(t) then q == x else q == p && !(lo < rk(b) < hi)
    ensures Repr(m', t, q)
  {
    if b == Root(t) {
      ReparentFrame(rk, m, m', t, p, q, lo, hi);
    } else {
      Frame(rk, m, m', t, p, lo, hi);
    }
  }

  lemma RotatedParts(rk: Ranks, m: Store, m': Store, c: Context, s: bool, a: Tree, x: Ptr, xr: bool, b: Tree, y: Ptr,
        yr: bool, d: Tree)
    requires Holds(rk, m, c, Mk(s, a, x, xr, Mk(s, b, y, yr, d))) && Rotates(m, m', s, x, y, Root(b), Par(c))
    ensures Repr(m', a, x) && Repr(m', b, x) && Repr(m', d, y)
  {
    SiteParts(rk, m, c, s, a, x, xr, b, y, yr, d);
    ContextParent(rk, m, c, x);
    ContextRange(rk, c);
    var (alo, ahi) := if s then (Lo(rk, c), rk(x)) else (rk(x), Hi(rk, c));
    var (blo, bhi) := if s then (rk(x), rk(y)) else (rk(y), rk(x));
    var (dlo, dhi) := if s then (rk(y), Hi(rk, c)) else (Lo(rk, c), rk(y));
    if a.Node? {
      RotatedPart(rk, m, m', s, x, y, Root(b), Par(c), a, x, x, alo, ahi);
    }
    RotatedPart(rk, m, m', s, x, y, Root(b), Par(c), b, y, x, blo, bhi);
    if d.Node? {
      RotatedPart(rk, m, m', s, x, y, Root(b), Par(c), d, y, y, dlo, dhi);
    }
  }

  lemma RotatesHolds(rk: Ranks, m: Store, m': Store, c: Context, s: bool, a: Tree, x: Ptr, xr: bool, b: Tree, y: Ptr,
        yr: bool, d: Tree)
    requires Holds(rk, m, c, Mk(s, a, x, xr, Mk(s, b, y, yr, d))) && Rotates(m, m', s, x, y, Root(b), Par(c))
    ensures Holds(rk, m', c, Mk(s, Mk(s, a, x, xr, b), y, yr, d))
  {
    RotatedParts(rk, m, m', c, s, a, x, xr, b, y, yr, d);
    SiteNodes(rk, m, c, s, a, x, xr, b, y, yr, d);
    SiteParts(rk, m, c, s, a, x, xr, b, y, yr, d);
    ContextParent(rk, m, c, x);
    assert Repr(m, Mk(s, b, y, yr, d), x);
    HungFrame(rk, m, m', c, x, y);
  }

  /** A rotation in the store is a rotation of the tree, in any context and towards either side. */
  lemma RotatedHolds(rk: Ranks, m: Store, c: Context, s: bool, a: Tree, x: Ptr, xr: bool, b: Tree, y: Ptr, yr: bool,
        d: Tree)
    requires Holds(rk, m, c, Mk(s, a, x, xr, Mk(s, b, y, yr, d)))
    ensures x in m && y in m && Root(b) in m && m[x].parent in m && Root(b) != x
    ensures Holds(rk, Rotated(m, s, x, y, Root(b)), c, Mk(s, Mk(s, a, x, xr, b), y, yr, d))
    ensures SameCaches(m, Rotated(m, s, x, y, Root(b)))
  {
    SiteNodes(rk, m, c, s, a, x, xr, b, y, yr, d);
    RotatedSlots(m, s, x, y, Root(b), Par(c));
    RotatesHolds(rk, m, Rotated(m, s, x, y, Root(b)), c, s, a, x, xr, b, y, yr, d);
  }

  lemma ParentRecoloured(rk: Ranks, m: Store, c: Context, t: Tree, red: bool)
    requires Holds(rk, m, c, t) && c.Up?
    ensures c.id in m && Holds(rk, WithRed(m, c.id, red), c.(red := red), t)
  {
    HoldsUp(rk, m, c.up, c.s, t, c.id, c.red, c.sib);
    RecolouredHolds(rk, m, c.up, Mk(c.s, t, c.id, c.red, c.sib), red);
    HoldsUp(rk, WithRed(m, c.id, red), c.up, c.s, t, c.id, red, c.sib);
  }

  lemma SiblingRecoloured(rk: Ranks, m: Store, c: Context, t: Tree, red: bool)
    requires Holds(rk, m, c, t) && c.Up? && c.sib.Node?
    ensures c.sib.id in m && Holds(rk, WithRed(m, c.sib.id, red), c.(sib := c.sib.(red := red)), t)
  {
    HoldsUp(rk, m, c.up, c.s, t, c.id, c.red, c.sib);
    HoldsUp(rk, m, c.up, !c.s, c.sib, c.id, c.red, t);
    RecolouredHolds(rk, m, Up(c.up, !c.s, c.id, c.red, t), c.sib, red);
    HoldsUp(rk, WithRed(m, c.sib.id, red), c.up, !c.s, c.sib.(red := red), c.id, c.red, t);
    HoldsUp(rk, WithRed(m, c.sib.id, red), c.up, c.s, t, c.id, c.red, c.sib.(red := red));
  }

  /** The root slot of the sentinel points at the subtree only when there is no context. */
  lemma {:induction false} RootSlot(rk: Ranks, m: Store, c: Context, h: Ptr)
    requires ContextRepr(m, c, h) && ContextRanked(rk, c)
    ensures NIL in m
    ensures c.Top? ==> m[NIL].parent == h
    ensures c.Up? ==> m[NIL].parent != NIL && !(Lo(rk, c) < rk(m[NIL].parent) < Hi(rk, c))
  {
    if c.Up? {
      ContextRange(rk, c.up);
      RootSlot(rk, m, c.up, c.id);
      ContextRange(rk, c);
    }
  }

  /** The position of a node in a tree. */
  lemma {:induction false} Locate(t: Tree, x: Ptr, c: Context) returns (c': Context, t': Tree)
    requires x in Inorder(t)
    ensures t'.Node? && t'.id == x && Plug(c', t') == Plug(c, t)
  {
    if x == t.id {
      c', t' := c, t;
    } else if x in Inorder(t.left) {
      c', t' := Locate(t.left, x, Up(c, true, t.id, t.red, t.right));
    } else {
      c', t' := Locate(t.right, x, Up(c, false, t.id, t.red, t.left));
    }
  }

  lemma {:induction false} PlugRanked(rk: Ranks, c: Context, t: Tree)
    ensures ContextRanked(rk, c) && Ranked(rk, t, Lo(rk, c), Hi(rk, c)) <==>
      0 <= rk(NIL) && Ranked(rk, Plug(c, t), -1, rk(NIL))
  {
    if c.Up? {
      PlugRanked(rk, c.up, Mk(c.s, t, c.id, c.red, c.sib));
    }
  }

  lemma CachedHolds(rk: Ranks, m: Store, c: Context, t: Tree, min: Ptr)
    requires Holds(rk, m, c, t)
    ensures Holds(rk, m[NIL := m[NIL].(left := min)], c, t)
  {
    var m' := m[NIL := m[NIL].(left := min)];
    ContextRange(rk, c);
    Frame(rk, m, m', t, Par(c), Lo(rk, c), Hi(rk, c));
    ContextFrame(rk, m, m', c, Root(t));
  }
}
