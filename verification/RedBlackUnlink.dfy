/**
 Linking a new leaf and unlinking a node, on the store and on the balance.
 */
module RedBlackUnlink {

  import opened RedBlackShape
  import opened RedBlackBalance

  // ----- Linking -----

  /** A new red node put in an empty hole. */
  lemma LinkedHolds(rk: Ranks, m: Store, m': Store, c: Context, x: Ptr)
    requires Holds(rk, m, c, Leaf) && x !in m && Lo(rk, c) < rk(x) < Hi(rk, c)
    requires m'.Keys == m.Keys + {x} && m'[x] == Hook(NIL, NIL, Par(c), true)
    requires forall k :: k in m && k != Par(c) && k != NIL ==> m'[k] == m[k]
    requires if c.Top? then m'[NIL] == m[NIL].(parent := x) else
               && m'[NIL] == m[NIL]
               && c.id in m
               && m'[c.id] == (if c.s then m[c.id].(left := x) else m[c.id].(right := x))
    ensures Holds(rk, m', c, Node(Leaf, x, true, Leaf))
  {
    HungFrame(rk, m, m', c, NIL, x);
  }

  // ----- Unlinking a node with at most one child -----

  ghost predicate Splices(m: Store, m': Store, x: Ptr, o: Ptr, p: Ptr) {
    && m'.Keys == m.Keys && NIL in m && x in m && o in m && p in m
    && (forall k :: k in m && k != p && k != o && k != NIL ==> m'[k] == m[k])
    && (o != NIL ==> m'[o] == m[o].(parent := p))
    && m'[NIL] == (if p == NIL then m[NIL].(parent := o) else m[NIL])
    && (p != NIL ==> m'[p] == (if m[p].left == x then m[p].(left := o) else m[p].(right := o)))
  }

  lemma TransplantedSlots(m: Store, x: Ptr, o: Ptr, p: Ptr)
    requires NIL in m && x in m && o in m && p in m && m[x].parent == p
    requires p != NIL ==> p != o
    ensures Splices(m, Transplanted(m, x, o), x, o, p)
  {
  }

  lemma SplicedHolds(rk: Ranks, m: Store, m': Store, c: Context, s: bool, x: Ptr, red: bool, o: Tree)
    requires Holds(rk, m, c, Mk(s, Leaf, x, red, o)) && Splices(m, m', x, Root(o), Par(c))
    ensures Holds(rk, m', c, o)
  {
    var lo, hi := Lo(rk, c), Hi(rk, c);
    ContextParent(rk, m, c, x);
    ContextRange(rk, c);
    RankedWiden(rk, o, if s then rk(x) else lo, if s then hi else rk(x), lo, hi);
    ReparentFrame(rk, m, m', o, x, Par(c), lo, hi);
    HungFrame(rk, m, m', c, x, Root(o));
  }

  lemma SiteSplice(rk: Ranks, m: Store, c: Context, s: bool, x: Ptr, red: bool, o: Tree)
    requires Holds(rk, m, c, Mk(s, Leaf, x, red, o))
    ensures x in m && x != NIL && Root(o) in m && Par(c) in m && m[x].parent == Par(c)
    ensures Par(c) != NIL ==> Par(c) != Root(o)
    ensures Par(c) == NIL <==> c.Top?
  {
    ContextParent(rk, m, c, x);
    ContextRange(rk, c);
    RankedWiden(rk, o, if s then rk(x) else Lo(rk, c), if s then Hi(rk, c) else rk(x), Lo(rk, c), Hi(rk, c));
    assert Repr(m, o, x);
  }

  /** Taking out a node with at most one child leaves a deficit exactly when the node was black. */
  lemma SplicedBalance(c: Context, s: bool, x: Ptr, red: bool, o: Tree)
    requires Balanced(Plug(c, Mk(s, Leaf, x, red, o))) && !IsRed(Plug(c, Mk(s, Leaf, x, red, o)))
    ensures !red ==> BlackDeficit(c, o)
    ensures red ==> Balanced(Plug(c, o)) && !IsRed(Plug(c, o))
  {
    ContextOfBalanced(c, Mk(s, Leaf, x, red, o));
    if red {
      PlugBalanced(c, o);
    }
  }

  // ----- Left spines -----

  /** A context reached by moving left only. */
  ghost predicate LeftSpine(c: Context) {
    c.Up? ==> c.s && LeftSpine(c.up)
  }

  /** The context `inner` with `outer` around it. */
  ghost function Over(inner: Context, outer: Context): Context {
    if inner.Top? then outer else inner.(up := Over(inner.up, outer))
  }

  lemma {:induction false} OverPlug(inner: Context, outer: Context, t: Tree)
    ensures Plug(Over(inner, outer), t) == Plug(outer, Plug(inner, t))
  {
    if inner.Up? {
      OverPlug(inner.up, outer, Mk(inner.s, t, inner.id, inner.red, inner.sib));
    }
  }

  lemma {:induction false} HoldsOver(rk: Ranks, m: Store, inner: Context, outer: Context, t: Tree)
    ensures Holds(rk, m, Over(inner, outer), t) <==> Holds(rk, m, outer, Plug(inner, t))
  {
    if inner.Up? {
      HoldsUp(rk, m, Over(inner.up, outer), inner.s, t, inner.id, inner.red, inner.sib);
      HoldsOver(rk, m, inner.up, outer, Mk(inner.s, t, inner.id, inner.red, inner.sib));
    }
  }

  lemma {:induction false} SpineBefore(c: Context)
    requires LeftSpine(c)
    ensures Before(c) == []
  {
    if c.Up? {
      SpineBefore(c.up);
    }
  }

  /** The balance of a context does not depend on which node an outer parent is. */
  lemma {:induction false} RenamedBalance(inner: Context, c: Context, s: bool, x: Ptr, y: Ptr, red: bool, sib: Tree,
        h: nat)
    ensures ContextBalanced(Over(inner, Up(c, s, x, red, sib)), h) <==>
      ContextBalanced(Over(inner, Up(c, s, y, red, sib)), h)
  {
    if inner.Up? {
      RenamedBalance(inner.up, c, s, x, y, red, sib, h + if inner.red then 0 else 1);
      var a, b := Over(inner.up, Up(c, s, x, red, sib)), Over(inner.up, Up(c, s, y, red, sib));
      assert a.Up? && b.Up? && a.red == b.red by {
        if inner.up.Top? {
        } else {
        }
      }
    }
  }

  // ----- Unlinking a node with two children -----

  /** Node `d` has taken the place of `x`, with children `l` and `r`. */
  ghost predicate Replaces(m: Store, m': Store, x: Ptr, d: Ptr, l: Ptr, r: Ptr, p: Ptr, red: bool) {
    && m'.Keys == m.Keys && NIL in m && x in m && d in m && l in m && r in m && p in m
    && (forall k :: k in m && k != x && k != d && k != l && k != r && k != p && k != NIL ==> m'[k] == m[k])
    && m'[d] == Hook(l, r, p, red)
    && (l != NIL ==> m'[l] == m[l].(parent := d))
    && (r != NIL ==> m'[r] == m[r].(parent := d))
    && m'[NIL] == (if p == NIL then m[NIL].(parent := d) else m[NIL])
    && (p != NIL ==> m'[p] == (if m[p].left == x then m[p].(left := d) else m[p].(right := d)))
  }

  /** The subtrees and the context of `x`, with `d` ranked between `x` and everything to its right. */
  ghost predicate Vacant(rk: Ranks, m: Store, c: Context, l: Tree, x: Ptr, q: Ptr, r: Tree, d: Ptr) {
    && NIL in m && !m[NIL].red && x in m && d in m && m[x].parent == Par(c)
    && Repr(m, l, x) && Repr(m, r, q) && ContextRepr(m, c, x) && ContextRanked(rk, c)
    && Lo(rk, c) < rk(x) < rk(d) < Hi(rk, c)
    && Ranked(rk, l, Lo(rk, c), rk(x)) && Ranked(rk, r, rk(d), Hi(rk, c))
  }

  lemma ReplacedPart(rk: Ranks, m: Store, m': Store, x: Ptr, d: Ptr, lid: Ptr, rid: Ptr, p: Ptr, red: bool, t: Tree,
        q: Ptr, lo: int, hi: int)
    requires Replaces(m, m', x, d, lid, rid, p, red) && Repr(m, t, q) && Ranked(rk, t, lo, hi) && hi <= rk(NIL)
    requires Root(t) == lid || Root(t) == rid
    requires !(lo < rk(x) < hi) && !(lo < rk(d) < hi) && !(lo < rk(p) < hi)
    requires (lid != Root(t) ==> !(lo < rk(lid) < hi)) && (rid != Root(t) ==> !(lo < rk(rid) < hi))
    ensures Repr(m', t, d)
  {
    ReparentFrame(rk, m, m', t, q, d, lo, hi);
  }

  lemma ReplacedHolds(rk: Ranks, m: Store, m': Store, c: Context, l: Tree, x: Ptr, red: bool, q: Ptr, r: Tree, d: Ptr)
    requires Vacant(rk, m, c, l, x, q, r, d) && Replaces(m, m', x, d, Root(l), Root(r), Par(c), red)
    ensures Holds(rk, m', c, Node(l, d, red, r))
  {
    ContextParent(rk, m, c, x);
    ContextRange(rk, c);
    ReplacedPart(rk, m, m', x, d, Root(l), Root(r), Par(c), red, l, x, Lo(rk, c), rk(x));
    ReplacedPart(rk, m, m', x, d, Root(l), Root(r), Par(c), red, r, q, rk(d), Hi(rk, c));
    HungFrame(rk, m, m', c, x, d);
    RankedWiden(rk, l, Lo(rk, c), rk(x), Lo(rk, c), rk(d));
  }

  lemma SuccessorInorder(inner: Context, d: Ptr, red: bool, o: Tree)
    requires LeftSpine(inner)
    ensures Inorder(Plug(inner, Node(Leaf, d, red, o))) == [d] + Inorder(Plug(inner, o))
  {
    SpineBefore(inner);
    PlugInorder(inner, Node(Leaf, d, red, o));
    PlugInorder(inner, o);
  }

  lemma IncreasingTail(rk: Ranks, d: Ptr, s: seq<Ptr>, lo: int, hi: int)
    requires Increasing(rk, [d] + s, lo, hi)
    ensures lo < rk(d) < hi && Increasing(rk, s, rk(d), hi)
  {
    var t := [d] + s;
    assert t[0] == d;
    assert forall i :: 0 <= i < |s| ==> s[i] == t[i + 1];
  }

  /** The successor is the least node of the right subtree, and everything else there ranks above it. */
  lemma SuccessorRanked(rk: Ranks, inner: Context, d: Ptr, red: bool, o: Tree, lo: int, hi: int)
    requires LeftSpine(inner) && Ranked(rk, Plug(inner, Node(Leaf, d, red, o)), lo, hi)
    ensures lo < rk(d) < hi && Ranked(rk, Plug(inner, o), rk(d), hi)
  {
    SuccessorInorder(inner, d, red, o);
    RankedMeansIncreasing(rk, Plug(inner, Node(Leaf, d, red, o)), lo, hi);
    IncreasingTail(rk, d, Inorder(Plug(inner, o)), lo, hi);
    IncreasingMeansRanked(rk, Plug(inner, o), rk(d), hi);
  }

  /** Replacing a node by its successor leaves a deficit below exactly when the successor was black. */
  lemma ReplacedBalance(c: Context, l: Tree, x: Ptr, xr: bool, inner: Context, d: Ptr, dr: bool, o: Tree)
    requires var t := Plug(c, Node(l, x, xr, Plug(inner, Node(Leaf, d, dr, o)))); Balanced(t) && !IsRed(t)
    ensures var k := Over(inner, Up(c, false, d, xr, l));
      && Plug(k, o) == Plug(c, Node(l, d, xr, Plug(inner, o)))
      && (!dr ==> BlackDeficit(k, o))
      && (dr ==> Balanced(Plug(k, o)) && !IsRed(Plug(k, o)))
  {
    var was := Over(inner, Up(c, false, x, xr, l));
    var now := Over(inner, Up(c, false, d, xr, l));
    OverPlug(inner, Up(c, false, x, xr, l), Node(Leaf, d, dr, o));
    OverPlug(inner, Up(c, false, d, xr, l), o);
    ContextOfBalanced(was, Node(Leaf, d, dr, o));
    RenamedBalance(inner, c, false, x, d, xr, l, BlackHeight(Node(Leaf, d, dr, o)));
    if dr {
      PlugBalanced(now, o);
      assert now.Up?;
    }
  }

  /** The stores that the code passes through when `d`, already detached, takes the place of `x`. */
  ghost function Seated(m: Store, x: Ptr, d: Ptr): Store
    requires NIL in m && x in m && d in m && m[x].parent in m && m[x].left in m
  {
    var m1 := Transplanted(m, x, d);
    var m2 := WithKid(m1, d, true, m1[x].left);
    var m3 := WithParent(m2, m2[d].left, d);
    WithRed(m3, d, m3[x].red)
  }

  lemma SeatedSlots(m: Store, m': Store, x: Ptr, d: Ptr, l: Ptr, r: Ptr, p: Ptr)
    requires NIL in m && x in m && d in m && l in m && r in m && p in m
    requires m[x].left == l && m[x].parent == p
    requires x != NIL && d != NIL && l != NIL && x != d && x != l && x != p && d != l && d != p && l != p
    requires r != NIL ==> r != x && r != d && r != l && r != p
    requires m' == (if r != NIL then WithParent(WithKid(m, d, false, r), r, d) else WithKid(m, d, false, r))
    ensures m'[x].parent in m' && m'[x].left in m'
    ensures Replaces(m, Seated(m', x, d), x, d, l, r, p, m[x].red)
  {
  }

  /** A node with two children and its successor: where each is. */
  lemma SuccessorHolds(rk: Ranks, m: Store, c: Context, l: Tree, x: Ptr, xr: bool, inner: Context, d: Ptr, dr: bool,
        o: Tree)
    requires LeftSpine(inner) && Holds(rk, m, c, Node(l, x, xr, Plug(inner, Node(Leaf, d, dr, o))))
    ensures Lo(rk, c) < rk(x) < rk(d) < Hi(rk, c) && Ranked(rk, Plug(inner, o), rk(d), Hi(rk, c))
    ensures Holds(rk, m, Over(inner, Up(c, false, x, xr, l)), Node(Leaf, d, dr, o))
  {
    var sub := Node(Leaf, d, dr, o);
    assert Ranked(rk, Plug(inner, sub), rk(x), Hi(rk, c));
    SuccessorRanked(rk, inner, d, dr, o, rk(x), Hi(rk, c));
    HoldsUp(rk, m, c, false, Plug(inner, sub), x, xr, l);
    HoldsOver(rk, m, inner, Up(c, false, x, xr, l), sub);
  }

  /** The slots of a node with two children and of its successor. */
  lemma SuccessorSite(rk: Ranks, m: Store, c: Context, l: Tree, x: Ptr, xr: bool, inner: Context, d: Ptr, dr: bool,
        o: Tree)
    requires LeftSpine(inner) && Holds(rk, m, c, Node(l, x, xr, Plug(inner, Node(Leaf, d, dr, o))))
    ensures x in m && m[x] == Hook(Root(l), Root(Plug(inner, Node(Leaf, d, dr, o))), Par(c), xr) && Par(c) in m &&
      Root(l) in m
    ensures d in m && d != NIL && Root(o) in m
    ensures m[d] == Hook(NIL, Root(o), if inner.Top? then x else inner.id, dr)
    ensures inner.Up? ==> inner.id != x
  {
    SuccessorHolds(rk, m, c, l, x, xr, inner, d, dr, o);
    var k := Up(c, false, x, xr, l);
    ContextRange(rk, c);
    ContextParent(rk, m, c, x);
    SpineRange(rk, inner, k);
    assert Repr(m, o, d) && Repr(m, l, x);
  }

  lemma {:induction false} SpineRange(rk: Ranks, inner: Context, k: Context)
    requires LeftSpine(inner) && ContextRanked(rk, Over(inner, k))
    ensures Lo(rk, Over(inner, k)) == Lo(rk, k) && Hi(rk, Over(inner, k)) <= Hi(rk, k)
    ensures inner.Up? ==> Lo(rk, k) < rk(inner.id) < Hi(rk, k)
  {
    if inner.Up? {
      SpineRange(rk, inner.up, k);
    }
  }

  lemma ReplaceSite(rk: Ranks, m: Store, c: Context, l: Tree, x: Ptr, q: Ptr, r: Tree, d: Ptr)
    requires Vacant(rk, m, c, l, x, q, r, d) && l.Node?
    ensures x != NIL && d != NIL && l.id != NIL && x != d && x != l.id && x != Par(c) && d != l.id && d != Par(c) &&
      l.id != Par(c)
    ensures l.id in m && Root(r) in m && Par(c) in m && (r.Node? ==> r.id != NIL)
    ensures Root(r) != NIL ==> Root(r) != x && Root(r) != d && Root(r) != l.id && Root(r) != Par(c)
  {
    ContextRange(rk, c);
    ContextParent(rk, m, c, x);
  }

  // ----- Forgetting an unlinked node -----

  lemma {:induction false} ReprWithout(m: Store, t: Tree, p: Ptr, x: Ptr)
    requires Repr(m, t, p) && x !in Inorder(t)
    ensures Repr(m - {x}, t, p)
  {
    if t.Node? {
      assert Inorder(t)[|Inorder(t.left)|] == t.id;
      ReprWithout(m, t.left, t.id, x);
      ReprWithout(m, t.right, t.id, x);
    }
  }
}
