/**
 The intrusive red-black tree: an ordered index whose hooks live in the elements, with a sentinel that caches the root
 and the minimum. The hooks of all linked nodes, and of the sentinel, are the map `hooks`.
 */
module RedBlackTree {

  import opened RedBlackShape
  import opened RedBlackBalance
  import opened RedBlackFixup
  import opened RedBlackUnlink

  ghost predicate StrictOrder(less: (Ptr, Ptr) -> bool) {
    && (forall a :: !less(a, a))
    && (forall a, b :: a != b ==> less(a, b) || less(b, a))
    && (forall a, b, c :: less(a, b) && less(b, c) ==> less(a, c))
  }

  ghost predicate Sorted(less: (Ptr, Ptr) -> bool, s: seq<Ptr>) {
    forall i, j :: 0 <= i < j < |s| ==> less(s[i], s[j])
  }

  ghost function First(s: seq<Ptr>): Ptr {
    if s == [] then NIL else s[0]
  }

  ghost function IndexIn(s: seq<Ptr>, x: Ptr): int {
    if s == [] || s[0] == x then 0 else 1 + IndexIn(s[1..], x)
  }

  ghost function RanksOf(s: seq<Ptr>): Ranks {
    x => IndexIn(s, x)
  }

  lemma {:induction false} IndexInAt(s: seq<Ptr>, i: nat)
    requires i < |s| && (forall j :: 0 <= j < i ==> s[j] != s[i])
    ensures IndexIn(s, s[i]) == i
  {
    if 0 < i {
      assert s[1..][i - 1] == s[i] && s[0] != s[i];
      assert forall j :: 0 <= j < i - 1 ==> s[1..][j] == s[j + 1];
      IndexInAt(s[1..], i - 1);
    }
  }

  lemma {:induction false} IndexInAbsent(s: seq<Ptr>, x: Ptr)
    requires x !in s
    ensures IndexIn(s, x) == |s|
  {
    if s != [] {
      IndexInAbsent(s[1..], x);
    }
  }

  lemma SortedRanks(less: (Ptr, Ptr) -> bool, s: seq<Ptr>)
    requires StrictOrder(less) && Sorted(less, s) && NIL !in s
    ensures Increasing(RanksOf(s), s, -1, |s|) && RanksOf(s)(NIL) == |s|
  {
    forall i | 0 <= i < |s| ensures RanksOf(s)(s[i]) == i {
      IndexInAt(s, i);
    }
    IndexInAbsent(s, NIL);
  }

  /** The store holds exactly tree `t` and the sentinel with its caches. */
  ghost predicate Represents(m: Store, t: Tree) {
    && NIL in m && m[NIL] == Hook(First(Inorder(t)), NIL, Root(t), false)
    && Repr(m, t, NIL)
    && (forall x :: x in m <==> x == NIL || x in Inorder(t))
  }

  lemma RepresentsHolds(less: (Ptr, Ptr) -> bool, m: Store, t: Tree)
    requires Represents(m, t) && StrictOrder(less) && Sorted(less, Inorder(t)) && NIL !in Inorder(t)
    ensures Holds(RanksOf(Inorder(t)), m, Top, t)
  {
    var rk := RanksOf(Inorder(t));
    SortedRanks(less, Inorder(t));
    IncreasingMeansRanked(rk, t, -1, rk(NIL));
  }

  function Side(m: Store, x: Ptr, s: bool): Ptr
    requires x in m
  {
    if s then m[x].left else m[x].right
  }

  ghost function Near(s: bool, t: Tree): Tree
    requires t.Node?
  {
    if s then t.left else t.right
  }

  ghost function StraightContext(c: Context, t: Tree): Context
    requires c.Up? && t.Node?
  {
    Up(c.up, !c.s, t.id, true, Near(c.s, t))
  }

  ghost function StraightTree(c: Context, t: Tree): Tree
    requires c.Up? && t.Node?
  {
    Mk(!c.s, c.sib, c.id, true, Near(!c.s, t))
  }

  ghost function LineContext(c: Context): Context
    requires c.Up? && c.up.Up?
  {
    Up(c.up.up, c.s, c.id, false, Mk(!c.s, c.up.sib, c.up.id, true, c.sib))
  }

  /** The nodes around a red node under a red parent, as the insertion fix-up reads them. */
  lemma InsertSite(rk: Ranks, m: Store, c: Context, t: Tree)
    requires Holds(rk, m, c, t) && t.Node? && c.Up? && c.up.Up?
    ensures t.id in m && m[t.id].parent == c.id && c.id in m && m[c.id].parent == c.up.id && c.up.id in m
    ensures m[c.up.id].left == c.id <==> c.up.s
    ensures Side(m, c.up.id, !c.up.s) == Root(c.up.sib) && Root(c.up.sib) in m &&
      m[Root(c.up.sib)].red == IsRed(c.up.sib)
    ensures Side(m, c.id, !c.up.s) == t.id <==> c.s != c.up.s
  {
    Neighbours(rk, m, c, t);
    HoldsUp(rk, m, c.up, c.s, t, c.id, c.red, c.sib);
    Neighbours(rk, m, c.up, Mk(c.s, t, c.id, c.red, c.sib));
    assert Repr(m, c.up.sib, c.up.id);
  }

  lemma LineSite(rk: Ranks, m: Store, c: Context, t: Tree)
    requires Holds(rk, m, c, t) && c.Up? && c.up.Up?
    ensures c.id in m && c.up.id in m && c.id != c.up.id && c.id != NIL && c.up.id != NIL && Root(c.sib) in m &&
      Root(c.sib) != c.up.id
    ensures m[c.up.id].parent in m
    ensures Side(m, c.up.id, c.up.s) == c.id && Side(m, c.id, !c.s) == Root(c.sib)
  {
    Neighbours(rk, m, c, t);
    HoldsUp(rk, m, c.up, c.s, t, c.id, c.red, c.sib);
    Neighbours(rk, m, c.up, Mk(c.s, t, c.id, c.red, c.sib));
    ContextRange(rk, c.up);
    var lo, hi := if c.s then rk(c.id) else Lo(rk, c.up), if c.s then Hi(rk, c.up) else rk(c.id);
    RankedWiden(rk, c.sib, lo, hi, Lo(rk, c.up), Hi(rk, c.up));
  }

  /** Everything before the hole is less than `elem` and everything after it greater. */
  ghost predicate Around(less: (Ptr, Ptr) -> bool, c: Context, elem: Ptr) {
    && (forall i :: 0 <= i < |Before(c)| ==> less(Before(c)[i], elem))
    && (forall i :: 0 <= i < |After(c)| ==> less(elem, After(c)[i]))
  }

  lemma SortedAround(less: (Ptr, Ptr) -> bool, b: seq<Ptr>, x: Ptr, a: seq<Ptr>)
    requires Sorted(less, b + [x] + a)
    ensures forall i :: 0 <= i < |b| ==> less(b[i], x)
    ensures forall i :: 0 <= i < |a| ==> less(x, a[i])
  {
    var s := b + [x] + a;
    assert s[|b|] == x;
    assert forall i :: 0 <= i < |b| ==> s[i] == b[i];
    assert forall i :: 0 <= i < |a| ==> s[|b| + 1 + i] == a[i];
  }

  /** One step of the search keeps `elem` between the two sides. */
  lemma Descend(less: (Ptr, Ptr) -> bool, c: Context, t: Tree, elem: Ptr)
    requires StrictOrder(less) && Sorted(less, Inorder(Plug(c, t))) && t.Node? && elem != t.id && Around(less, c, elem)
    ensures less(elem, t.id) ==> Around(less, Up(c, true, t.id, t.red, t.right), elem)
    ensures !less(elem, t.id) ==> Around(less, Up(c, false, t.id, t.red, t.left), elem)
  {
    NodeInorder(c, t);
    var b, a := Before(c) + Inorder(t.left), Inorder(t.right) + After(c);
    SortedAround(less, b, t.id, a);
    if less(elem, t.id) {
      var c' := Up(c, true, t.id, t.red, t.right);
      assert Before(c') == Before(c) && After(c') == [t.id] + a;
      forall i | 0 <= i < |After(c')| ensures less(elem, After(c')[i]) {
        assert i == 0 || After(c')[i] == a[i - 1];
      }
    } else {
      var c' := Up(c, false, t.id, t.red, t.left);
      assert After(c') == After(c) && Before(c') == b + [t.id];
      forall i | 0 <= i < |Before(c')| ensures less(Before(c')[i], elem) {
        assert i == |b| || Before(c')[i] == b[i];
      }
    }
  }

  lemma SortedWith(less: (Ptr, Ptr) -> bool, b: seq<Ptr>, elem: Ptr, a: seq<Ptr>)
    requires Sorted(less, b + a)
    requires forall i :: 0 <= i < |b| ==> less(b[i], elem)
    requires forall i :: 0 <= i < |a| ==> less(elem, a[i])
    ensures Sorted(less, b + [elem] + a)
  {
    var s, s' := b + a, b + [elem] + a;
    assert forall i :: 0 <= i < |b| ==> s'[i] == s[i];
    assert forall i :: |b| < i < |s'| ==> s'[i] == s[i - 1];
  }

  ghost function Fresh(elem: Ptr): Tree {
    Node(Leaf, elem, true, Leaf)
  }

  ghost predicate InsertedInto(s: seq<Ptr>, elem: Ptr, s': seq<Ptr>) {
    exists i :: 0 <= i <= |s| && s' == s[..i] + [elem] + s[i..]
  }

  lemma RanksHold(less: (Ptr, Ptr) -> bool, t: Tree)
    requires StrictOrder(less) && Sorted(less, Inorder(t)) && NIL !in Inorder(t)
    ensures var rk := RanksOf(Inorder(t)); 0 <= rk(NIL) && Ranked(rk, t, -1, rk(NIL))
  {
    SortedRanks(less, Inorder(t));
    var rk := RanksOf(Inorder(t));
    IncreasingMeansRanked(rk, t, -1, rk(NIL));
  }

  lemma LinkRanks(rk: Ranks, rk': Ranks, m: Store, c: Context, elem: Ptr)
    requires Holds(rk, m, c, Leaf) && 0 <= rk'(NIL) && Ranked(rk', Plug(c, Fresh(elem)), -1, rk'(NIL))
    ensures Holds(rk', m, c, Leaf) && Lo(rk', c) < rk'(elem) < Hi(rk', c)
  {
    PlugRanked(rk', c, Fresh(elem));
  }

  /** The new order is the old one with `elem` put between the two sides, and is sorted again. */
  lemma LinkOrder(less: (Ptr, Ptr) -> bool, c: Context, elem: Ptr)
    requires StrictOrder(less) && Sorted(less, Inorder(Plug(c, Leaf))) && NIL !in Inorder(Plug(c, Leaf))
    requires Around(less, c, elem) && elem != NIL
    ensures Sorted(less, Inorder(Plug(c, Fresh(elem)))) && NIL !in Inorder(Plug(c, Fresh(elem)))
    ensures InsertedInto(Inorder(Plug(c, Leaf)), elem, Inorder(Plug(c, Fresh(elem))))
    ensures forall x :: x in Inorder(Plug(c, Fresh(elem))) <==> x == elem || x in Inorder(Plug(c, Leaf))
  {
    PlugInorder(c, Leaf);
    PlugInorder(c, Fresh(elem));
    var b, a := Before(c), After(c);
    assert Inorder(Plug(c, Leaf)) == b + a && Inorder(Plug(c, Fresh(elem))) == b + [elem] + a;
    SortedWith(less, b, elem, a);
    assert (b + a)[..|b|] + [elem] + (b + a)[|b|..] == b + [elem] + a;
  }

  lemma LinkMinimum(less: (Ptr, Ptr) -> bool, c: Context, elem: Ptr)
    requires StrictOrder(less) && Around(less, c, elem) && NIL !in Inorder(Plug(c, Leaf))
    ensures var min := First(Inorder(Plug(c, Leaf)));
      First(Inorder(Plug(c, Fresh(elem)))) == if min == NIL || less(elem, min) then elem else min
  {
    PlugInorder(c, Leaf);
    PlugInorder(c, Fresh(elem));
    var b, a := Before(c), After(c);
    assert Inorder(Plug(c, Leaf)) == b + a && Inorder(Plug(c, Fresh(elem))) == b + [elem] + a;
    if b != [] {
      assert (b + a)[0] == b[0] && less(b[0], elem);
    } else if a != [] {
      assert (b + a)[0] == a[0];
    }
  }

  lemma RootNil(rk: Ranks, c: Context, t: Tree)
    requires ContextRanked(rk, c) && Ranked(rk, t, Lo(rk, c), Hi(rk, c)) && Root(t) == NIL
    ensures t == Leaf
  {
    ContextRange(rk, c);
  }

  ghost function RaisedContext(c: Context): Context
    requires c.Up? && c.sib.Node?
  {
    Up(Up(c.up, c.s, c.sib.id, false, Near(!c.s, c.sib)), c.s, c.id, true, Near(c.s, c.sib))
  }

  ghost function NephewContext(c: Context): Context
    requires c.Up? && c.sib.Node? && Near(c.s, c.sib).Node?
  {
    var n := Near(c.s, c.sib);
    c.(sib := Mk(c.s, Near(c.s, n), n.id, false, Mk(c.s, Near(!c.s, n), c.sib.id, true, Near(!c.s, c.sib))))
  }

  ghost function RaisedTree(c: Context, t: Tree): Tree
    requires c.Up? && c.sib.Node? && Near(!c.s, c.sib).Node?
  {
    Mk(c.s, Mk(c.s, t, c.id, false, Near(c.s, c.sib)), c.sib.id, c.red, Near(!c.s, c.sib).(red := false))
  }

  /** The nodes around a deficit, as the deletion fix-up reads them. */
  lemma SiblingSite(rk: Ranks, m: Store, c: Context, t: Tree)
    requires Holds(rk, m, c, t) && c.Up? && c.sib.Node?
    ensures c.id in m && c.id != NIL && m[c.id].parent == Par(c.up) && Par(c.up) in m && m[c.id].red == c.red
    ensures m[c.id].left == Root(t) <==> c.s
    ensures Side(m, c.id, !c.s) == c.sib.id && c.sib.id in m && c.sib.id != NIL && c.sib.id != c.id &&
      m[c.sib.id].red == c.sib.red
    ensures Side(m, c.sib.id, true) == Root(c.sib.left) && Side(m, c.sib.id, false) == Root(c.sib.right)
    ensures Root(c.sib.left) in m && m[Root(c.sib.left)].red == IsRed(c.sib.left)
    ensures Root(c.sib.right) in m && m[Root(c.sib.right)].red == IsRed(c.sib.right)
  {
    Neighbours(rk, m, c, t);
    HoldsUp(rk, m, c.up, c.s, t, c.id, c.red, c.sib);
    HoldsUp(rk, m, c.up, !c.s, c.sib, c.id, c.red, t);
    Children(rk, m, Up(c.up, !c.s, c.id, c.red, t), c.sib);
  }

  lemma NephewSite(rk: Ranks, m: Store, c: Context, t: Tree)
    requires Holds(rk, m, c, t) && c.Up? && c.sib.Node? && Near(c.s, c.sib).Node?
    ensures var n := Near(c.s, c.sib);
      n.id in m && n.id != c.sib.id && Side(m, n.id, !c.s) == Root(Near(!c.s, n))
  {
    HoldsUp(rk, m, c.up, c.s, t, c.id, c.red, c.sib);
    HoldsUp(rk, m, c.up, !c.s, c.sib, c.id, c.red, t);
    var n, k := Near(c.s, c.sib), Up(c.up, !c.s, c.id, c.red, t);
    HoldsUp(rk, m, k, c.s, n, c.sib.id, c.sib.red, Near(!c.s, c.sib));
    Children(rk, m, Up(k, c.s, c.sib.id, c.sib.red, Near(!c.s, c.sib)), n);
  }

  lemma {:induction false} PlugNode(c: Context, t: Tree)
    requires c.Up? || t.Node?
    ensures Plug(c, t).Node?
  {
    if c.Up? {
      PlugNode(c.up, Mk(c.s, t, c.id, c.red, c.sib));
    }
  }

  ghost predicate RemovedFrom(s: seq<Ptr>, x: Ptr, s': seq<Ptr>) {
    exists i :: 0 <= i < |s| && s[i] == x && s' == s[..i] + s[i + 1..]
  }

  /** Everything in a tree but the root of a subtree. */
  ghost function Rest(c: Context, t: Tree): seq<Ptr>
    requires t.Node?
  {
    (Before(c) + Inorder(t.left)) + (Inorder(t.right) + After(c))
  }

  /** A node whose child on side `s` is the sentinel can be spliced out. */
  lemma SpliceSite(rk: Ranks, m: Store, c: Context, t: Tree, s: bool)
    requires Holds(rk, m, c, t) && t.Node? && Side(m, t.id, s) == NIL
    ensures Near(s, t) == Leaf && Side(m, t.id, !s) == Root(Near(!s, t)) && m[t.id].red == t.red &&
      m[t.id].parent == Par(c)
  {
    HoldsUp(rk, m, c, s, Near(s, t), t.id, t.red, Near(!s, t));
    RootNil(rk, Up(c, s, t.id, t.red, Near(!s, t)), Near(s, t));
  }

  lemma SpliceResult(c: Context, t: Tree, s: bool)
    requires t.Node? && Near(s, t) == Leaf && Balanced(Plug(c, t)) && !IsRed(Plug(c, t))
    ensures !t.red ==> BlackDeficit(c, Near(!s, t))
    ensures t.red ==> Balanced(Plug(c, Near(!s, t))) && !IsRed(Plug(c, Near(!s, t)))
    ensures Inorder(Plug(c, Near(!s, t))) == Rest(c, t)
  {
    SplicedBalance(c, s, t.id, t.red, Near(!s, t));
    PlugInorder(c, Near(!s, t));
  }

  lemma ReplacedInorder(c: Context, t: Tree, inner: Context, d: Ptr, dr: bool, o: Tree)
    requires t.Node? && LeftSpine(inner) && t.right == Plug(inner, Node(Leaf, d, dr, o))
    ensures Inorder(Plug(Over(inner, Up(c, false, d, t.red, t.left)), o)) == Rest(c, t)
  {
    SuccessorInorder(inner, d, dr, o);
    OverPlug(inner, Up(c, false, d, t.red, t.left), o);
    PlugInorder(c, Node(t.left, d, t.red, Plug(inner, o)));
    assert [d] + Inorder(Plug(inner, o)) == Inorder(t.right);
  }

  /** `s'` is the sorted order `s` without `x`, and `next` is what follows `x` in it. */
  ghost predicate Removal(less: (Ptr, Ptr) -> bool, s: seq<Ptr>, x: Ptr, next: Ptr, s': seq<Ptr>) {
    && Sorted(less, s') && NIL !in s' && x !in s' && RemovedFrom(s, x, s')
    && (forall y :: y in s <==> y == x || y in s')
    && First(s') == if x == First(s) then next else First(s)
  }

  lemma RemovedMembers(s: seq<Ptr>, b: seq<Ptr>, x: Ptr, a: seq<Ptr>, s': seq<Ptr>)
    requires s == b + [x] + a && s' == b + a
    ensures RemovedFrom(s, x, s')
    ensures forall y :: y in s <==> y == x || y in s'
    ensures First(s') == if b == [] then First(a) else First(s)
  {
    assert s[|b|] == x && s' == s[..|b|] + s[|b| + 1..];
  }

  lemma RemovedSorted(less: (Ptr, Ptr) -> bool, s: seq<Ptr>, b: seq<Ptr>, x: Ptr, a: seq<Ptr>, s': seq<Ptr>)
    requires Sorted(less, s) && !less(x, x) && s == b + [x] + a && s' == b + a
    ensures Sorted(less, s') && x !in s'
  {
    SortedAround(less, b, x, a);
    forall i, j | 0 <= i < j < |s'| ensures less(s'[i], s'[j]) {
      var i', j' := if i < |b| then i else i + 1, if j < |b| then j else j + 1;
      assert s'[i] == s[i'] && s'[j] == s[j'];
    }
  }

  lemma RemovedOrder(less: (Ptr, Ptr) -> bool, s: seq<Ptr>, b: seq<Ptr>, x: Ptr, a: seq<Ptr>, s': seq<Ptr>)
    requires Sorted(less, s) && !less(x, x) && NIL !in s && s == b + [x] + a && s' == b + a
    ensures Removal(less, s, x, First(a), s')
  {
    RemovedSorted(less, s, b, x, a, s');
    RemovedMembers(s, b, x, a, s');
  }

  lemma NodeInorder(c: Context, t: Tree)
    requires t.Node?
    ensures Inorder(Plug(c, t)) == (Before(c) + Inorder(t.left)) + [t.id] + (Inorder(t.right) + After(c))
  {
    PlugInorder(c, t);
  }

  lemma UnlinkOrder(less: (Ptr, Ptr) -> bool, c: Context, t: Tree, s: seq<Ptr>)
    requires StrictOrder(less) && t.Node? && s == Inorder(Plug(c, t)) && Sorted(less, s) && NIL !in s
    ensures Removal(less, s, t.id, First(Inorder(t.right) + After(c)), Rest(c, t))
  {
    NodeInorder(c, t);
    RemovedOrder(less, s, Before(c) + Inorder(t.left), t.id, Inorder(t.right) + After(c), Rest(c, t));
  }

  lemma MoveOver(p: seq<Ptr>, x: Ptr, s: seq<Ptr>)
    ensures p + ([x] + s) == (p + [x]) + s
  {
  }

  lemma FirstRemoved(less: (Ptr, Ptr) -> bool, s: seq<Ptr>, s': seq<Ptr>)
    requires StrictOrder(less) && Sorted(less, s) && s != [] && RemovedFrom(s, s[0], s')
    ensures s == [s[0]] + s'
  {
    var i :| 0 <= i < |s| && s[i] == s[0] && s' == s[..i] + s[i + 1..];
    assert i == 0;
  }

  lemma HoldsRepresents(rk: Ranks, m: Store, t: Tree, first: Ptr)
    requires Holds(rk, m, Top, t) && m[NIL].left == first && m[NIL].right == NIL && first == First(Inorder(t))
    requires forall x :: x in m <==> x == NIL || x in Inorder(t)
    ensures Represents(m, t)
  {
  }

  class IntrusiveRBTree {
    const less: (Ptr, Ptr) -> bool
    var hooks: Store
    var size: nat
    ghost var shape: Tree

    ghost function Order(): seq<Ptr>
      reads this
    {
      Inorder(shape)
    }

    ghost predicate Valid()
      reads this
    {
      && StrictOrder(less)
      && Represents(hooks, shape)
      && Balanced(shape) && !IsRed(shape)
      && Sorted(less, Order()) && NIL !in Order()
      && size == |Order()|
    }

    constructor (less: (Ptr, Ptr) -> bool)
      requires StrictOrder(less)
      ensures Valid() && Order() == [] && this.less == less
    {
      this.less := less;
      hooks := map[NIL := Hook(NIL, NIL, NIL, false)];
      size := 0;
      shape := Leaf;
    }

    method SetRed(x: Ptr, red: bool)
      requires x in hooks
      modifies this`hooks
      ensures hooks == WithRed(old(hooks), x, red)
    {
      hooks := hooks[x := hooks[x].(red := red)];
    }

    method Transplant(src: Ptr, dst: Ptr)
      requires NIL in hooks && src in hooks && dst in hooks && hooks[src].parent in hooks
      modifies this`hooks
      ensures hooks == Transplanted(old(hooks), src, dst)
    {
      var parent := hooks[src].parent;
      if parent == NIL {
        hooks := hooks[NIL := hooks[NIL].(parent := dst)];
        hooks := hooks[dst := hooks[dst].(parent := NIL)];
      } else if src == hooks[parent].left {
        hooks := hooks[parent := hooks[parent].(left := dst)];
      } else {
        hooks := hooks[parent := hooks[parent].(right := dst)];
      }
      if dst != NIL {
        hooks := hooks[dst := hooks[dst].(parent := parent)];
      }
    }

    method LeftRotate(pivot: Ptr)
      requires NIL in hooks && pivot in hooks && hooks[pivot].right in hooks && hooks[pivot].parent in hooks
      requires var y := hooks[pivot].right; y != pivot && hooks[y].left in hooks && hooks[y].left != pivot
      modifies this`hooks
      ensures var y := old(hooks[pivot].right); hooks == Rotated(old(hooks), true, pivot, y, old(hooks[y].left))
    {
      var newTop := hooks[pivot].right;
      hooks := hooks[pivot := hooks[pivot].(right := hooks[newTop].left)];
      if hooks[newTop].left != NIL {
        hooks := hooks[hooks[newTop].left := hooks[hooks[newTop].left].(parent := pivot)];
      }
      Transplant(pivot, newTop);
      hooks := hooks[newTop := hooks[newTop].(left := pivot)];
      hooks := hooks[pivot := hooks[pivot].(parent := newTop)];
    }

    method RightRotate(pivot: Ptr)
      requires NIL in hooks && pivot in hooks && hooks[pivot].left in hooks && hooks[pivot].parent in hooks
      requires var y := hooks[pivot].left; y != pivot && hooks[y].right in hooks && hooks[y].right != pivot
      modifies this`hooks
      ensures var y := old(hooks[pivot].left); hooks == Rotated(old(hooks), false, pivot, y, old(hooks[y].right))
    {
      var newTop := hooks[pivot].left;
      hooks := hooks[pivot := hooks[pivot].(left := hooks[newTop].right)];
      if hooks[newTop].right != NIL {
        hooks := hooks[hooks[newTop].right := hooks[hooks[newTop].right].(parent := pivot)];
      }
      Transplant(pivot, newTop);
      hooks := hooks[newTop := hooks[newTop].(right := pivot)];
      hooks := hooks[pivot := hooks[pivot].(parent := newTop)];
    }

    /** A rotation towards side `s`; the mirrored halves of the fix-ups differ in nothing but the side. */
    method Rotate(s: bool, pivot: Ptr, ghost y: Ptr, ghost b: Ptr)
      requires NIL in hooks && pivot in hooks && y in hooks && b in hooks && hooks[pivot].parent in hooks
      requires y == Side(hooks, pivot, !s) && b == Side(hooks, y, s) && y != pivot && b != pivot
      modifies this`hooks
      ensures hooks == Rotated(old(hooks), s, pivot, y, b)
    {
      if s {
        LeftRotate(pivot);
      } else {
        RightRotate(pivot);
      }
    }

    /** Insertion case 1: parent and uncle are red. */
    method RecolourUp(parent: Ptr, uncle: Ptr, grandparent: Ptr, ghost rk: Ranks, ghost c: Context, ghost t: Tree)
      requires Holds(rk, hooks, c, t) && RedExcess(c, t) && c.Up? && c.red && c.up.Up? && IsRed(c.up.sib)
      requires parent == c.id && uncle == c.up.sib.id && grandparent == c.up.id
      modifies this`hooks
      ensures Holds(rk, hooks, c.up.up, Recoloured(c, t)) && SameCaches(old(hooks), hooks)
    {
      InsertRecolour(rk, hooks, c, t);
      SetRed(parent, false);
      SetRed(uncle, false);
      SetRed(grandparent, true);
    }

    /** Insertion case 2: the red node is on the inside and rises above its parent. */
    method StraightenUp(left: bool, parent: Ptr, ghost rk: Ranks, ghost c: Context, ghost t: Tree)
      requires Holds(rk, hooks, c, t) && IsRed(t) && c.Up? && c.red && parent == c.id && left == !c.s
      modifies this`hooks
      ensures Holds(rk, hooks, StraightContext(c, t), StraightTree(c, t)) && SameCaches(old(hooks), hooks)
    {
      Neighbours(rk, hooks, c, t);
      Children(rk, hooks, c, t);
      InsertTriangle(rk, hooks, c, Near(left, t), t.id, Near(!left, t));
      Rotate(left, parent, t.id, Root(Near(left, t)));
    }

    /** Insertion case 3: the red node is on the outside; its parent rises above the grandparent. */
    method LineUp(left: bool, parent: Ptr, grandparent: Ptr, ghost rk: Ranks, ghost c: Context, ghost t: Tree)
      requires Holds(rk, hooks, c, t) && c.Up? && c.up.Up? && c.up.s == c.s
      requires left == c.s && parent == c.id && grandparent == c.up.id
      modifies this`hooks
      ensures Holds(rk, hooks, LineContext(c), t) && SameCaches(old(hooks), hooks)
    {
      LineSite(rk, hooks, c, t);
      InsertLine(rk, hooks, c, t);
      SetRed(parent, false);
      SetRed(grandparent, true);
      Rotate(!left, grandparent, c.id, Root(c.sib));
    }

    method InsertFixup(start: Ptr, ghost rk: Ranks, ghost c0: Context, ghost t0: Tree) returns (ghost t': Tree)
      requires Holds(rk, hooks, c0, t0) && RedExcess(c0, t0) && start == t0.id
      modifies this`hooks
      ensures Holds(rk, hooks, Top, t') && SameCaches(old(hooks), hooks)
      ensures Balanced(t') && !IsRed(t') && Inorder(t') == Inorder(Plug(c0, t0))
    {
      var node := start;
      ghost var c, t := c0, t0;
      while node != hooks[NIL].parent && hooks[hooks[node].parent].red
        invariant Holds(rk, hooks, c, t) && RedExcess(c, t) && node == t.id && SameCaches(old(hooks), hooks)
        invariant Inorder(Plug(c, t)) == Inorder(Plug(c0, t0))
        decreases if c.Up? && c.red then 1 else 0, c
      {
        RootSlot(rk, hooks, c, t.id);
        InsertSite(rk, hooks, c, t);
        var parent := hooks[node].parent;
        var grandparent := hooks[parent].parent;
        var left := parent == hooks[grandparent].left;
        var uncle := Side(hooks, grandparent, !left);
        if hooks[uncle].red {
          RecolouredExcess(c, t);
          RecolourUp(parent, uncle, grandparent, rk, c, t);
          node := grandparent;
          c, t := c.up.up, Recoloured(c, t);
        } else {
          if node == Side(hooks, parent, !left) {
            TriangleExcess(c, Near(left, t), t.id, Near(!left, t));
            node := parent;
            StraightenUp(left, node, rk, c, t);
            c, t := StraightContext(c, t), StraightTree(c, t);
            Neighbours(rk, hooks, c, t);
            parent := hooks[node].parent;
          }
          LineExcess(c, t);
          LineUp(left, parent, grandparent, rk, c, t);
          c := LineContext(c);
        }
      }
      RootSlot(rk, hooks, c, t.id);
      if c.Up? {
        Neighbours(rk, hooks, c, t);
      }
      t' := Plug(c, t);
      HoldsPlug(rk, hooks, c, t);
      PlugBalanced(c, t);
      RecolouredHolds(rk, hooks, Top, t', false);
      SetRed(hooks[NIL].parent, false);
      t' := t'.(red := false);
    }

    method Insert(elem: Ptr) returns (inserted: bool)
      requires Valid() && elem != NIL
      modifies this
      ensures Valid()
      ensures inserted <==> elem !in old(Order())
      ensures !inserted ==> hooks == old(hooks) && Order() == old(Order())
      ensures inserted ==> InsertedInto(old(Order()), elem, Order())
    {
      if elem in hooks {
        return false;
      }
      ghost var t := InsertNew(elem);
      size := size + 1;
      shape := t;
      inserted := true;
    }

    method InsertNew(elem: Ptr) returns (ghost t: Tree)
      requires Valid() && elem != NIL && elem !in hooks
      modifies this`hooks
      ensures Represents(hooks, t) && Balanced(t) && !IsRed(t)
      ensures Sorted(less, Inorder(t)) && NIL !in Inorder(t) && InsertedInto(Order(), elem, Inorder(t))
    {
      ghost var m0 := hooks;
      hooks := hooks[elem := Hook(NIL, NIL, NIL, true)];
      ghost var c;
      var parent;
      parent, c := Search(elem, m0);
      LinkOrder(less, c, elem);
      RanksHold(less, Plug(c, Fresh(elem)));
      ghost var rk := RanksOf(Inorder(Plug(c, Fresh(elem))));
      LinkRanks(RanksOf(Order()), rk, m0, c, elem);
      LinkMinimum(less, c, elem);
      ContextOfBalanced(c, Leaf);
      t := LinkAndFix(elem, parent, rk, c, m0);
    }

    method LinkAndFix(elem: Ptr, parent: Ptr, ghost rk: Ranks, ghost c: Context, ghost m0: Store)
      returns (ghost t: Tree)
      requires Holds(rk, m0, c, Leaf) && Lo(rk, c) < rk(elem) < Hi(rk, c) && elem !in m0 && ContextBalanced(c, 0)
      requires hooks == m0[elem := Hook(NIL, NIL, NIL, true)] && parent == Par(c) && (c.Up? ==> c.s == less(elem, c.id))
      requires Represents(m0, Plug(c, Leaf))
      requires var order, min := Inorder(Plug(c, Fresh(elem))), m0[NIL].left;
        && First(order) == (if min == NIL || less(elem, min) then elem else min)
        && (forall x :: x in order <==> x == elem || x in Inorder(Plug(c, Leaf)))
      modifies this`hooks
      ensures Represents(hooks, t) && Balanced(t) && !IsRed(t) && Inorder(t) == Inorder(Plug(c, Fresh(elem)))
    {
      Link(elem, parent, rk, c, m0);
      UpdateMinimum(elem, rk, c);
      t := InsertFixup(elem, rk, c, Fresh(elem));
      HoldsRepresents(rk, hooks, t, First(Inorder(t)));
    }

    method UpdateMinimum(elem: Ptr, ghost rk: Ranks, ghost c: Context)
      requires Holds(rk, hooks, c, Fresh(elem))
      modifies this`hooks
      ensures Holds(rk, hooks, c, Fresh(elem)) && hooks.Keys == old(hooks).Keys &&
        hooks[NIL].right == old(hooks)[NIL].right
      ensures var min := old(hooks)[NIL].left; hooks[NIL].left == if min == NIL || less(elem, min) then elem else min
    {
      var min := hooks[NIL].left;
      if min == NIL || less(elem, min) {
        CachedHolds(rk, hooks, c, Fresh(elem), elem);
        hooks := hooks[NIL := hooks[NIL].(left := elem)];
      }
    }

    /** Walks down to the empty hole where `elem` belongs. */
    method Search(elem: Ptr, ghost m0: Store) returns (parent: Ptr, ghost c: Context)
      requires StrictOrder(less) && Sorted(less, Order()) && NIL !in Order() && Represents(m0, shape)
      requires elem !in m0 && elem != NIL && hooks == m0[elem := Hook(NIL, NIL, NIL, true)]
      ensures parent == Par(c) && (c.Up? ==> c.s == less(elem, c.id)) && Around(less, c, elem)
      ensures Plug(c, Leaf) == shape && Holds(RanksOf(Order()), m0, c, Leaf)
      ensures parent == NIL <==> Order() == []
    {
      ghost var rk := RanksOf(Order());
      ghost var sub := shape;
      c := Top;
      parent := NIL;
      RepresentsHolds(less, m0, shape);
      var cursor := hooks[NIL].parent;
      while cursor != NIL
        invariant Holds(rk, m0, c, sub) && Plug(c, sub) == shape && Around(less, c, elem)
        invariant cursor == Root(sub) && parent == Par(c)
        invariant c.Up? ==> c.s == less(elem, c.id)
        invariant c.Up? ==> parent != NIL && shape.Node?
        decreases sub
      {
        Children(rk, m0, c, sub);
        Descend(less, c, sub, elem);
        parent := cursor;
        if less(elem, cursor) {
          HoldsUp(rk, m0, c, true, sub.left, sub.id, sub.red, sub.right);
          cursor := hooks[cursor].left;
          c, sub := Up(c, true, sub.id, sub.red, sub.right), sub.left;
        } else {
          HoldsUp(rk, m0, c, false, sub.right, sub.id, sub.red, sub.left);
          cursor := hooks[cursor].right;
          c, sub := Up(c, false, sub.id, sub.red, sub.left), sub.right;
        }
      }
      RootNil(rk, c, sub);
    }

    /** Hangs the fresh node where the search ended. */
    method Link(elem: Ptr, parent: Ptr, ghost rk: Ranks, ghost c: Context, ghost m0: Store)
      requires Holds(rk, m0, c, Leaf) && Lo(rk, c) < rk(elem) < Hi(rk, c) && elem !in m0
      requires hooks == m0[elem := Hook(NIL, NIL, NIL, true)] && parent == Par(c) && (c.Up? ==> c.s == less(elem, c.id))
      modifies this`hooks
      ensures Holds(rk, hooks, c, Fresh(elem))
      ensures hooks.Keys == m0.Keys + {elem} && hooks[NIL].left == m0[NIL].left && hooks[NIL].right == m0[NIL].right
    {
      if c.Up? {
        Neighbours(rk, m0, c, Leaf);
      }
      hooks := hooks[elem := hooks[elem].(parent := parent)];
      if parent == NIL {
        hooks := hooks[NIL := hooks[NIL].(parent := elem)];
        hooks := hooks[elem := hooks[elem].(parent := NIL)];
      } else if less(elem, parent) {
        hooks := hooks[parent := hooks[parent].(left := elem)];
      } else {
        hooks := hooks[parent := hooks[parent].(right := elem)];
      }
      LinkedHolds(rk, m0, hooks, c, elem);
    }

    // ----- Deletion -----

    /** Deletion case 1: the sibling is red. */
    method RaiseRedSibling(left: bool, parent: Ptr, sibling: Ptr, ghost rk: Ranks, ghost c: Context, ghost t: Tree)
      requires Holds(rk, hooks, c, t) && c.Up? && c.sib.Node? && left == c.s && parent == c.id && sibling == c.sib.id
      modifies this`hooks
      ensures Holds(rk, hooks, RaisedContext(c), t) && SameCaches(old(hooks), hooks)
    {
      SiblingSite(rk, hooks, c, t);
      DeleteRedSibling(rk, hooks, c, t, Near(left, c.sib), c.sib.id, c.sib.red, Near(!left, c.sib));
      SetRed(sibling, false);
      SetRed(parent, true);
      Rotate(left, parent, sibling, Root(Near(left, c.sib)));
    }

    /** Deletion case 3: the near nephew is red and the far one black. */
    method RaiseNearNephew(left: bool, sibling: Ptr, near: Ptr, ghost rk: Ranks, ghost c: Context, ghost t: Tree)
      requires Holds(rk, hooks, c, t) && c.Up? && c.sib.Node? && !c.sib.red && IsRed(Near(c.s, c.sib))
      requires left == c.s && sibling == c.sib.id && near == Near(c.s, c.sib).id
      modifies this`hooks
      ensures Holds(rk, hooks, NephewContext(c), t) && SameCaches(old(hooks), hooks)
    {
      ghost var n := Near(left, c.sib);
      SiblingSite(rk, hooks, c, t);
      NephewSite(rk, hooks, c, t);
      DeleteNearNephew(rk, hooks, c, t, Near(left, n), n.id, Near(!left, n), c.sib.id, Near(!left, c.sib));
      SetRed(near, false);
      SetRed(sibling, true);
      Rotate(!left, sibling, near, Root(Near(!left, n)));
    }

    /** Deletion case 4: the far nephew is red. */
    method RaiseSibling(left: bool, parent: Ptr, sibling: Ptr, ghost rk: Ranks, ghost c: Context, ghost t: Tree)
      requires Holds(rk, hooks, c, t) && c.Up? && c.sib.Node? && !c.sib.red && IsRed(Near(!c.s, c.sib))
      requires left == c.s && parent == c.id && sibling == c.sib.id
      modifies this`hooks
      ensures Holds(rk, hooks, c.up, RaisedTree(c, t)) && SameCaches(old(hooks), hooks)
    {
      ghost var far := Near(!left, c.sib);
      SiblingSite(rk, hooks, c, t);
      DeleteFarNephew(rk, hooks, c, t, Near(left, c.sib), c.sib.id, far);
      SetRed(sibling, hooks[parent].red);
      SetRed(parent, false);
      SetRed(Side(hooks, sibling, !left), false);
      Rotate(left, parent, sibling, Root(Near(left, c.sib)));
    }

    method DeleteFixup(orphan: Ptr, orphanParent: Ptr, ghost rk: Ranks, ghost c0: Context, ghost t0: Tree)
      returns (ghost t': Tree)
      requires Holds(rk, hooks, c0, t0) && BlackDeficit(c0, t0) && orphan == Root(t0) && orphanParent == Par(c0)
      modifies this`hooks
      ensures Holds(rk, hooks, Top, t') && SameCaches(old(hooks), hooks)
      ensures Balanced(t') && !IsRed(t') && Inorder(t') == Inorder(Plug(c0, t0))
    {
      var node, parent := orphan, orphanParent;
      ghost var c, t := c0, t0;
      while node != hooks[NIL].parent && !hooks[node].red
        invariant Holds(rk, hooks, c, t) && BlackDeficit(c, t) && node == Root(t) && parent == Par(c)
        invariant SameCaches(old(hooks), hooks) && Inorder(Plug(c, t)) == Inorder(Plug(c0, t0))
        decreases if c.Up? && !IsRed(t) then 1 else 0, c
      {
        RootSlot(rk, hooks, c, node);
        DeficitSibling(c, t);
        SiblingSite(rk, hooks, c, t);
        var left := node == hooks[parent].left;
        var sibling := Side(hooks, parent, !left);
        if hooks[sibling].red {
          RedSibling(c, t, Near(left, c.sib), c.sib.id, Near(!left, c.sib));
          RaiseRedSibling(left, parent, sibling, rk, c, t);
          c := RaisedContext(c);
          DeficitSibling(c, t);
          SiblingSite(rk, hooks, c, t);
          sibling := Side(hooks, parent, !left);
        }
        node, parent, c, t := DeleteStep(left, parent, sibling, rk, c, t);
      }
      RootSlot(rk, hooks, c, node);
      ContextRange(rk, c);
      t' := PayDeficit(node, rk, c, t);
    }

    /** The last act of the deletion fix-up: blackens the node. */
    method PayDeficit(node: Ptr, ghost rk: Ranks, ghost c: Context, ghost t: Tree) returns (ghost t': Tree)
      requires Holds(rk, hooks, c, t) && BlackDeficit(c, t) && node == Root(t) && (c.Top? || IsRed(t))
      modifies this`hooks
      ensures Holds(rk, hooks, Top, t') && SameCaches(old(hooks), hooks)
      ensures Balanced(t') && !IsRed(t') && Inorder(t') == Inorder(Plug(c, t))
    {
      if t.Node? {
        RecolouredHolds(rk, hooks, c, t, false);
      }
      if IsRed(t) {
        DeficitPaid(c, t);
      }
      SetRed(node, false);
      t' := Plug(c, Blackened(t));
      HoldsPlug(rk, hooks, c, Blackened(t));
    }

    /** Deletion cases 2 to 4: the sibling is black. */
    method DeleteStep(left: bool, parent: Ptr, black: Ptr, ghost rk: Ranks, ghost c: Context, ghost t: Tree)
      returns (node': Ptr, parent': Ptr, ghost c': Context, ghost t': Tree)
      requires Holds(rk, hooks, c, t) && BlackDeficit(c, t) && !IsRed(t) && c.Up? && c.sib.Node? && !c.sib.red
      requires left == c.s && parent == c.id && black == c.sib.id
      modifies this`hooks
      ensures Holds(rk, hooks, c', t') && BlackDeficit(c', t') && node' == Root(t') && parent' == Par(c')
      ensures SameCaches(old(hooks), hooks) && Inorder(Plug(c', t')) == Inorder(Plug(c, t))
      ensures c'.Top? || (c' == c.up && (c.red ==> IsRed(t')))
    {
      var sibling := black;
      SiblingSite(rk, hooks, c, t);
      var near := Side(hooks, sibling, left);
      var far := Side(hooks, sibling, !left);
      if !hooks[near].red && !hooks[far].red {
        BlackNephews(c, t);
        DeleteBlackNephews(rk, hooks, c, t);
        SetRed(sibling, true);
        node', c', t' := parent, c.up, Mk(c.s, t, c.id, c.red, c.sib.(red := true));
        parent' := hooks[node'].parent;
      } else {
        ghost var k := c;
        if !hooks[far].red {
          ghost var n := Near(left, c.sib);
          NearNephew(c, t, Near(left, n), n.id, Near(!left, n), c.sib.id, Near(!left, c.sib));
          RaiseNearNephew(left, sibling, near, rk, c, t);
          k := NephewContext(c);
          SiblingSite(rk, hooks, k, t);
          sibling := Side(hooks, parent, !left);
        }
        FarNephew(k, t, Near(left, k.sib), k.sib.id, Near(!left, k.sib));
        RaiseSibling(left, parent, sibling, rk, k, t);
        HoldsPlug(rk, hooks, k.up, RaisedTree(k, t));
        node', parent', c', t' := hooks[NIL].parent, NIL, Top, Plug(k.up, RaisedTree(k, t));
      }
    }

    method Minimum(start: Ptr, ghost rk: Ranks, ghost c: Context, ghost t: Tree)
      returns (node: Ptr, ghost inner: Context, ghost red: bool, ghost o: Tree)
      requires Holds(rk, hooks, c, t) && t.Node? && start == t.id
      ensures node == First(Inorder(t))
      ensures LeftSpine(inner) && t == Plug(inner, Node(Leaf, node, red, o))
    {
      node := start;
      ghost var sub := t;
      inner := Top;
      Children(rk, hooks, c, t);
      while hooks[node].left != NIL
        invariant sub.Node? && node == sub.id && LeftSpine(inner) && t == Plug(inner, sub)
        invariant Holds(rk, hooks, Over(inner, c), sub) && node in hooks && hooks[node].left == Root(sub.left)
        decreases sub
      {
        node := hooks[node].left;
        HoldsUp(rk, hooks, Over(inner, c), true, sub.left, sub.id, sub.red, sub.right);
        inner, sub := Up(inner, true, sub.id, sub.red, sub.right), sub.left;
        Children(rk, hooks, Over(inner, c), sub);
      }
      RootNil(rk, Up(Over(inner, c), true, sub.id, sub.red, sub.right), sub.left);
      red, o := sub.red, sub.right;
      SuccessorInorder(inner, node, red, o);
    }

    /** The node after `start` in key order, or the sentinel. */
    method Next(start: Ptr, ghost rk: Ranks, ghost c0: Context, ghost t0: Tree) returns (next: Ptr)
      requires Holds(rk, hooks, c0, t0) && t0.Node? && start == t0.id
      ensures next == First(Inorder(t0.right) + After(c0))
    {
      Children(rk, hooks, c0, t0);
      if hooks[start].right != NIL {
        HoldsUp(rk, hooks, c0, false, t0.right, t0.id, t0.red, t0.left);
        ghost var inner, red, o;
        next, inner, red, o := Minimum(hooks[start].right, rk, Up(c0, false, t0.id, t0.red, t0.left), t0.right);
        SuccessorInorder(inner, next, red, o);
        return;
      }
      RootNil(rk, Up(c0, false, t0.id, t0.red, t0.left), t0.right);
      RootSlot(rk, hooks, c0, start);
      if start == hooks[NIL].parent {
        return NIL;
      }
      var node := start;
      ghost var c, t := c0, t0;
      while true
        invariant Holds(rk, hooks, c, t) && t.Node? && node == t.id && After(c) == After(c0)
        decreases c
      {
        var parent := hooks[node].parent;
        if c.Up? {
          Neighbours(rk, hooks, c, t);
          HoldsUp(rk, hooks, c.up, c.s, t, c.id, c.red, c.sib);
        }
        if parent == NIL {
          return NIL;
        }
        if node == hooks[parent].left {
          return parent;
        }
        node := parent;
        c, t := c.up, Mk(c.s, t, c.id, c.red, c.sib);
      }
    }

    /** Unlinks a node that has no child on side `s`. */
    method SpliceOut(target: Ptr, s: bool, ghost rk: Ranks, ghost c: Context, ghost red: bool, ghost o: Tree)
      requires Holds(rk, hooks, c, Mk(s, Leaf, target, red, o))
      modifies this`hooks
      ensures Holds(rk, hooks, c, o) && SameCaches(old(hooks), hooks)
    {
      SiteSplice(rk, hooks, c, s, target, red, o);
      TransplantedSlots(hooks, target, Root(o), Par(c));
      ghost var m := hooks;
      Transplant(target, Side(hooks, target, !s));
      SplicedHolds(rk, m, hooks, c, s, target, red, o);
    }

    /** Puts the detached node `d` in the place of `x`. */
    method Seat(x: Ptr, d: Ptr)
      requires NIL in hooks && x in hooks && d in hooks && hooks[x].parent in hooks && hooks[x].left in hooks
      modifies this`hooks
      ensures hooks == Seated(old(hooks), x, d)
    {
      Transplant(x, d);
      hooks := hooks[d := hooks[d].(left := hooks[x].left)];
      hooks := hooks[hooks[d].left := hooks[hooks[d].left].(parent := d)];
      SetRed(d, hooks[x].red);
    }

    /** The successor is the right child: it already has the right subtree. */
    method SeatSuccessor(x: Ptr, d: Ptr, ghost rk: Ranks, ghost c: Context, ghost l: Tree, ghost red: bool,
          ghost r: Tree)
      requires Vacant(rk, hooks, c, l, x, d, r, d) && l.Node?
      requires hooks[x].left == l.id && hooks[x].red == red && hooks[d].right == Root(r)
      modifies this`hooks
      ensures Holds(rk, hooks, c, Node(l, d, red, r)) && SameCaches(old(hooks), hooks)
    {
      ghost var m := hooks;
      ReplaceSite(rk, m, c, l, x, d, r, d);
      assert m == (if Root(r) != NIL then WithParent(WithKid(m, d, false, Root(r)), Root(r), d)
        else WithKid(m, d, false, Root(r)));
      SeatedSlots(m, m, x, d, l.id, Root(r), Par(c));
      Seat(x, d);
      ReplacedHolds(rk, m, hooks, c, l, x, red, d, r, d);
    }

    /** The successor is deeper and has been detached: it takes over both subtrees. */
    method RaiseSuccessor(x: Ptr, d: Ptr, ghost rk: Ranks, ghost c: Context, ghost l: Tree, ghost red: bool,
          ghost r: Tree)
      requires Vacant(rk, hooks, c, l, x, x, r, d) && l.Node? && r.Node?
      requires hooks[x].left == l.id && hooks[x].red == red && hooks[x].right == r.id
      modifies this`hooks
      ensures Holds(rk, hooks, c, Node(l, d, red, r)) && SameCaches(old(hooks), hooks)
    {
      ghost var m := hooks;
      ReplaceSite(rk, m, c, l, x, x, r, d);
      hooks := hooks[d := hooks[d].(right := hooks[x].right)];
      hooks := hooks[hooks[d].right := hooks[hooks[d].right].(parent := d)];
      assert hooks == WithParent(WithKid(m, d, false, r.id), r.id, d);
      SeatedSlots(m, hooks, x, d, l.id, r.id, Par(c));
      Seat(x, d);
      ReplacedHolds(rk, m, hooks, c, l, x, red, x, r, d);
    }

    /** Unlinks a node with two children by putting its successor in its place. */
    method ReplaceBySuccessor(target: Ptr, ghost rk: Ranks, ghost c: Context, ghost t: Tree)
      returns (orphan: Ptr, orphanParent: Ptr, red: bool, ghost inner: Context, ghost d: Ptr, ghost o: Tree)
      requires Holds(rk, hooks, c, t) && t.Node? && t.left.Node? && t.right.Node? && target == t.id
      modifies this`hooks
      ensures LeftSpine(inner) && t.right == Plug(inner, Node(Leaf, d, red, o)) && SameCaches(old(hooks), hooks)
      ensures Holds(rk, hooks, Over(inner, Up(c, false, d, t.red, t.left)), o)
      ensures orphan == Root(o) && orphanParent == Par(Over(inner, Up(c, false, d, t.red, t.left)))
    {
      ghost var detachRed;
      ghost var m0 := hooks;
      Children(rk, hooks, c, t);
      HoldsUp(rk, hooks, c, false, t.right, t.id, t.red, t.left);
      var detach;
      detach, inner, detachRed, o := Minimum(hooks[target].right, rk, Up(c, false, t.id, t.red, t.left), t.right);
      d := detach;
      SuccessorSite(rk, hooks, c, t.left, target, t.red, inner, d, detachRed, o);
      SuccessorHolds(rk, hooks, c, t.left, target, t.red, inner, d, detachRed, o);
      assert Repr(hooks, o, d);
      red := hooks[detach].red;
      orphan := hooks[detach].right;
      if hooks[detach].parent == target {
        orphanParent := detach;
        if orphan != NIL {
          hooks := hooks[orphan := hooks[orphan].(parent := detach)];
        }
        assert hooks == m0;
        SeatSuccessor(target, detach, rk, c, t.left, t.red, o);
      } else {
        orphanParent := hooks[detach].parent;
        SpliceOut(detach, true, rk, Over(inner, Up(c, false, target, t.red, t.left)), red, o);
        HoldsOver(rk, hooks, inner, Up(c, false, target, t.red, t.left), o);
        HoldsUp(rk, hooks, c, false, Plug(inner, o), target, t.red, t.left);
        PlugNode(inner, o);
        RaiseSuccessor(target, detach, rk, c, t.left, t.red, Plug(inner, o));
      }
      HoldsUp(rk, hooks, c, false, Plug(inner, o), d, t.red, t.left);
      HoldsOver(rk, hooks, inner, Up(c, false, d, t.red, t.left), o);
    }

    /** Takes `target` out of the tree; the deficit, if any, is at the orphan. */
    method Unlink(target: Ptr, ghost rk: Ranks, ghost c: Context, ghost t: Tree)
      returns (orphan: Ptr, orphanParent: Ptr, red: bool, ghost k: Context, ghost o: Tree)
      requires Holds(rk, hooks, c, t) && t.Node? && target == t.id && Balanced(Plug(c, t)) && !IsRed(Plug(c, t))
      modifies this`hooks
      ensures Holds(rk, hooks, k, o) && SameCaches(old(hooks), hooks)
      ensures orphan == Root(o) && orphanParent == Par(k)
      ensures Inorder(Plug(k, o)) == Rest(c, t)
      ensures !red ==> BlackDeficit(k, o)
      ensures red ==> Balanced(Plug(k, o)) && !IsRed(Plug(k, o))
    {
      Children(rk, hooks, c, t);
      if hooks[target].left == NIL {
        SpliceSite(rk, hooks, c, t, true);
        SpliceResult(c, t, true);
        red, orphan, orphanParent := hooks[target].red, hooks[target].right, hooks[target].parent;
        SpliceOut(target, true, rk, c, t.red, t.right);
        k, o := c, t.right;
      } else if hooks[target].right == NIL {
        SpliceSite(rk, hooks, c, t, false);
        SpliceResult(c, t, false);
        red, orphan, orphanParent := hooks[target].red, hooks[target].left, hooks[target].parent;
        SpliceOut(target, false, rk, c, t.red, t.left);
        k, o := c, t.left;
      } else {
        ghost var inner, d;
        orphan, orphanParent, red, inner, d, o := ReplaceBySuccessor(target, rk, c, t);
        k := Over(inner, Up(c, false, d, t.red, t.left));
        ReplacedBalance(c, t.left, target, t.red, inner, d, red, o);
        ReplacedInorder(c, t, inner, d, red, o);
      }
    }

    method Erase(elem: Ptr) returns (erased: bool)
      requires Valid() && elem != NIL
      modifies this
      ensures Valid()
      ensures erased <==> elem in old(Order())
      ensures !erased ==> hooks == old(hooks) && Order() == old(Order())
      ensures erased ==> RemovedFrom(old(Order()), elem, Order()) && elem !in Order()
    {
      if elem !in hooks {
        return false;
      }
      ghost var t := EraseLinked(elem);
      size := size - 1;
      shape := t;
      erased := true;
    }

    method EraseLinked(target: Ptr) returns (ghost t': Tree)
      requires Valid() && target != NIL && target in hooks
      modifies this`hooks
      ensures Represents(hooks, t') && Balanced(t') && !IsRed(t')
      ensures Sorted(less, Inorder(t')) && NIL !in Inorder(t') && target !in Inorder(t') &&
        RemovedFrom(Order(), target, Inorder(t'))
    {
      ghost var rk := RanksOf(Order());
      RepresentsHolds(less, hooks, shape);
      ghost var c, t := Locate(shape, target, Top);
      HoldsPlug(rk, hooks, c, t);
      UnlinkOrder(less, c, t, Order());
      AdvanceMinimum(target, rk, c, t);
      ghost var k, o;
      var orphan, orphanParent, red;
      orphan, orphanParent, red, k, o := Unlink(target, rk, c, t);
      t' := Plug(k, o);
      HoldsPlug(rk, hooks, k, o);
      if !red {
        t' := DeleteFixup(orphan, orphanParent, rk, k, o);
      }
      ReprWithout(hooks, t', NIL, target);
      hooks := hooks - {target};
    }

    /** Moves the cached minimum on when it is about to be erased. */
    method AdvanceMinimum(target: Ptr, ghost rk: Ranks, ghost c: Context, ghost t: Tree)
      requires Holds(rk, hooks, c, t) && t.Node? && target == t.id
      modifies this`hooks
      ensures Holds(rk, hooks, c, t) && hooks.Keys == old(hooks).Keys && hooks[NIL].right == old(hooks)[NIL].right
      ensures hooks[NIL].left == if target == old(hooks)[NIL].left then First(Inorder(t.right) + After(c))
        else old(hooks)[NIL].left
    {
      if target == hooks[NIL].left {
        var next := Next(hooks[NIL].left, rk, c, t);
        CachedHolds(rk, hooks, c, t, next);
        hooks := hooks[NIL := hooks[NIL].(left := next)];
      }
    }

    method Earliest() returns (elem: Ptr)
      requires Valid()
      ensures elem == First(Order())
      ensures elem != NIL ==> forall x :: x in Order() && x != elem ==> less(elem, x)
    {
      elem := hooks[NIL].left;
    }

    method PopEarliest() returns (elem: Ptr)
      requires Valid() && size != 0
      modifies this
      ensures Valid() && old(Order()) == [elem] + Order()
    {
      ghost var order := Order();
      elem := hooks[NIL].left;
      var _ := Erase(elem);
      FirstRemoved(less, order, Order());
    }

    /** Extracts the earliest elements while they satisfy `pred`, in key order. */
    method PopWhile(pred: Ptr -> bool) returns (popped: seq<Ptr>)
      requires Valid()
      modifies this
      ensures Valid() && popped + Order() == old(Order())
      ensures forall i :: 0 <= i < |popped| ==> pred(popped[i])
      ensures Order() != [] ==> !pred(Order()[0])
    {
      popped := [];
      while size != 0
        invariant Valid() && popped + Order() == old(Order())
        invariant forall i :: 0 <= i < |popped| ==> pred(popped[i])
        decreases size
      {
        var elem := Earliest();
        if !pred(elem) {
          break;
        }
        elem := PopEarliest();
        MoveOver(popped, elem, Order());
        popped := popped + [elem];
      }
    }
  }
}
