/**
 The intrusive 4-ary heap. Elements are numbered and compared by a rank; every linked element carries the place at which
 it stands in the heap.
 */
module QuadHeap {

  type Elem = int

  function Parent(child: nat): nat
    requires child > 0
    ensures Parent(child) < child
  {
    (child - 1) / 4
  }

  function FirstChild(parent: nat): nat {
    4 * parent + 1
  }

  lemma Children(p: nat, c: nat)
    requires c > 0
    ensures Parent(c) == p <==> FirstChild(p) <= c < FirstChild(p) + 4
  {
  }

  /** The element at `c` is no smaller than the one above it. */
  ghost predicate Ordered(rank: Elem -> int, heap: seq<Elem>, c: nat)
    requires 0 < c < |heap|
  {
    rank(heap[Parent(c)]) <= rank(heap[c])
  }

  ghost predicate HeapOrder(rank: Elem -> int, heap: seq<Elem>) {
    forall c: nat :: 0 < c < |heap| ==> Ordered(rank, heap, c)
  }

  /** What is above `h` is no greater than what is below it. */
  ghost predicate Bridged(rank: Elem -> int, heap: seq<Elem>, h: nat) {
    forall c: nat :: 0 < c < |heap| && 0 < h && Parent(c) == h ==> rank(heap[Parent(h)]) <= rank(heap[c])
  }

  /** In order, except that the element at `h` may belong higher up. */
  ghost predicate RisesAt(rank: Elem -> int, heap: seq<Elem>, h: nat) {
    h < |heap| && (forall c: nat :: 0 < c < |heap| && c != h ==> Ordered(rank, heap, c)) && Bridged(rank, heap, h)
  }

  /** In order, except that the element at `h` may belong further down. */
  ghost predicate SinksAt(rank: Elem -> int, heap: seq<Elem>, h: nat) {
    h < |heap| && (forall c: nat :: 0 < c < |heap| && Parent(c) != h ==> Ordered(rank, heap, c)) &&
      Bridged(rank, heap, h)
  }

  function Swapped(heap: seq<Elem>, i: nat, j: nat): seq<Elem>
    requires i < |heap| && j < |heap|
  {
    heap[i := heap[j]][j := heap[i]]
  }

  lemma SwapUp(rank: Elem -> int, heap: seq<Elem>, h: nat)
    requires RisesAt(rank, heap, h) && h > 0 && rank(heap[h]) < rank(heap[Parent(h)])
    ensures RisesAt(rank, Swapped(heap, h, Parent(h)), Parent(h))
  {
    var p := Parent(h);
    var s := Swapped(heap, h, p);
    forall c: nat | 0 < c < |s| && c != p ensures Ordered(rank, s, c) {
      if c != h {
        assert Ordered(rank, heap, c);
      }
    }
    if p > 0 {
      assert Ordered(rank, heap, p);
      forall c: nat | 0 < c < |s| && Parent(c) == p ensures rank(s[Parent(p)]) <= rank(s[c]) {
        if c != h {
          assert Ordered(rank, heap, c);
        }
      }
    }
  }

  lemma RisenIsOrdered(rank: Elem -> int, heap: seq<Elem>, h: nat)
    requires RisesAt(rank, heap, h) && (h == 0 || rank(heap[Parent(h)]) <= rank(heap[h]))
    ensures HeapOrder(rank, heap)
  {
  }

  /** `s` is a smallest child of `h`. */
  ghost predicate SmallestChild(rank: Elem -> int, heap: seq<Elem>, h: nat, s: nat) {
    0 < s < |heap| && Parent(s) == h && forall c: nat :: 0 < c < |heap| && Parent(c) == h ==>
      rank(heap[s]) <= rank(heap[c])
  }

  lemma SwapDown(rank: Elem -> int, heap: seq<Elem>, h: nat, s: nat)
    requires SinksAt(rank, heap, h) && SmallestChild(rank, heap, h, s) && rank(heap[s]) < rank(heap[h])
    ensures SinksAt(rank, Swapped(heap, h, s), s)
  {
    var t := Swapped(heap, h, s);
    forall c: nat | 0 < c < |t| && Parent(c) != s ensures Ordered(rank, t, c) {
      if c != h && Parent(c) != h {
        assert Ordered(rank, heap, c);
      }
    }
    forall c: nat | 0 < c < |t| && Parent(c) == s ensures rank(t[Parent(s)]) <= rank(t[c]) {
      assert Ordered(rank, heap, c);
    }
  }

  lemma SunkIsOrdered(rank: Elem -> int, heap: seq<Elem>, h: nat)
    requires SinksAt(rank, heap, h)
    requires forall c: nat :: 0 < c < |heap| && Parent(c) == h ==> rank(heap[h]) <= rank(heap[c])
    ensures HeapOrder(rank, heap)
  {
  }

  /** The root is a smallest element. */
  lemma {:induction false} RootSmallest(rank: Elem -> int, heap: seq<Elem>, i: nat)
    requires HeapOrder(rank, heap) && i < |heap|
    ensures rank(heap[0]) <= rank(heap[i])
  {
    if i > 0 {
      assert Ordered(rank, heap, i);
      RootSmallest(rank, heap, Parent(i));
    }
  }

  // ----- Places -----

  /** Every element of the heap knows its place, and nobody else claims one. */
  ghost predicate Placed(heap: seq<Elem>, index: map<Elem, nat>) {
    && (forall i :: 0 <= i < |heap| ==> heap[i] in index && index[heap[i]] == i)
    && (forall e :: e in index ==> index[e] < |heap| && heap[index[e]] == e)
  }

  lemma SwapPlaced(heap: seq<Elem>, index: map<Elem, nat>, i: nat, j: nat)
    requires Placed(heap, index) && i < |heap| && j < |heap|
    ensures var s := Swapped(heap, i, j);
      Placed(s, index[s[i] := i][s[j] := j]) && index[s[i] := i][s[j] := j].Keys == index.Keys
  {
    var s := Swapped(heap, i, j);
    var x := index[s[i] := i][s[j] := j];
    assert x.Keys == index.Keys;
    forall k | 0 <= k < |s| ensures s[k] in x && x[s[k]] == k {
      if k != i && k != j {
        assert index[heap[k]] == k && index[heap[i]] == i && index[heap[j]] == j;
      }
    }
  }

  lemma PushPlaced(heap: seq<Elem>, index: map<Elem, nat>, e: Elem)
    requires Placed(heap, index) && e !in index
    ensures Placed(heap + [e], index[e := |heap|])
  {
  }

  lemma PopPlaced(heap: seq<Elem>, index: map<Elem, nat>)
    requires Placed(heap, index) && heap != []
    ensures var n := |heap| - 1; Placed(heap[..n], index - {heap[n]})
  {
    var n := |heap| - 1;
    forall e | e in index - {heap[n]} ensures index[e] < n && heap[..n][index[e]] == e {
      assert heap[index[e]] == e;
    }
  }

  /** The last element takes the place of another one. */
  lemma MovePlaced(heap: seq<Elem>, index: map<Elem, nat>, i: nat)
    requires Placed(heap, index) && i < |heap| - 1
    ensures var n := |heap| - 1;
      Placed(heap[..n][i := heap[n]], (index - {heap[i]})[heap[n] := i])
      && (index - {heap[i]})[heap[n] := i].Keys == index.Keys - {heap[i]}
  {
    var n := |heap| - 1;
    var h, x := heap[..n][i := heap[n]], (index - {heap[i]})[heap[n] := i];
    assert heap[i] != heap[n] by { assert index[heap[i]] == i && index[heap[n]] == n; }
    assert x.Keys == index.Keys - {heap[i]};
    forall k | 0 <= k < |h| ensures h[k] in x && x[h[k]] == k {
      assert index[heap[k]] == k && index[heap[n]] == n && index[heap[i]] == i;
    }
    forall e | e in x ensures x[e] < |h| && h[x[e]] == e {
      if e != heap[n] {
        assert heap[index[e]] == e;
      }
    }
  }

  // ----- Order -----

  lemma PushRises(rank: Elem -> int, heap: seq<Elem>, e: Elem)
    requires HeapOrder(rank, heap)
    ensures RisesAt(rank, heap + [e], |heap|)
  {
    var h := heap + [e];
    forall c: nat | 0 < c < |h| && c != |heap| ensures Ordered(rank, h, c) {
      assert Ordered(rank, heap, c);
    }
  }

  lemma PopOrdered(rank: Elem -> int, heap: seq<Elem>)
    requires HeapOrder(rank, heap) && heap != []
    ensures HeapOrder(rank, heap[..|heap| - 1])
  {
    var h := heap[..|heap| - 1];
    forall c: nat | 0 < c < |h| ensures Ordered(rank, h, c) {
      assert Ordered(rank, heap, c);
    }
  }

  /** A foreign element put at `i` rises if it is smaller than what is above it, and otherwise sinks. */
  lemma ReplacedRisesOrSinks(rank: Elem -> int, heap: seq<Elem>, i: nat, e: Elem)
    requires HeapOrder(rank, heap) && i < |heap|
    ensures var h := heap[i := e];
      if i > 0 && rank(e) < rank(heap[Parent(i)]) then RisesAt(rank, h, i) else SinksAt(rank, h, i)
  {
    var h := heap[i := e];
    forall c: nat | 0 < c < |h| && c != i && Parent(c) != i ensures Ordered(rank, h, c) {
      assert Ordered(rank, heap, c);
    }
    if i > 0 {
      assert Ordered(rank, heap, i);
      forall c: nat | 0 < c < |h| && Parent(c) == i ensures rank(h[Parent(i)]) <= rank(h[c]) {
        assert Ordered(rank, heap, c);
      }
    }
  }

  // ----- The heap -----

  class IntrusiveQuadHeap {
    const rank: Elem -> int
    var heap: seq<Elem>
    /** The hooks of the linked elements. */
    var index: map<Elem, nat>

    constructor (rank: Elem -> int)
      ensures this.rank == rank && Valid() && index.Keys == {}
    {
      this.rank := rank;
      heap, index := [], map[];
    }

    ghost predicate Valid()
      reads this
    {
      Placed(heap, index) && HeapOrder(rank, heap)
    }

    method SwapNodes(i: nat, j: nat)
      requires Placed(heap, index) && i < |heap| && j < |heap|
      modifies this
      ensures heap == Swapped(old(heap), i, j) && Placed(heap, index) && index.Keys == old(index.Keys)
    {
      SwapPlaced(heap, index, i, j);
      heap := heap[i := heap[j]][j := heap[i]];
      index := index[heap[i] := i][heap[j] := j];
    }

    method SiftUp(start: nat)
      requires Placed(heap, index) && RisesAt(rank, heap, start)
      modifies this
      ensures Valid() && index.Keys == old(index.Keys)
    {
      var child := start;
      while child > 0
        invariant Placed(heap, index) && RisesAt(rank, heap, child) && index.Keys == old(index.Keys)
      {
        var parent := Parent(child);
        if rank(heap[child]) >= rank(heap[parent]) { break; }
        SwapUp(rank, heap, child);
        SwapNodes(child, parent);
        child := parent;
      }
      RisenIsOrdered(rank, heap, child);
    }

    /** The smallest child of a node that has children. */
    method Smallest(parent: nat) returns (s: nat)
      requires FirstChild(parent) < |heap|
      ensures SmallestChild(rank, heap, parent, s)
    {
      var first := FirstChild(parent);
      var end := if first + 4 < |heap| then first + 4 else |heap|;
      s := first;
      for next := first + 1 to end
        invariant first <= s < next
        invariant forall c: nat :: first <= c < next ==> rank(heap[s]) <= rank(heap[c])
      {
        if rank(heap[next]) < rank(heap[s]) {
          s := next;
        }
      }
      Children(parent, s);
      forall c: nat | 0 < c < |heap| && Parent(c) == parent ensures rank(heap[s]) <= rank(heap[c]) {
        Children(parent, c);
      }
    }

    method SiftDown(start: nat)
      requires Placed(heap, index) && SinksAt(rank, heap, start)
      modifies this
      ensures Valid() && index.Keys == old(index.Keys)
    {
      var parent := start;
      while true
        invariant Placed(heap, index) && SinksAt(rank, heap, parent) && index.Keys == old(index.Keys)
        invariant |heap| == |old(heap)|
        decreases |old(heap)| - parent
      {
        if FirstChild(parent) >= |heap| {
          Childless(rank, heap, parent);
          break;
        }
        var smallest := Smallest(parent);
        if rank(heap[smallest]) >= rank(heap[parent]) {
          SunkIsOrdered(rank, heap, parent);
          break;
        }
        SwapDown(rank, heap, parent, smallest);
        SwapNodes(parent, smallest);
        parent := smallest;
      }
    }

    method Insert(e: Elem) returns (ok: bool)
      requires Valid()
      modifies this
      ensures Valid() && (ok <==> e !in old(index)) && index.Keys == old(index.Keys) + {e}
    {
      if e in index { return false; }
      PushPlaced(heap, index, e);
      PushRises(rank, heap, e);
      heap := heap + [e];
      index := index[e := |heap| - 1];
      SiftUp(|heap| - 1);
      return true;
    }

    method Erase(e: Elem) returns (ok: bool)
      requires Valid()
      modifies this
      ensures Valid() && (ok <==> e in old(index)) && index.Keys == old(index.Keys) - {e}
    {
      if e !in index { return false; }
      var last, i := heap[|heap| - 1], index[e];
      PopOrdered(rank, heap);
      if i == |heap| - 1 {
        PopPlaced(heap, index);
        heap := heap[..|heap| - 1];
        index := index - {e};
        return true;
      }
      MovePlaced(heap, index, i);
      heap := heap[..|heap| - 1];
      index := index - {e};
      ReplacedRisesOrSinks(rank, heap, i, last);
      heap := heap[i := last];
      index := index[last := i];
      if i > 0 && rank(heap[i]) < rank(heap[Parent(i)]) {
        SiftUp(i);
      } else {
        SiftDown(i);
      }
      return true;
    }

    /** Takes elements off the top, in order, while they satisfy the predicate. */
    method PopWhile(pred: Elem -> bool) returns (popped: seq<Elem>)
      requires Valid()
      modifies this
      ensures Valid() && PoppedInOrder(rank, pred, old(index.Keys), index.Keys, popped)
      ensures heap != [] ==> !pred(heap[0]) && forall r :: r in index ==> rank(heap[0]) <= rank(r)
    {
      popped := [];
      while heap != []
        invariant Valid() && PoppedInOrder(rank, pred, old(index.Keys), index.Keys, popped)
        decreases |index.Keys|
      {
        var top := heap[0];
        TopSmallest(rank, heap, index);
        if !pred(top) { break; }
        PopNext(rank, pred, old(index.Keys), index.Keys, popped, top);
        var _ := Erase(top);
        popped := popped + [top];
      }
    }
  }

  /** What was popped came out in order and satisfies the predicate, and what is left is no smaller than any of it. */
  ghost predicate PoppedInOrder(rank: Elem -> int, pred: Elem -> bool, was: set<Elem>, left: set<Elem>,
        popped: seq<Elem>) {
    && left == was - Elements(popped) && Elements(popped) <= was
    && Rising(rank, popped) && (forall e :: e in popped ==> pred(e))
    && (forall e, r :: e in popped && r in left ==> rank(e) <= rank(r))
  }

  lemma PopNext(rank: Elem -> int, pred: Elem -> bool, was: set<Elem>, left: set<Elem>, popped: seq<Elem>, top: Elem)
    requires PoppedInOrder(rank, pred, was, left, popped) && top in left && pred(top)
    requires forall r :: r in left ==> rank(top) <= rank(r)
    ensures PoppedInOrder(rank, pred, was, left - {top}, popped + [top])
  {
    assert Elements(popped + [top]) == Elements(popped) + {top};
    forall e | e in popped ensures e != top {
      assert e in Elements(popped);
    }
  }

  ghost function Elements(s: seq<Elem>): set<Elem> {
    set e | e in s
  }

  /** Nondecreasing, and no element twice. */
  ghost predicate Rising(rank: Elem -> int, s: seq<Elem>) {
    forall i, j :: 0 <= i < j < |s| ==> rank(s[i]) <= rank(s[j]) && s[i] != s[j]
  }

  lemma Childless(rank: Elem -> int, heap: seq<Elem>, h: nat)
    requires SinksAt(rank, heap, h) && FirstChild(h) >= |heap|
    ensures HeapOrder(rank, heap)
  {
    forall c: nat | 0 < c < |heap| ensures Parent(c) != h {
      Children(h, c);
    }
    SunkIsOrdered(rank, heap, h);
  }

  lemma TopSmallest(rank: Elem -> int, heap: seq<Elem>, index: map<Elem, nat>)
    requires Placed(heap, index) && HeapOrder(rank, heap) && heap != []
    ensures heap[0] in index && forall r :: r in index ==> rank(heap[0]) <= rank(r)
  {
    forall r | r in index ensures rank(heap[0]) <= rank(r) {
      RootSmallest(rank, heap, index[r]);
    }
  }
}
