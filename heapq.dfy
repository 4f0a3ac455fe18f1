/**
 * The binary min-heap algorithms of Python's heapq module, as used by
 * data_struct/PriorityQueue.py: heappush (append, then sift the new entry
 * towards the root) and heappop (move the last entry to the root, walk it
 * down to a leaf along the smaller children, then sift it back up).
 *
 * An entry is a (priority, item) pair. Entries are compared by priority
 * only: the items the solver stores have no ordering of their own.
 */
module Heapq {

  datatype Entry<T> = Entry(priority: int, item: T)

  function Parent(i: nat): nat
    requires i > 0
  {
    (i - 1) / 2
  }

  /** Every entry is no smaller than its parent. */
  ghost predicate IsHeap<T>(h: seq<Entry<T>>) {
    forall j :: 0 < j < |h| ==> h[Parent(j)].priority <= h[j].priority
  }

  /** The invariant as heapq documents it: heap[k] <= heap[2k+1] and heap[k] <= heap[2k+2]. */
  ghost predicate IsHeapDocumented<T>(h: seq<Entry<T>>) {
    forall k :: 0 <= k < |h| ==>
      (2 * k + 1 < |h| ==> h[k].priority <= h[2 * k + 1].priority) &&
      (2 * k + 2 < |h| ==> h[k].priority <= h[2 * k + 2].priority)
  }

  lemma HeapIsDocumentedInvariant<T>(h: seq<Entry<T>>)
    ensures IsHeap(h) <==> IsHeapDocumented(h)
  {
    if IsHeap(h) {
      forall k | 0 <= k < |h|
        ensures 2 * k + 1 < |h| ==> h[k].priority <= h[2 * k + 1].priority
        ensures 2 * k + 2 < |h| ==> h[k].priority <= h[2 * k + 2].priority
      {
        if 2 * k + 1 < |h| { assert Parent(2 * k + 1) == k; }
        if 2 * k + 2 < |h| { assert Parent(2 * k + 2) == k; }
      }
    }
    if IsHeapDocumented(h) {
      forall j | 0 < j < |h|
        ensures h[Parent(j)].priority <= h[j].priority
      {
        var k := Parent(j);
        assert j == 2 * k + 1 || j == 2 * k + 2;
      }
    }
  }

  /** The root of a heap holds a smallest priority. */
  lemma {:induction false} RootIsMinimal<T>(h: seq<Entry<T>>, i: nat)
    requires IsHeap(h) && i < |h|
    ensures h[0].priority <= h[i].priority
    decreases i
  {
    if i > 0 {
      RootIsMinimal(h, Parent(i));
    }
  }

  /** Heap order holds except between `pos` and its parent; the parent of `pos`
      is no larger than the children of `pos`. */
  ghost predicate HeapExceptParentOf<T>(h: seq<Entry<T>>, pos: nat) {
    && (forall j :: 0 < j < |h| && j != pos ==> h[Parent(j)].priority <= h[j].priority)
    && (forall j :: 0 < j < |h| && pos > 0 && Parent(j) == pos ==> h[Parent(pos)].priority <= h[j].priority)
  }

  /** Heap order holds on every edge that does not touch `pos`; the parent of
      `pos` is no larger than the children of `pos`. */
  ghost predicate HeapExceptAround<T>(h: seq<Entry<T>>, pos: nat) {
    && (forall j :: 0 < j < |h| && j != pos && Parent(j) != pos ==> h[Parent(j)].priority <= h[j].priority)
    && (forall j :: 0 < j < |h| && pos > 0 && Parent(j) == pos ==> h[Parent(pos)].priority <= h[j].priority)
  }

  function Swap<T>(h: seq<T>, i: nat, j: nat): (r: seq<T>)
    requires i < |h| && j < |h|
    ensures |r| == |h| && multiset(r) == multiset(h)
    ensures r[i] == h[j] && r[j] == h[i]
    ensures forall k :: 0 <= k < |h| && k != i && k != j ==> r[k] == h[k]
  {
    h[i := h[j]][j := h[i]]
  }

  /** The only indices whose parent is `pos` are 2 * pos + 1 and 2 * pos + 2. */
  lemma ChildrenOf(n: nat, pos: nat)
    ensures forall s :: 0 < s < n && Parent(s) == pos ==> s == 2 * pos + 1 || s == 2 * pos + 2
  {
  }

  /** At a leaf, the disorder around `pos` is only the edge to its parent. */
  lemma LeafDisorder<T>(r: seq<Entry<T>>, pos: nat)
    requires HeapExceptAround(r, pos) && |r| <= 2 * pos + 1
    ensures HeapExceptParentOf(r, pos)
  {
    ChildrenOf(|r|, pos);
  }

  /** Moving the smaller child of `pos` up into `pos` moves the disorder down to the child. */
  lemma DescentStep<T>(r: seq<Entry<T>>, pos: nat, child: nat)
    requires HeapExceptAround(r, pos)
    requires child < |r| && (child == 2 * pos + 1 || child == 2 * pos + 2)
    requires child == 2 * pos + 1 && child + 1 < |r| ==> r[child].priority < r[child + 1].priority
    requires child == 2 * pos + 2 ==> r[child].priority <= r[child - 1].priority
    ensures HeapExceptAround(Swap(r, pos, child), child)
  {
    ChildrenOf(|r|, pos);
    assert Parent(child) == pos;
    var r' := Swap(r, pos, child);
    forall j | 0 < j < |r'| && j != child && Parent(j) != child
      ensures r'[Parent(j)].priority <= r'[j].priority
    {
      if j == pos {
      } else if Parent(j) == pos {
      } else {
        assert j != pos && Parent(j) != pos;
      }
    }
    forall j | 0 < j < |r'| && Parent(j) == child
      ensures r'[Parent(child)].priority <= r'[j].priority
    {
      assert j != pos && j != child;
    }
  }

  /** heapq._siftdown(heap, 0, pos): move the entry at `pos` towards the root
      while it is smaller than its parent. */
  method SiftTowardsRoot<T>(h: seq<Entry<T>>, pos0: nat) returns (r: seq<Entry<T>>)
    requires pos0 < |h| && HeapExceptParentOf(h, pos0)
    ensures IsHeap(r) && multiset(r) == multiset(h) && |r| == |h|
  {
    r := h;
    var pos: nat := pos0;
    while pos > 0
      invariant pos < |r| == |h| && multiset(r) == multiset(h)
      invariant HeapExceptParentOf(r, pos)
      decreases pos
    {
      var parent := Parent(pos);
      if r[pos].priority < r[parent].priority {
        r := Swap(r, pos, parent);
        pos := parent;
      } else {
        break;
      }
    }
  }

  /** The descent of heapq._siftup(heap, pos): move the smaller child up into
      `pos` (the right child when it is not larger than the left) until `pos`
      is a leaf. */
  method SiftToLeaf<T>(h: seq<Entry<T>>, pos0: nat) returns (r: seq<Entry<T>>, pos: nat)
    requires pos0 < |h| && HeapExceptAround(h, pos0)
    ensures pos < |r| == |h| && multiset(r) == multiset(h)
    ensures 2 * pos + 1 >= |r|
    ensures HeapExceptParentOf(r, pos)
  {
    r, pos := h, pos0;
    while 2 * pos + 1 < |r|
      invariant pos < |r| == |h| && multiset(r) == multiset(h)
      invariant HeapExceptAround(r, pos)
      decreases |r| - pos
    {
      var child := 2 * pos + 1;
      if child + 1 < |r| && !(r[child].priority < r[child + 1].priority) {
        child := child + 1;
      }
      DescentStep(r, pos, child);
      r := Swap(r, pos, child);
      pos := child;
    }
    LeafDisorder(r, pos);
  }

  /** heapq.heappush: the new heap holds the old entries and `e`. */
  method HeapPush<T>(h: seq<Entry<T>>, e: Entry<T>) returns (r: seq<Entry<T>>)
    requires IsHeap(h)
    ensures IsHeap(r)
    ensures multiset(r) == multiset(h) + multiset{e} && |r| == |h| + 1
  {
    r := h + [e];
    assert forall j :: 0 <= j < |h| ==> r[j] == h[j];
    r := SiftTowardsRoot(r, |h|);
  }

  /** heapq.heappop: removes one entry of smallest priority. */
  method HeapPop<T>(h: seq<Entry<T>>) returns (e: Entry<T>, r: seq<Entry<T>>)
    requires IsHeap(h) && |h| > 0
    ensures IsHeap(r)
    ensures multiset(h) == multiset(r) + multiset{e} && |r| == |h| - 1
    ensures forall i :: 0 <= i < |r| ==> e.priority <= r[i].priority
  {
    var last := h[|h| - 1];
    var rest := h[..|h| - 1];
    assert h == rest + [last];
    if |rest| == 0 {
      e, r := last, [];
      return;
    }
    e := rest[0];
    forall i | 0 <= i < |h| ensures e.priority <= h[i].priority {
      RootIsMinimal(h, i);
    }
    assert multiset(h) == multiset(rest) + multiset{last};
    var moved := rest[0 := last];
    assert multiset(moved) == multiset(rest) - multiset{e} + multiset{last};
    var pos;
    r, pos := SiftToLeaf(moved, 0);
    r := SiftTowardsRoot(r, pos);
    assert forall x :: x in multiset(r) ==> x in multiset(h);
    forall i | 0 <= i < |r| ensures e.priority <= r[i].priority {
      assert r[i] in multiset(r);
    }
  }
}
