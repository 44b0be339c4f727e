/** The per-thread blob heap. The standard heap algorithms, called with the blob
    comparator (a before b when a is strictly stronger), keep the weakest blob at the
    front: a min-heap on the response value. Each algorithm is modelled by a textbook
    sift on a vector value and is specified by what the C++ standard guarantees of it
    (heap order, same elements, where the front goes); the exact placement of the other
    elements is left to the implementation and is not relied on. */
module BlobHeap {
  import opened Blobs

  /** Index of the parent of entry i in the implicit binary tree. */
  function Parent(i: nat): nat
    requires i > 0
  {
    (i - 1) / 2
  }

  /** Entry i is at least as strong as its parent (the root has none). */
  ghost predicate ParentOrdered(h: seq<Blob>, i: nat)
    requires i < |h|
  {
    i == 0 || h[Parent(i)].value <= h[i].value
  }

  /** Every entry is at least as strong as its parent. */
  ghost predicate IsMinHeap(h: seq<Blob>)
  {
    forall i :: 0 <= i < |h| ==> ParentOrdered(h, i)
  }

  /** The front of a min-heap is a weakest entry. */
  lemma {:induction false} HeapFrontIsMin(h: seq<Blob>, i: nat)
    requires IsMinHeap(h) && i < |h|
    ensures h[0].value <= h[i].value
    decreases i
  {
    if i > 0 {
      assert ParentOrdered(h, i);
      HeapFrontIsMin(h, Parent(i));
    }
  }

  lemma HeapFrontBoundsAll(h: seq<Blob>)
    requires IsMinHeap(h) && |h| > 0
    ensures AllAtLeast(h, h[0].value)
  {
    forall i | 0 <= i < |h| ensures h[i].value >= h[0].value {
      HeapFrontIsMin(h, i);
    }
  }

  /** Swapping two entries keeps the same elements. */
  lemma SwapKeepsElements(s: seq<Blob>, i: nat, j: nat)
    requires i < |s| && j < |s|
    ensures multiset(s[i := s[j]][j := s[i]]) == multiset(s)
  {
  }

  /** push_heap: the last entry of h joins the heap formed by the entries before it. */
  method PushHeap(h: seq<Blob>) returns (r: seq<Blob>)
    requires |h| > 0 && IsMinHeap(h[..|h| - 1])
    ensures |r| == |h| && IsMinHeap(r) && multiset(r) == multiset(h)
  {
    r := h;
    var i := |h| - 1;
    forall j | 0 <= j < i ensures ParentOrdered(h, j) {
      assert ParentOrdered(h[..|h| - 1], j);
    }
    while i > 0 && r[Parent(i)].value > r[i].value
      invariant 0 <= i < |r| == |h|
      invariant multiset(r) == multiset(h)
      invariant HeapExceptAbove(r, i)
      decreases i
    {
      SiftUpStep(r, i);
      r := r[i := r[Parent(i)]][Parent(i) := r[i]];
      i := Parent(i);
    }
    SiftUpDone(r, i);
  }

  /** Heap order holds for every parent link except the one above i, and the parent of i
      already bounds the children of i. */
  ghost predicate HeapExceptAbove(s: seq<Blob>, i: nat)
  {
    && (forall j :: 0 <= j < |s| && j != i ==> ParentOrdered(s, j))
    && (0 < i ==> forall j :: 0 < j < |s| && Parent(j) == i ==> s[Parent(i)].value <= s[j].value)
  }

  /** One swap of the sift-up moves the exception from i up to its parent. */
  lemma SiftUpStep(s: seq<Blob>, i: nat)
    requires 0 < i < |s| && HeapExceptAbove(s, i) && s[Parent(i)].value > s[i].value
    ensures HeapExceptAbove(s[i := s[Parent(i)]][Parent(i) := s[i]], Parent(i))
    ensures multiset(s[i := s[Parent(i)]][Parent(i) := s[i]]) == multiset(s)
  {
    var p := Parent(i);
    SwapKeepsElements(s, i, p);
    var r := s[i := s[p]][p := s[i]];
    forall j | 0 <= j < |r| && j != p ensures ParentOrdered(r, j) {
      if j == i {
      } else if j > 0 && Parent(j) == i {
        // a child of i now sits below the old parent of i
      } else {
        assert ParentOrdered(s, j);
      }
    }
    if p > 0 {
      forall j | 0 < j < |r| && Parent(j) == p ensures r[Parent(p)].value <= r[j].value {
        assert ParentOrdered(s, p);
        if j != i {
          assert ParentOrdered(s, j);
        }
      }
    }
  }

  /** The sift-up stops at the root or below a parent no stronger than the entry. */
  lemma SiftUpDone(s: seq<Blob>, i: nat)
    requires i < |s| && HeapExceptAbove(s, i) && (i == 0 || s[Parent(i)].value <= s[i].value)
    ensures IsMinHeap(s)
  {
    assert ParentOrdered(s, i);
  }

  /** Heap order holds for every parent link except those from i to its children, and
      the parent of i already bounds the children of i. */
  ghost predicate HeapExceptBelow(s: seq<Blob>, i: nat)
  {
    && (forall j :: 0 <= j < |s| && (j == 0 || Parent(j) != i) ==> ParentOrdered(s, j))
    && (0 < i < |s| ==> forall j :: 0 < j < |s| && Parent(j) == i ==> s[Parent(i)].value <= s[j].value)
  }

  /** c is the weaker child of i: on equal values the left child is taken. */
  ghost predicate IsWeakerChild(s: seq<Blob>, i: nat, c: nat)
  {
    && c < |s| && (c == 2 * i + 1 || c == 2 * i + 2)
    && (c == 2 * i + 1 && c + 1 < |s| ==> s[c].value <= s[c + 1].value)
    && (c == 2 * i + 2 ==> s[c].value < s[c - 1].value)
  }

  function WeakerChild(s: seq<Blob>, i: nat): (c: nat)
    requires 2 * i + 1 < |s|
    ensures IsWeakerChild(s, i, c)
  {
    if 2 * i + 2 < |s| && s[2 * i + 2].value < s[2 * i + 1].value then 2 * i + 2 else 2 * i + 1
  }

  /** The sift-down of pop_heap: the root of s may be out of place, every other parent
      link holds; moving it down makes s a heap again. */
  method SiftDown(s: seq<Blob>) returns (r: seq<Blob>)
    requires HeapExceptBelow(s, 0)
    ensures |r| == |s| && IsMinHeap(r) && multiset(r) == multiset(s)
  {
    r := s;
    var i := 0;
    var settled := |s| == 0;
    while !settled
      invariant |r| == |s| && (!settled ==> i < |r|)
      invariant multiset(r) == multiset(s)
      invariant settled ==> IsMinHeap(r)
      invariant !settled ==> HeapExceptBelow(r, i)
      decreases |r| - i, !settled
    {
      if 2 * i + 1 >= |r| {
        SiftDownAtLeaf(r, i);
        settled := true;
      } else {
        var c := WeakerChild(r, i);
        if r[i].value <= r[c].value {
          SiftDownSettled(r, i, c);
          settled := true;
        } else {
          SiftDownStep(r, i, c);
          r := r[i := r[c]][c := r[i]];
          i := c;
        }
      }
    }
  }

  lemma ChildrenOf(i: nat, j: nat)
    requires j > 0
    ensures Parent(j) == i <==> j == 2 * i + 1 || j == 2 * i + 2
  {
  }

  /** The sift-down stops at a node without children. */
  lemma SiftDownAtLeaf(s: seq<Blob>, i: nat)
    requires HeapExceptBelow(s, i) && |s| <= 2 * i + 1
    ensures IsMinHeap(s)
  {
    forall j | 0 <= j < |s| ensures ParentOrdered(s, j) {
      if j > 0 {
        ChildrenOf(i, j);
      }
    }
  }

  /** The sift-down stops once i is no stronger than its weaker child. */
  lemma SiftDownSettled(s: seq<Blob>, i: nat, c: nat)
    requires HeapExceptBelow(s, i) && IsWeakerChild(s, i, c) && s[i].value <= s[c].value
    ensures IsMinHeap(s)
  {
    forall j | 0 <= j < |s| ensures ParentOrdered(s, j) {
      if j > 0 {
        ChildrenOf(i, j);
      }
    }
  }

  /** One swap of the sift-down moves the exception from i down to its weaker child c. */
  lemma SiftDownStep(s: seq<Blob>, i: nat, c: nat)
    requires HeapExceptBelow(s, i) && IsWeakerChild(s, i, c) && s[c].value < s[i].value
    ensures HeapExceptBelow(s[i := s[c]][c := s[i]], c)
    ensures multiset(s[i := s[c]][c := s[i]]) == multiset(s)
  {
    var r := s[i := s[c]][c := s[i]];
    SwapKeepsElements(s, i, c);
    forall j | 0 <= j < |r| && (j == 0 || Parent(j) != c) ensures ParentOrdered(r, j) {
      SwapKeepsLink(s, i, c, j);
    }
    forall j | 0 < j < |r| && Parent(j) == c ensures r[Parent(c)].value <= r[j].value {
      ChildrenOf(i, c);
      assert ParentOrdered(s, j);
    }
  }

  /** After the swap, every parent link except those below c holds. */
  lemma SwapKeepsLink(s: seq<Blob>, i: nat, c: nat, j: nat)
    requires HeapExceptBelow(s, i) && IsWeakerChild(s, i, c) && s[c].value < s[i].value
    requires j < |s| && (j == 0 || Parent(j) != c)
    ensures ParentOrdered(s[i := s[c]][c := s[i]], j)
  {
    if j > 0 {
      ChildrenOf(i, j);
      ChildrenOf(i, c);
      if j == c {
        // the weaker child moved up above the old root of the subtree
      } else if Parent(j) == i {
        // the sibling of c: c was the weaker child
      } else if j == i {
        // the old parent of i bounds the child moved up
      } else {
        assert ParentOrdered(s, j);
      }
    }
  }

  /** pop_heap: the front moves to the back, and the entries before it form a heap again. */
  method PopHeap(h: seq<Blob>) returns (r: seq<Blob>)
    requires |h| > 0 && IsMinHeap(h)
    ensures |r| == |h| && r[|r| - 1] == h[0]
    ensures IsMinHeap(r[..|r| - 1]) && multiset(r) == multiset(h)
  {
    var n := |h| - 1;
    if n == 0 {
      r := h;
      return;
    }
    var s := [h[n]] + h[1..n];
    forall j | 0 <= j < |s| && (j == 0 || Parent(j) != 0) ensures ParentOrdered(s, j) {
      assert ParentOrdered(h, j);
    }
    assert HeapExceptBelow(s, 0);
    var sifted := SiftDown(s);
    r := sifted + [h[0]];
    assert h == [h[0]] + h[1..n] + [h[n]];
    assert r[..|r| - 1] == sifted;
  }

  /** sort_heap: pop the front to the back repeatedly; the result is strongest first. */
  method SortHeap(h: seq<Blob>) returns (r: seq<Blob>)
    requires IsMinHeap(h)
    ensures SortedDescending(r) && multiset(r) == multiset(h)
  {
    r := h;
    var end := |h|;
    assert r[..end] == h;
    while end > 1
      invariant 0 <= end <= |r| == |h|
      invariant end == 0 ==> |h| == 0
      invariant multiset(r) == multiset(h)
      invariant IsMinHeap(r[..end])
      // the tail holds the weakest entries, sorted strongest first
      invariant forall i, j :: end <= i < j < |r| ==> r[i].value >= r[j].value
      invariant forall i, j :: 0 <= i < end <= j < |r| ==> r[i].value >= r[j].value
      decreases end
    {
      var prefix := r[..end];
      HeapFrontBoundsAll(prefix);
      var popped := PopHeap(prefix);
      SameElementsAllAtLeast(prefix, popped, prefix[0].value);
      assert r == prefix + r[end..];
      r := popped + r[end..];
      end := end - 1;
      assert r[..end] == popped[..end];
    }
  }
}
