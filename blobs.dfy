/** Blob records, their ordering by strength, the descending merge used to combine
    per-thread lists, and what "the K strongest" means for the global list. */
module Blobs {

  /** A grid position, one coordinate per image dimension. */
  type Index = seq<int>

  /** A scale-space maximum: its pixel, its scale and its Laplacian response.
      The scale is kept as the exponent e in sigma = initialSigma * k^e. */
  datatype Blob = Blob(center: Index, sigmaExponent: int, value: real)

  /** The blob comparator: a is ordered before b when a is strictly stronger. */
  predicate ValueGreater(a: Blob, b: Blob)
  {
    a.value > b.value
  }

  /** Strongest first; equal values may come in any order. */
  ghost predicate SortedDescending(s: seq<Blob>)
  {
    forall i, j :: 0 <= i < j < |s| ==> s[i].value >= s[j].value
  }

  ghost predicate AllAtLeast(s: seq<Blob>, v: real)
  {
    forall i :: 0 <= i < |s| ==> s[i].value >= v
  }

  ghost predicate AllAtMost(s: seq<Blob>, v: real)
  {
    forall i :: 0 <= i < |s| ==> s[i].value <= v
  }

  /** r holds the k strongest blobs of the pool u: as many as u has, up to k, all drawn
      from u, and nothing left in the pool is stronger than anything kept. */
  ghost predicate IsTopK(r: seq<Blob>, u: multiset<Blob>, k: nat)
  {
    && |r| == (if |u| < k then |u| else k)
    && multiset(r) <= u
    && forall x, i :: x in u - multiset(r) && 0 <= i < |r| ==> x.value <= r[i].value
  }

  lemma SameElementsAllAtLeast(a: seq<Blob>, b: seq<Blob>, v: real)
    requires multiset(a) == multiset(b) && AllAtLeast(a, v)
    ensures AllAtLeast(b, v)
  {
    forall i | 0 <= i < |b| ensures b[i].value >= v {
      assert b[i] in multiset(a);
    }
  }

  /** The standard merge of two ranges under the blob comparator: at each step the head
      of b is taken only when it is strictly stronger than the head of a, so on equal
      values the element of a comes first. Nothing is lost or invented. */
  function Merge(a: seq<Blob>, b: seq<Blob>): (r: seq<Blob>)
    ensures |r| == |a| + |b|
    ensures multiset(r) == multiset(a) + multiset(b)
    decreases |a| + |b|
  {
    if a == [] then b
    else if b == [] then a
    else if ValueGreater(b[0], a[0]) then
      assert b == [b[0]] + b[1..];
      [b[0]] + Merge(a, b[1..])
    else
      assert a == [a[0]] + a[1..];
      [a[0]] + Merge(a[1..], b)
  }

  /** On equal heads the merge takes the head of the first range: the global list's
      blob stays ahead of a unit's blob of the same value. */
  lemma MergeTakesFirstOnTies(a: seq<Blob>, b: seq<Blob>)
    requires a != [] && b != [] && a[0].value == b[0].value
    ensures Merge(a, b)[0] == a[0]
  {
  }

  /** A strictly stronger head of the second range is taken first. */
  lemma MergeTakesStrongerSecond(a: seq<Blob>, b: seq<Blob>)
    requires a != [] && b != [] && b[0].value > a[0].value
    ensures Merge(a, b)[0] == b[0]
  {
  }

  /** A head that bounds every element of the inputs bounds everything merged from them. */
  lemma HeadBoundsMerge(a: seq<Blob>, b: seq<Blob>, h: Blob)
    requires AllAtMost(a, h.value) && AllAtMost(b, h.value)
    ensures AllAtMost(Merge(a, b), h.value)
  {
    var rest := Merge(a, b);
    forall i | 0 <= i < |rest| ensures rest[i].value <= h.value {
      assert rest[i] in multiset(a) + multiset(b);
      if rest[i] in a {
        var j :| 0 <= j < |a| && a[j] == rest[i];
      } else {
        assert rest[i] in b;
        var j :| 0 <= j < |b| && b[j] == rest[i];
      }
    }
  }

  /** Merging two lists sorted strongest first gives a list sorted strongest first. */
  lemma {:induction false} MergeKeepsSorted(a: seq<Blob>, b: seq<Blob>)
    requires SortedDescending(a) && SortedDescending(b)
    ensures SortedDescending(Merge(a, b))
    decreases |a| + |b|
  {
    if a == [] || b == [] {
    } else if ValueGreater(b[0], a[0]) {
      MergeKeepsSorted(a, b[1..]);
      HeadBoundsMerge(a, b[1..], b[0]);
    } else {
      MergeKeepsSorted(a[1..], b);
      HeadBoundsMerge(a[1..], b, a[0]);
    }
  }

  /** Keep the first k entries (a vector resized down to k). */
  function Truncate(s: seq<Blob>, k: nat): (r: seq<Blob>)
    ensures |r| == (if |s| < k then |s| else k)
    ensures r == s[..|r|]
  {
    if |s| > k then s[..k] else s
  }

  /** Merging never pushes an entry of a further down: the i-th strongest of a merge is at
      least as strong as the i-th entry of a. */
  lemma {:induction false} MergeDominatesFirst(a: seq<Blob>, b: seq<Blob>, i: nat)
    requires SortedDescending(a) && SortedDescending(b) && i < |a|
    ensures Merge(a, b)[i].value >= a[i].value
    decreases |a| + |b|
  {
    if b == [] {
    } else if ValueGreater(b[0], a[0]) {
      if i > 0 {
        MergeDominatesFirst(a, b[1..], i - 1);
        assert Merge(a, b)[i] == Merge(a, b[1..])[i - 1];
      }
    } else {
      if i > 0 {
        MergeDominatesFirst(a[1..], b, i - 1);
        assert Merge(a, b)[i] == Merge(a[1..], b)[i - 1];
      }
    }
  }

  lemma SubMultisetSize(a: multiset<Blob>, b: multiset<Blob>)
    requires a <= b
    ensures b == a + (b - a)
    ensures |b| == |a| + |b - a|
  {
    assert b == a + (b - a);
  }

  lemma PrefixElements(s: seq<Blob>, n: nat)
    requires n <= |s|
    ensures multiset(s) == multiset(s[..n]) + multiset(s[n..])
  {
    assert s == s[..n] + s[n..];
  }

  /** What the pool keeps out of a truncated merge is what it kept out of r plus the
      dropped tail of the merge. */
  lemma LeftOutSplits(u: multiset<Blob>, r: multiset<Blob>, b: multiset<Blob>,
                      kept: multiset<Blob>, dropped: multiset<Blob>, x: Blob)
    requires r <= u && kept + dropped == r + b
    requires x in (u + b) - kept
    ensures x in u - r || x in dropped
  {
    assert (u + b)[x] > kept[x];
    assert (kept + dropped)[x] == (r + b)[x];
  }

  /** Anything the pool kept out of a top-k list is evidence that the list is full, and
      is no stronger than its k-th entry. */
  lemma LeftOutOfFullList(r: seq<Blob>, u: multiset<Blob>, k: nat, x: Blob)
    requires IsTopK(r, u, k) && x in u - multiset(r) && 0 < k
    ensures |r| == k && x.value <= r[k - 1].value
  {
    SubMultisetSize(multiset(r), u);
    assert |u - multiset(r)| > 0;
  }

  /** The dominance half of the top-k step, for one left-out blob and one kept entry of a
      sorted list m that holds r and b and keeps the k-th entry of a full r at least as
      strong. */
  lemma LeftOutIsWeaker(r: seq<Blob>, u: multiset<Blob>, b: seq<Blob>, m: seq<Blob>, k: nat, x: Blob, i: nat)
    requires IsTopK(r, u, k) && SortedDescending(m) && multiset(m) == multiset(r) + multiset(b)
    requires |m| == |r| + |b| && (0 < k == |r| ==> m[k - 1].value >= r[k - 1].value)
    requires x in (u + multiset(b)) - multiset(Truncate(m, k))
    requires i < |Truncate(m, k)|
    ensures x.value <= Truncate(m, k)[i].value
  {
    var n := |Truncate(m, k)|;
    PrefixElements(m, n);
    LeftOutSplits(u, multiset(r), multiset(b), multiset(m[..n]), multiset(m[n..]), x);
    if x in u - multiset(r) {
      PoolLeftOutIsWeaker(r, u, m, k, x, i);
    } else {
      DroppedIsWeaker(m, n, x, i);
    }
  }

  /** A blob the pool kept out of r is no stronger than anything among the first k of m. */
  lemma PoolLeftOutIsWeaker(r: seq<Blob>, u: multiset<Blob>, m: seq<Blob>, k: nat, x: Blob, i: nat)
    requires IsTopK(r, u, k) && SortedDescending(m) && |r| <= |m|
    requires 0 < k == |r| ==> m[k - 1].value >= r[k - 1].value
    requires x in u - multiset(r) && i < k && i < |m|
    ensures x.value <= m[i].value
  {
    LeftOutOfFullList(r, u, k, x);
    assert m[i].value >= m[k - 1].value;
  }

  /** A blob cut off the end of a sorted list is no stronger than anything kept. */
  lemma DroppedIsWeaker(m: seq<Blob>, n: nat, x: Blob, i: nat)
    requires SortedDescending(m) && i < n <= |m| && x in multiset(m[n..])
    ensures x.value <= m[i].value
  {
    assert x in m[n..];
    var j :| 0 <= j < |m| - n && m[n..][j] == x;
    assert m[n + j] == x;
  }

  /** Cutting back to k a sorted list m that holds a top-k list r of u and a further list
      b, and that keeps the k-th entry of a full r at least as strong, gives the top k of
      u enlarged by b. */
  lemma TruncatedTopKStep(r: seq<Blob>, u: multiset<Blob>, b: seq<Blob>, m: seq<Blob>, k: nat)
    requires IsTopK(r, u, k) && SortedDescending(m) && multiset(m) == multiset(r) + multiset(b)
    requires |m| == |r| + |b| && (0 < k == |r| ==> m[k - 1].value >= r[k - 1].value)
    ensures SortedDescending(Truncate(m, k)) && IsTopK(Truncate(m, k), u + multiset(b), k)
  {
    var r' := Truncate(m, k);
    PrefixKeepsSorted(m, |r'|);
    assert |u + multiset(b)| == |u| + |b|;
    assert |r'| == (if |u + multiset(b)| < k then |u + multiset(b)| else k) by {
      SubMultisetSize(multiset(r), u);
    }
    assert multiset(r') <= u + multiset(b) by {
      PrefixElements(m, |r'|);
      assert multiset(r') <= multiset(m);
      assert multiset(m) <= u + multiset(b);
    }
    forall x, i | x in (u + multiset(b)) - multiset(r') && 0 <= i < |r'|
      ensures x.value <= r'[i].value
    {
      LeftOutIsWeaker(r, u, b, m, k, x, i);
    }
  }

  lemma PrefixKeepsSorted(s: seq<Blob>, n: nat)
    requires SortedDescending(s) && n <= |s|
    ensures SortedDescending(s[..n])
  {
  }

  /** A full list keeps its k-th strongest value or better through a merge. */
  lemma MergeKeepsKth(r: seq<Blob>, b: seq<Blob>, k: nat)
    requires SortedDescending(r) && SortedDescending(b)
    ensures 0 < k == |r| ==> Merge(r, b)[k - 1].value >= r[k - 1].value
  {
    if 0 < k == |r| {
      MergeDominatesFirst(r, b, k - 1);
    }
  }

  /** One step of the global merge: if r is already the top k of a pool u, merging a
      sorted thread list b into it and truncating to k gives the top k of the pool
      enlarged by b. This is why pairwise merging with truncation after each thread
      equals one k-way merge of everything followed by one truncation. */
  lemma TruncatedMergeIsTopK(r: seq<Blob>, u: multiset<Blob>, b: seq<Blob>, k: nat)
    requires SortedDescending(r) && SortedDescending(b) && IsTopK(r, u, k)
    ensures SortedDescending(Truncate(Merge(r, b), k))
    ensures IsTopK(Truncate(Merge(r, b), k), u + multiset(b), k)
  {
    MergeKeepsSorted(r, b);
    MergeKeepsKth(r, b, k);
    TruncatedTopKStep(r, u, b, Merge(r, b), k);
  }

  /** The weakest of k retained blobs never weakens when more blobs are merged in. */
  lemma {:induction false} TruncatedMergeRaisesLast(r: seq<Blob>, b: seq<Blob>, k: nat)
    requires SortedDescending(r) && SortedDescending(b) && |r| == k && k > 0
    ensures |Truncate(Merge(r, b), k)| == k
    ensures Truncate(Merge(r, b), k)[k - 1].value >= r[k - 1].value
  {
    MergeDominatesFirst(r, b, k - 1);
  }
}
