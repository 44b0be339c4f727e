/** The scale loop of the multi-scale Laplacian blob detector: the three-slot window of
    Laplacian responses, one extremum scan per interior scale with a bounded blob heap per
    work unit, and the merge of the per-unit lists into the global list of the strongest
    blobs, whose weakest value becomes the threshold for the next scale.

    Scales are identified by the exponent e of sigma = initialSigma * k^e; a response is
    an opaque buffer tagged with the exponent it was computed at. The neighbourhoods a
    work unit visits are supplied by a function of the three buffered responses and the
    unit's id (image partitioning and neighbourhood iteration are not modelled). */
module Detector {
  import opened Blobs
  import opened BlobHeap
  import opened Extremum

  /** NumericTraits<double>::NonpositiveMin(): the most negative finite double. */
  const NonpositiveMin: real := -179769313486231570814527423731704356798070567525844996598917476803157260780028538760589558632766878171540458953514382464234321326889464182768467546703537516986049910576551282076245490090389328944075868508455133942304583236903222948165808559332123348274797826204144723168738177180919299881250404026184124858368.0

  /** One Laplacian filter's output: not yet computed, or computed at a scale exponent. */
  datatype LaplacianResponse = Unset | Computed(sigmaExponent: int)

  /** Where the neighbourhoods of a work unit come from: the three buffered responses
      (previous, centre, next) and the unit's id. */
  type NeighbourhoodSource = (seq<LaplacianResponse>, nat) -> seq<Neighbourhood>

  /** The scale exponent of iteration i of the scale loop. */
  function SigmaExponent(numberOfScales: nat, i: nat): (e: int)
    ensures i < numberOfScales ==> 0 <= e < numberOfScales
  {
    numberOfScales - i - 1
  }

  /** Scales are visited from the largest down: a later iteration has a smaller exponent. */
  lemma SigmaExponentDecreasing(numberOfScales: nat, i: nat, j: nat)
    requires i < j
    ensures SigmaExponent(numberOfScales, j) < SigmaExponent(numberOfScales, i)
  {
  }

  /** The blob a pixel becomes when it passes the test. */
  function BlobAt(n: Neighbourhood, sigmaExponent: int): Blob
  {
    Blob(n.index, sigmaExponent, n.CenterPixel())
  }

  /** The blobs, in scan order, of the pixels that pass the test against a fixed
      threshold: what a work unit would collect if its heap had no bound. */
  ghost function Candidates(pixels: seq<Neighbourhood>, threshold: real, sigmaExponent: int): seq<Blob>
  {
    if pixels == [] then []
    else
      var last := pixels[|pixels| - 1];
      Candidates(pixels[..|pixels| - 1], threshold, sigmaExponent)
        + (if IsBlobCandidate(last, threshold) then [BlobAt(last, sigmaExponent)] else [])
  }

  /** Every candidate clears the threshold and carries the scan's scale. */
  lemma {:induction false} CandidatesClearThreshold(pixels: seq<Neighbourhood>, threshold: real, sigmaExponent: int)
    ensures AllAtLeast(Candidates(pixels, threshold, sigmaExponent), threshold)
    ensures forall i :: 0 <= i < |Candidates(pixels, threshold, sigmaExponent)| ==>
      Candidates(pixels, threshold, sigmaExponent)[i].sigmaExponent == sigmaExponent
  {
    if pixels != [] {
      CandidatesClearThreshold(pixels[..|pixels| - 1], threshold, sigmaExponent);
    }
  }

  /** Every candidate is the blob of some pixel of the scan that passes the test. */
  lemma {:induction false} CandidatesComeFromPixels(pixels: seq<Neighbourhood>, threshold: real, sigmaExponent: int, i: nat)
    requires i < |Candidates(pixels, threshold, sigmaExponent)|
    ensures exists j :: && 0 <= j < |pixels| && IsBlobCandidate(pixels[j], threshold)
                        && Candidates(pixels, threshold, sigmaExponent)[i] == BlobAt(pixels[j], sigmaExponent)
  {
    var front := pixels[..|pixels| - 1];
    var c := Candidates(front, threshold, sigmaExponent);
    if i < |c| {
      CandidatesComeFromPixels(front, threshold, sigmaExponent, i);
      var j :| 0 <= j < |front| && IsBlobCandidate(front[j], threshold)
        && c[i] == BlobAt(front[j], sigmaExponent);
      assert pixels[j] == front[j];
    } else {
      assert IsBlobCandidate(pixels[|pixels| - 1], threshold);
    }
  }

  /** What one work unit hands to the merge after its scan: strongest first, as many
      blobs as there are candidates up to the bound, all of them candidates, and all the
      candidates when there are no more than the bound. */
  ghost predicate IsThreadResult(list: seq<Blob>, pixels: seq<Neighbourhood>, threshold: real,
                                 sigmaExponent: int, numberOfBlobs: nat)
  {
    var c := Candidates(pixels, threshold, sigmaExponent);
    && SortedDescending(list)
    && |list| == (if |c| < numberOfBlobs then |c| else numberOfBlobs)
    && multiset(list) <= multiset(c)
    && (|c| <= numberOfBlobs ==> multiset(list) == multiset(c))
  }

  /** Pool of all blobs held by the per-thread lists. */
  ghost function Pooled(lists: seq<seq<Blob>>): multiset<Blob>
  {
    if lists == [] then multiset{}
    else Pooled(lists[..|lists| - 1]) + multiset(lists[|lists| - 1])
  }

  /** The pool of one more list is the old pool plus that list. */
  lemma PooledAppend(lists: seq<seq<Blob>>, t: nat)
    requires t < |lists|
    ensures Pooled(lists[..t + 1]) == Pooled(lists[..t]) + multiset(lists[t])
  {
    assert lists[..t + 1][..t] == lists[..t];
  }

  /** Every blob of a set of lists that each stay at or above v stays at or above v. */
  lemma {:induction false} PooledAtLeast(lists: seq<seq<Blob>>, v: real)
    requires forall t :: 0 <= t < |lists| ==> AllAtLeast(lists[t], v)
    ensures forall b :: b in Pooled(lists) ==> b.value >= v
  {
    if lists != [] {
      var front := lists[..|lists| - 1];
      PooledAtLeast(front, v);
      forall b | b in multiset(lists[|lists| - 1]) ensures b.value >= v {
        var j :| 0 <= j < |lists[|lists| - 1]| && lists[|lists| - 1][j] == b;
      }
    }
  }

  /** The state of the global list while the unit lists are folded in: sorted, the top
      of the pool u seen so far, drawn from the set base, and, when the list started out
      full, no weaker at its end than it started. */
  ghost predicate MergeState(merged: seq<Blob>, blobs: seq<Blob>, u: multiset<Blob>, base: multiset<Blob>, k: nat)
  {
    && SortedDescending(merged)
    && IsTopK(merged, u, k)
    && multiset(merged) <= base
    && (0 < |blobs| == k ==> |merged| == k && merged[k - 1].value >= blobs[k - 1].value)
  }

  /** Folding one sorted unit list into the global list keeps the merge state. */
  lemma MergeStepKeepsState(merged: seq<Blob>, blobs: seq<Blob>, seen: multiset<Blob>, pool: multiset<Blob>,
                            threadBlobs: seq<Blob>, k: nat)
    requires k > 0 && SortedDescending(threadBlobs)
    requires MergeState(merged, blobs, pool + seen, multiset(blobs) + seen, k)
    ensures MergeState(Truncate(Merge(merged, threadBlobs), k), blobs, pool + (seen + multiset(threadBlobs)),
                       multiset(blobs) + (seen + multiset(threadBlobs)), k)
  {
    var u, base := pool + seen, multiset(blobs) + seen;
    assert u + multiset(threadBlobs) == pool + (seen + multiset(threadBlobs));
    assert base + multiset(threadBlobs) == multiset(blobs) + (seen + multiset(threadBlobs));
    var m := Merge(merged, threadBlobs);
    var r := Truncate(m, k);
    TruncatedMergeIsTopK(merged, u, threadBlobs, k);
    assert multiset(r) <= base + multiset(threadBlobs) by {
      PrefixElements(m, |r|);
      assert multiset(r) <= multiset(m);
      forall x ensures multiset(r)[x] <= (base + multiset(threadBlobs))[x] {
        assert multiset(r)[x] <= multiset(m)[x];
        assert multiset(merged)[x] <= base[x];
      }
    }
    if 0 < |blobs| == k {
      TruncatedMergeRaisesLast(merged, threadBlobs, k);
    }
  }

  /** The global list after folding in the unit lists one after another, skipping the
      empty ones, merging and cutting back to k. */
  ghost function MergeAll(blobs: seq<Blob>, lists: seq<seq<Blob>>, k: nat): seq<Blob>
  {
    if lists == [] then blobs
    else
      var merged := MergeAll(blobs, lists[..|lists| - 1], k);
      var threadBlobs := lists[|lists| - 1];
      if threadBlobs == [] then merged else Truncate(Merge(merged, threadBlobs), k)
  }

  /** Folding in any number of sorted unit lists keeps the merge state, with every unit
      list added to the pool. */
  lemma {:induction false} MergeAllKeepsState(blobs: seq<Blob>, lists: seq<seq<Blob>>, pool: multiset<Blob>, k: nat)
    requires k > 0 && SortedDescending(blobs) && IsTopK(blobs, pool, k)
    requires forall t :: 0 <= t < |lists| ==> SortedDescending(lists[t])
    ensures MergeState(MergeAll(blobs, lists, k), blobs, pool + Pooled(lists), multiset(blobs) + Pooled(lists), k)
  {
    if lists == [] {
      assert pool + multiset{} == pool;
      assert multiset(blobs) + multiset{} == multiset(blobs);
    } else {
      var front := lists[..|lists| - 1];
      var threadBlobs := lists[|lists| - 1];
      MergeAllKeepsState(blobs, front, pool, k);
      if threadBlobs != [] {
        MergeStepKeepsState(MergeAll(blobs, front, k), blobs, Pooled(front), pool, threadBlobs, k);
      } else {
        assert Pooled(lists) == Pooled(front);
      }
    }
  }

  /** n empty lists. */
  function Cleared(n: nat): seq<seq<Blob>>
  {
    seq(n, _ => [])
  }

  lemma ClearedStep(lists: seq<seq<Blob>>, t: nat)
    requires t < |lists|
    ensures (Cleared(t) + lists[t..])[t := []] == Cleared(t + 1) + lists[t + 1..]
    ensures lists[t] == [] ==> Cleared(t) + lists[t..] == Cleared(t + 1) + lists[t + 1..]
  {
  }

  /** Insertion of an accepted blob into a work unit's bounded min-heap. Below the bound
      the blob is pushed. At the bound it replaces the front (a weakest entry) only when it
      is stronger than the unit's running threshold, which then becomes the value of the
      new front; otherwise nothing changes. */
  method OfferBlob(blobHeap: seq<Blob>, localMinimal: real, numberOfBlobs: nat, blob: Blob)
      returns (heap: seq<Blob>, newLocalMinimal: real)
    requires IsMinHeap(blobHeap) && |blobHeap| <= numberOfBlobs && numberOfBlobs > 0
    ensures IsMinHeap(heap) && |heap| <= numberOfBlobs
    ensures |blobHeap| < numberOfBlobs ==>
      && |heap| == |blobHeap| + 1
      && multiset(heap) == multiset(blobHeap) + multiset{blob}
      && newLocalMinimal == localMinimal
    ensures |blobHeap| == numberOfBlobs && blob.value > localMinimal ==>
      && AllAtLeast(blobHeap, blobHeap[0].value)
      && |heap| == |blobHeap|
      && multiset(heap) == multiset(blobHeap) - multiset{blobHeap[0]} + multiset{blob}
      && newLocalMinimal == heap[0].value
    ensures |blobHeap| == numberOfBlobs && blob.value <= localMinimal ==>
      heap == blobHeap && newLocalMinimal == localMinimal
  {
    if |blobHeap| < numberOfBlobs {
      // push_back, then push_heap
      assert (blobHeap + [blob])[..|blobHeap|] == blobHeap;
      heap := PushHeap(blobHeap + [blob]);
      newLocalMinimal := localMinimal;
    } else if blob.value > localMinimal {
      // pop_heap, overwrite the back, push_heap
      HeapFrontBoundsAll(blobHeap);
      var popped := PopHeap(blobHeap);
      var n := |popped| - 1;
      var replaced := popped[n := blob];
      assert replaced[..n] == popped[..n];
      assert popped == popped[..n] + [blobHeap[0]];
      assert replaced == popped[..n] + [blob];
      heap := PushHeap(replaced);
      newLocalMinimal := heap[0].value;
    } else {
      heap := blobHeap;
      newLocalMinimal := localMinimal;
    }
  }

  /** The state of a work unit's scan after some prefix of its pixels, whose candidates
      against the snapshot threshold are c: a min-heap of up to k blobs, all candidates,
      all of them while there are no more than k; and a running threshold that starts at
      the snapshot and moves only once the heap is full. */
  ghost predicate ScanState(blobHeap: seq<Blob>, localMinimal: real, snapshot: real, c: seq<Blob>, k: nat)
  {
    && IsMinHeap(blobHeap) && |blobHeap| <= k
    && AllAtLeast(blobHeap, localMinimal)
    && AllAtLeast(c, snapshot)
    && localMinimal >= snapshot
    && (|blobHeap| < k ==> localMinimal == snapshot)
    && |blobHeap| == (if |c| < k then |c| else k)
    && multiset(blobHeap) <= multiset(c)
    && (|c| <= k ==> multiset(blobHeap) == multiset(c))
  }

  /** Below the bound, an accepted blob is pushed and the running threshold stays. */
  lemma PushKeepsScanState(before: seq<Blob>, after: seq<Blob>, localMinimal: real,
                           snapshot: real, c: seq<Blob>, k: nat, blob: Blob)
    requires ScanState(before, localMinimal, snapshot, c, k) && |before| < k
    requires blob.value >= localMinimal
    requires IsMinHeap(after) && |after| == |before| + 1
    requires multiset(after) == multiset(before) + multiset{blob}
    ensures ScanState(after, localMinimal, snapshot, c + [blob], k)
  {
    assert AllAtLeast(before + [blob], localMinimal);
    SameElementsAllAtLeast(before + [blob], after, localMinimal);
    assert multiset(c + [blob]) == multiset(c) + multiset{blob};
    assert AllAtLeast(c + [blob], snapshot);
  }

  /** At the bound, an accepted blob stronger than the running threshold replaces the
      front, and the running threshold becomes the new front's value. */
  lemma ReplaceKeepsScanState(before: seq<Blob>, after: seq<Blob>, localMinimal: real,
                              snapshot: real, c: seq<Blob>, k: nat, blob: Blob)
    requires ScanState(before, localMinimal, snapshot, c, k) && |before| == k > 0
    requires blob.value > localMinimal
    requires IsMinHeap(after) && |after| == k
    requires multiset(after) == multiset(before) - multiset{before[0]} + multiset{blob}
    ensures ScanState(after, after[0].value, snapshot, c + [blob], k)
    ensures after[0].value >= localMinimal
  {
    HeapFrontBoundsAll(after);
    var c' := c + [blob];
    assert multiset(c') == multiset(c) + multiset{blob};
    assert AllAtLeast(c', snapshot);
    assert before[0] in multiset(before);
    assert multiset(after) <= multiset(c');
    assert after[0] in multiset(after);
    var i :| 0 <= i < |c'| && c'[i] == after[0];
    if after[0] != blob {
      assert after[0] in multiset(before);
      var j :| 0 <= j < |before| && before[j] == after[0];
    }
  }

  /** At the bound, an accepted blob no stronger than the running threshold is dropped;
      it is still a candidate, so the candidates now outnumber the bound. */
  lemma DropKeepsScanState(blobHeap: seq<Blob>, localMinimal: real,
                           snapshot: real, c: seq<Blob>, k: nat, blob: Blob)
    requires ScanState(blobHeap, localMinimal, snapshot, c, k) && |blobHeap| == k
    requires blob.value >= snapshot
    ensures ScanState(blobHeap, localMinimal, snapshot, c + [blob], k)
  {
    assert multiset(c + [blob]) == multiset(c) + multiset{blob};
    assert AllAtLeast(c + [blob], snapshot);
  }

  /** A pixel that fails the running threshold changes nothing; if it is a candidate
      against the snapshot, the heap was already full. */
  lemma RejectedKeepsScanState(blobHeap: seq<Blob>, localMinimal: real, snapshot: real, c: seq<Blob>, k: nat,
                               n: Neighbourhood, sigmaExponent: int)
    requires ScanState(blobHeap, localMinimal, snapshot, c, k)
    requires !IsBlobCandidate(n, localMinimal)
    ensures ScanState(blobHeap, localMinimal, snapshot,
                      c + (if IsBlobCandidate(n, snapshot) then [BlobAt(n, sigmaExponent)] else []), k)
  {
    if IsBlobCandidate(n, snapshot) {
      var c' := c + [BlobAt(n, sigmaExponent)];
      assert multiset(c') == multiset(c) + multiset{BlobAt(n, sigmaExponent)};
      assert localMinimal != snapshot;
      assert AllAtLeast(c', snapshot);
    }
  }

  /** One pixel of a work unit's scan: test it against the running threshold and offer
      its blob to the heap when it passes. Measured against the fixed snapshot threshold
      the scan started with, the scan state after the pixels before it carries over to the
      pixels up to and including it. */
  method ScanPixel(blobHeap: seq<Blob>, localMinimal: real, n: Neighbourhood, sigmaExponent: int,
                   k: nat, ghost snapshot: real, ghost before: seq<Neighbourhood>)
      returns (heap: seq<Blob>, newLocalMinimal: real)
    requires k > 0
    requires ScanState(blobHeap, localMinimal, snapshot, Candidates(before, snapshot, sigmaExponent), k)
    ensures ScanState(heap, newLocalMinimal, snapshot, Candidates(before + [n], snapshot, sigmaExponent), k)
    ensures newLocalMinimal >= localMinimal
  {
    var isUsable := TestPixel(n, localMinimal);
    ghost var c := Candidates(before, snapshot, sigmaExponent);
    assert (before + [n])[..|before|] == before;
    if isUsable {
      CandidateAtLowerThreshold(n, snapshot, localMinimal);
      var blob := BlobAt(n, sigmaExponent);
      assert Candidates(before + [n], snapshot, sigmaExponent) == c + [blob];
      heap, newLocalMinimal := OfferBlob(blobHeap, localMinimal, k, blob);
      if |blobHeap| < k {
        PushKeepsScanState(blobHeap, heap, localMinimal, snapshot, c, k, blob);
      } else if blob.value > localMinimal {
        ReplaceKeepsScanState(blobHeap, heap, localMinimal, snapshot, c, k, blob);
      } else {
        DropKeepsScanState(blobHeap, localMinimal, snapshot, c, k, blob);
      }
    } else {
      heap, newLocalMinimal := blobHeap, localMinimal;
      RejectedKeepsScanState(blobHeap, localMinimal, snapshot, c, k, n, sigmaExponent);
    }
  }

  /** Once every pixel is scanned, the sorted heap is the work unit's result. */
  lemma SortedScanIsThreadResult(blobHeap: seq<Blob>, localMinimal: real, sorted: seq<Blob>,
                                 pixels: seq<Neighbourhood>, snapshot: real, sigmaExponent: int, k: nat)
    requires ScanState(blobHeap, localMinimal, snapshot, Candidates(pixels, snapshot, sigmaExponent), k)
    requires SortedDescending(sorted) && multiset(sorted) == multiset(blobHeap)
    ensures IsThreadResult(sorted, pixels, snapshot, sigmaExponent, k)
  {
    assert |sorted| == |multiset(sorted)| == |blobHeap|;
  }

  /** The first replacement after a heap fills compares against the running threshold,
      not the heap front, so it can evict a stronger blob: with room for one blob, a unit
      that accepted a blob of value 5 and then meets one of value 3 keeps only the 3. */
  method ReplacementCanEvictStrongerBlob() returns (heap: seq<Blob>, localMinimal: real)
    ensures heap == [Blob([1, 1], 4, 3.0)] && localMinimal == 3.0
  {
    var strong := Blob([0, 0], 4, 5.0);
    var weak := Blob([1, 1], 4, 3.0);
    heap, localMinimal := OfferBlob([], NonpositiveMin, 1, strong);
    assert multiset(heap) == multiset{strong};
    assert heap == [strong] by {
      assert heap[0] in multiset(heap);
    }
    heap, localMinimal := OfferBlob(heap, localMinimal, 1, weak);
    assert heap[0] in multiset(heap);
  }

  /** Once the global list holds a blob, its value is the threshold of every later scan,
      even while the list is shorter than K: with K = 2 and one work unit, a first scan
      that keeps a single maximum of value 10 sets the threshold to 10, and a later scan
      whose only maximum has value 9 (a candidate against the initial threshold) delivers
      nothing, so the list keeps one blob although two maxima were found. */
  lemma ShortListThresholdCanLoseMaximum(result: seq<Blob>)
    requires IsThreadResult(result, [LaterMaximum], NextThreshold([FirstBlob], NonpositiveMin), 0, 2)
    ensures IsBlobCandidate(LaterMaximum, NonpositiveMin) && !IsBlobCandidate(LaterMaximum, 10.0)
    ensures NextThreshold([FirstBlob], NonpositiveMin) == 10.0
    ensures result == [] && MergeAll([FirstBlob], [result], 2) == [FirstBlob]
  {
    assert Candidates([LaterMaximum], 10.0, 0) == [] by {
      assert [LaterMaximum][..0] == [];
    }
    assert [result][..0] == [];
  }

  /** The maximum kept by the first scan of that example. */
  const FirstBlob: Blob := Blob([1], 1, 10.0)

  /** A later scan's single pixel: value 9, no larger neighbour. */
  const LaterMaximum: Neighbourhood := ScaleSpaceNeighbourhood([0], [0.0], [9.0], [0.0])

  /** The two swaps of the filter array: (a, b, c) becomes (b, c, a), so the newest
      response moves to the centre slot and the oldest to the slot refilled next. */
  method RotateDown(filters: array<LaplacianResponse>)
    requires filters.Length == 3
    modifies filters
    ensures filters[0] == old(filters[1]) && filters[1] == old(filters[2]) && filters[2] == old(filters[0])
  {
    filters[2], filters[1] := filters[1], filters[2];
    filters[2], filters[0] := filters[0], filters[2];
  }

  /** What one scan of the scale loop did: the three responses it read (previous, centre,
      next), the threshold its work units started from, the scale of the centre
      response, the sorted list each unit handed over, and the global list after the
      merge. */
  datatype ScanRecord = ScanRecord(window: seq<LaplacianResponse>, threshold: real, sigmaExponent: int,
                                   unitResults: seq<seq<Blob>>, list: seq<Blob>)

  /** Every blob the work units handed to the merge over a sequence of scans. */
  ghost function Delivered(scans: seq<ScanRecord>): multiset<Blob>
  {
    if scans == [] then multiset{}
    else Delivered(scans[..|scans| - 1]) + Pooled(scans[|scans| - 1].unitResults)
  }

  /** Each list is the scan result of the work unit with its index, over the region the
      neighbourhood source gives that unit for the window. */
  ghost predicate AllThreadResults(results: seq<seq<Blob>>, window: seq<LaplacianResponse>, threshold: real,
                                   sigmaExponent: int, regions: NeighbourhoodSource, numberOfBlobs: nat)
  {
    forall u :: 0 <= u < |results| ==>
      IsThreadResult(results[u], regions(window, u), threshold, sigmaExponent, numberOfBlobs)
  }

  /** The threshold a scan leaves for the next one: the weakest retained value, or the
      threshold it started from when nothing is retained. */
  function NextThreshold(list: seq<Blob>, threshold: real): (r: real)
    ensures list == [] ==> r == threshold
    ensures SortedDescending(list) ==> AllAtLeast(list, r)
    ensures AllAtLeast(list, threshold) ==> r >= threshold
  {
    if list == [] then threshold else list[|list| - 1].value
  }

  /** The global list after a history of scans: empty before the first. */
  function LastList(scans: seq<ScanRecord>): seq<Blob>
  {
    if scans == [] then [] else scans[|scans| - 1].list
  }

  /** The threshold after a history of scans: the lowest double before the first. */
  function ThresholdAfter(scans: seq<ScanRecord>): real
  {
    if scans == [] then NonpositiveMin
    else NextThreshold(scans[|scans| - 1].list, scans[|scans| - 1].threshold)
  }

  /** The responses buffered when iteration i of the scale loop scans: the three most
      recently computed exponents, largest scale first. */
  function Window(numberOfScales: nat, i: nat): seq<LaplacianResponse>
  {
    [Computed(numberOfScales - i + 1), Computed(numberOfScales - i), Computed(numberOfScales - i - 1)]
  }

  /** The window of iteration i holds, previous to next, the responses computed at
      iterations i - 2, i - 1 and i; its centre is the response of iteration i - 1. */
  lemma WindowHoldsRecentResponses(numberOfScales: nat, i: nat)
    requires i >= 2
    ensures Window(numberOfScales, i) == [Computed(SigmaExponent(numberOfScales, i - 2)),
                                          Computed(SigmaExponent(numberOfScales, i - 1)),
                                          Computed(SigmaExponent(numberOfScales, i))]
  {
  }

  /** Three buffers holding the responses of exponents N - i + 1, N - i and N - i - 1 are
      the window of iteration i. */
  lemma WindowOfBuffers(buffers: seq<LaplacianResponse>, numberOfScales: nat, i: nat)
    requires |buffers| == 3 && buffers[0] == Computed(numberOfScales - i + 1)
    requires buffers[1] == Computed(numberOfScales - i) && buffers[2] == Computed(numberOfScales - i - 1)
    ensures buffers == Window(numberOfScales, i)
  {
  }

  /** A scan r extends the history before along the schedule: before followed it, and
      r, the s-th scan (counting from 0), happens at iteration s + 2 of the scale loop,
      reads the window of that iteration with the centre scale, starts from the threshold
      and the global list the scans before it left, each unit hands over its scan
      result, and the unit lists are folded into the global list. */
  ghost predicate ScanFollowsSchedule(before: seq<ScanRecord>, r: ScanRecord, numberOfScales: nat,
                                      numberOfWorkUnits: nat, regions: NeighbourhoodSource, numberOfBlobs: nat)
    decreases |before|, 1
  {
    && FollowsSchedule(before, numberOfScales, numberOfWorkUnits, regions, numberOfBlobs)
    && ScanDone(r, Window(numberOfScales, |before| + 2), ThresholdAfter(before), numberOfScales - (|before| + 2),
                LastList(before), regions, numberOfWorkUnits, numberOfBlobs)
  }

  /** Every scan of a history followed the schedule. */
  ghost predicate FollowsSchedule(scans: seq<ScanRecord>, numberOfScales: nat, numberOfWorkUnits: nat,
                                  regions: NeighbourhoodSource, numberOfBlobs: nat)
    decreases |scans|, 0
  {
    scans == [] ||
    ScanFollowsSchedule(scans[..|scans| - 1], scans[|scans| - 1], numberOfScales, numberOfWorkUnits,
                        regions, numberOfBlobs)
  }

  /** A work unit's result never holds a blob below the threshold it scanned against. */
  lemma ThreadResultAtLeast(list: seq<Blob>, pixels: seq<Neighbourhood>, threshold: real,
                            sigmaExponent: int, numberOfBlobs: nat)
    requires IsThreadResult(list, pixels, threshold, sigmaExponent, numberOfBlobs)
    ensures AllAtLeast(list, threshold)
  {
    var c := Candidates(pixels, threshold, sigmaExponent);
    CandidatesClearThreshold(pixels, threshold, sigmaExponent);
    forall i | 0 <= i < |list| ensures list[i].value >= threshold {
      assert list[i] in multiset(c);
      var j :| 0 <= j < |c| && c[j] == list[i];
    }
  }

  /** A list drawn from a pool whose blobs are all at least v is all at least v. */
  lemma DrawnFromAtLeast(r: seq<Blob>, base: multiset<Blob>, v: real)
    requires multiset(r) <= base
    requires forall b :: b in base ==> b.value >= v
    ensures AllAtLeast(r, v)
  {
    forall i | 0 <= i < |r| ensures r[i].value >= v {
      assert r[i] in multiset(r);
    }
  }

  /** One scan's merge: if the global list held the strongest blobs delivered before,
      no weaker than the threshold, and every unit handed over its scan result against
      that threshold, the merged list holds the strongest blobs of everything delivered
      so far and stays at or above the threshold. */
  lemma MergedScanIsTopK(blobs: seq<Blob>, pool: multiset<Blob>, results: seq<seq<Blob>>, threshold: real,
                         numberOfBlobs: nat)
    requires numberOfBlobs > 0
    requires SortedDescending(blobs) && IsTopK(blobs, pool, numberOfBlobs) && AllAtLeast(blobs, threshold)
    requires forall u :: 0 <= u < |results| ==> SortedDescending(results[u]) && AllAtLeast(results[u], threshold)
    ensures SortedDescending(MergeAll(blobs, results, numberOfBlobs))
    ensures IsTopK(MergeAll(blobs, results, numberOfBlobs), pool + Pooled(results), numberOfBlobs)
    ensures AllAtLeast(MergeAll(blobs, results, numberOfBlobs), threshold)
  {
    MergeAllKeepsState(blobs, results, pool, numberOfBlobs);
    PooledAtLeast(results, threshold);
    forall b | b in multiset(blobs) ensures b.value >= threshold {
      var j :| 0 <= j < |blobs| && blobs[j] == b;
    }
    DrawnFromAtLeast(MergeAll(blobs, results, numberOfBlobs), multiset(blobs) + Pooled(results), threshold);
  }

  /** A scan over the given window, threshold and scale: one scan result per work unit,
      and the global list is those results folded into the list held before. */
  ghost predicate ScanDone(r: ScanRecord, window: seq<LaplacianResponse>, threshold: real, sigmaExponent: int,
                           blobs: seq<Blob>, regions: NeighbourhoodSource, numberOfWorkUnits: nat,
                           numberOfBlobs: nat)
  {
    && r.window == window && r.threshold == threshold && r.sigmaExponent == sigmaExponent
    && |r.unitResults| == numberOfWorkUnits
    && AllThreadResults(r.unitResults, window, threshold, sigmaExponent, regions, numberOfBlobs)
    && r.list == MergeAll(blobs, r.unitResults, numberOfBlobs)
  }

  /** The state of the scale loop between scans: the history followed the schedule, the
      global list is the last scan's list (empty before the first scan), and the
      threshold is the one the last scan left. */
  ghost predicate RunState(scans: seq<ScanRecord>, blobs: seq<Blob>, threshold: real, numberOfScales: nat,
                           numberOfWorkUnits: nat, regions: NeighbourhoodSource, numberOfBlobs: nat)
  {
    && FollowsSchedule(scans, numberOfScales, numberOfWorkUnits, regions, numberOfBlobs)
    && blobs == LastList(scans)
    && threshold == ThresholdAfter(scans)
  }

  /** A scan that starts where the history left off extends it along the schedule. */
  lemma ScanExtendsSchedule(scans: seq<ScanRecord>, r: ScanRecord, numberOfScales: nat, numberOfWorkUnits: nat,
                            regions: NeighbourhoodSource, numberOfBlobs: nat)
    requires ScanFollowsSchedule(scans, r, numberOfScales, numberOfWorkUnits, regions, numberOfBlobs)
    ensures FollowsSchedule(scans + [r], numberOfScales, numberOfWorkUnits, regions, numberOfBlobs)
    ensures LastList(scans + [r]) == r.list
    ensures ThresholdAfter(scans + [r]) == NextThreshold(r.list, r.threshold)
  {
    assert (scans + [r])[..|scans|] == scans;
  }

  /** A scan over the window of its iteration, from the threshold and the list the
      history left, at the centre scale of that iteration, in which every unit handed
      over its scan result and the results were folded into the list, follows the
      schedule. */
  lemma ScanOnSchedule(before: seq<ScanRecord>, window: seq<LaplacianResponse>, threshold: real,
                       sigmaExponent: int, blobs: seq<Blob>, results: seq<seq<Blob>>, list: seq<Blob>,
                       numberOfScales: nat, numberOfWorkUnits: nat, regions: NeighbourhoodSource,
                       numberOfBlobs: nat)
    requires FollowsSchedule(before, numberOfScales, numberOfWorkUnits, regions, numberOfBlobs)
    requires window == Window(numberOfScales, |before| + 2) && sigmaExponent == numberOfScales - (|before| + 2)
    requires threshold == ThresholdAfter(before) && blobs == LastList(before)
    requires |results| == numberOfWorkUnits
    requires AllThreadResults(results, window, threshold, sigmaExponent, regions, numberOfBlobs)
    requires list == MergeAll(blobs, results, numberOfBlobs)
    ensures ScanFollowsSchedule(before, ScanRecord(window, threshold, sigmaExponent, results, list),
                                numberOfScales, numberOfWorkUnits, regions, numberOfBlobs)
  {
  }

  /** A scan on the schedule keeps the scale loop's state: the list and the threshold
      become the ones it leaves. */
  lemma ScanKeepsRunState(before: seq<ScanRecord>, r: ScanRecord, numberOfScales: nat, numberOfWorkUnits: nat,
                          regions: NeighbourhoodSource, numberOfBlobs: nat)
    requires ScanFollowsSchedule(before, r, numberOfScales, numberOfWorkUnits, regions, numberOfBlobs)
    ensures RunState(before + [r], r.list, NextThreshold(r.list, r.threshold), numberOfScales, numberOfWorkUnits,
                     regions, numberOfBlobs)
  {
    ScanExtendsSchedule(before, r, numberOfScales, numberOfWorkUnits, regions, numberOfBlobs);
  }

  /** A scan on the schedule, recorded after the history, leaves the scale loop's state
      with its list and the threshold that list sets. */
  lemma ScanExtendsRunState(before: seq<ScanRecord>, window: seq<LaplacianResponse>, threshold: real,
                            sigmaExponent: int, blobs: seq<Blob>, results: seq<seq<Blob>>, list: seq<Blob>,
                            numberOfScales: nat, numberOfWorkUnits: nat, regions: NeighbourhoodSource,
                            numberOfBlobs: nat)
    requires FollowsSchedule(before, numberOfScales, numberOfWorkUnits, regions, numberOfBlobs)
    requires window == Window(numberOfScales, |before| + 2) && sigmaExponent == numberOfScales - (|before| + 2)
    requires threshold == ThresholdAfter(before) && blobs == LastList(before)
    requires |results| == numberOfWorkUnits
    requires AllThreadResults(results, window, threshold, sigmaExponent, regions, numberOfBlobs)
    requires list == MergeAll(blobs, results, numberOfBlobs)
    ensures RunState(before + [ScanRecord(window, threshold, sigmaExponent, results, list)], list,
                     NextThreshold(list, threshold), numberOfScales, numberOfWorkUnits, regions, numberOfBlobs)
  {
    ScanOnSchedule(before, window, threshold, sigmaExponent, blobs, results, list, numberOfScales,
                   numberOfWorkUnits, regions, numberOfBlobs);
    ScanKeepsRunState(before, ScanRecord(window, threshold, sigmaExponent, results, list), numberOfScales,
                      numberOfWorkUnits, regions, numberOfBlobs);
  }

  /** Every unit list of a scan is sorted and clears the threshold the scan started from. */
  lemma AllThreadResultsAtLeast(results: seq<seq<Blob>>, window: seq<LaplacianResponse>, threshold: real,
                                sigmaExponent: int, regions: NeighbourhoodSource, numberOfBlobs: nat)
    requires AllThreadResults(results, window, threshold, sigmaExponent, regions, numberOfBlobs)
    ensures forall u :: 0 <= u < |results| ==> SortedDescending(results[u]) && AllAtLeast(results[u], threshold)
  {
    forall u | 0 <= u < |results| ensures SortedDescending(results[u]) && AllAtLeast(results[u], threshold) {
      ThreadResultAtLeast(results[u], regions(window, u), threshold, sigmaExponent, numberOfBlobs);
    }
  }

  /** The facts the schedule gives about the last scan of a history: its unit lists
      are sorted and clear the threshold it started from, which the scans before it
      left, and its list folds them into the list the scans before it left. */
  lemma LastScanFollowsSchedule(scans: seq<ScanRecord>, numberOfScales: nat, numberOfWorkUnits: nat,
                                regions: NeighbourhoodSource, numberOfBlobs: nat)
    requires scans != [] && FollowsSchedule(scans, numberOfScales, numberOfWorkUnits, regions, numberOfBlobs)
    ensures FollowsSchedule(scans[..|scans| - 1], numberOfScales, numberOfWorkUnits, regions, numberOfBlobs)
    ensures var front, r := scans[..|scans| - 1], scans[|scans| - 1];
      && (forall u :: 0 <= u < |r.unitResults| ==>
            SortedDescending(r.unitResults[u]) && AllAtLeast(r.unitResults[u], ThresholdAfter(front)))
      && r.threshold == ThresholdAfter(front)
      && r.list == MergeAll(LastList(front), r.unitResults, numberOfBlobs)
  {
    var front, r := scans[..|scans| - 1], scans[|scans| - 1];
    ScheduleEndsWithScan(scans, numberOfScales, numberOfWorkUnits, regions, numberOfBlobs);
    ScanUnitsAtLeast(front, r, numberOfScales, numberOfWorkUnits, regions, numberOfBlobs);
  }

  lemma ScheduleEndsWithScan(scans: seq<ScanRecord>, numberOfScales: nat, numberOfWorkUnits: nat,
                             regions: NeighbourhoodSource, numberOfBlobs: nat)
    requires scans != [] && FollowsSchedule(scans, numberOfScales, numberOfWorkUnits, regions, numberOfBlobs)
    ensures FollowsSchedule(scans[..|scans| - 1], numberOfScales, numberOfWorkUnits, regions, numberOfBlobs)
    ensures ScanFollowsSchedule(scans[..|scans| - 1], scans[|scans| - 1], numberOfScales, numberOfWorkUnits,
                                regions, numberOfBlobs)
  {
  }

  lemma ScanUnitsAtLeast(front: seq<ScanRecord>, r: ScanRecord, numberOfScales: nat, numberOfWorkUnits: nat,
                         regions: NeighbourhoodSource, numberOfBlobs: nat)
    requires ScanFollowsSchedule(front, r, numberOfScales, numberOfWorkUnits, regions, numberOfBlobs)
    ensures forall u :: 0 <= u < |r.unitResults| ==>
      SortedDescending(r.unitResults[u]) && AllAtLeast(r.unitResults[u], ThresholdAfter(front))
    ensures r.threshold == ThresholdAfter(front) && r.list == MergeAll(LastList(front), r.unitResults, numberOfBlobs)
  {
    var window, threshold := Window(numberOfScales, |front| + 2), ThresholdAfter(front);
    var sigmaExponent := numberOfScales - (|front| + 2);
    ScanDoneUnits(r, window, threshold, sigmaExponent, LastList(front), regions, numberOfWorkUnits, numberOfBlobs);
    AllThreadResultsAtLeast(r.unitResults, window, threshold, sigmaExponent, regions, numberOfBlobs);
  }

  lemma ScanDoneUnits(r: ScanRecord, window: seq<LaplacianResponse>, threshold: real, sigmaExponent: int,
                      blobs: seq<Blob>, regions: NeighbourhoodSource, numberOfWorkUnits: nat, numberOfBlobs: nat)
    requires ScanDone(r, window, threshold, sigmaExponent, blobs, regions, numberOfWorkUnits, numberOfBlobs)
    ensures AllThreadResults(r.unitResults, window, threshold, sigmaExponent, regions, numberOfBlobs)
  {
  }

  /** Whatever the regions, the global list after any history that followed the
      schedule holds the strongest blobs of everything the work units delivered,
      strongest first, and none of them is below the threshold it leaves. */
  lemma {:induction false} ScheduledListIsTopK(scans: seq<ScanRecord>, numberOfScales: nat, numberOfWorkUnits: nat,
                                               regions: NeighbourhoodSource, numberOfBlobs: nat)
    requires numberOfBlobs > 0
    requires FollowsSchedule(scans, numberOfScales, numberOfWorkUnits, regions, numberOfBlobs)
    ensures SortedDescending(LastList(scans))
    ensures IsTopK(LastList(scans), Delivered(scans), numberOfBlobs)
    ensures AllAtLeast(LastList(scans), ThresholdAfter(scans))
  {
    if scans != [] {
      var front, r := scans[..|scans| - 1], scans[|scans| - 1];
      LastScanFollowsSchedule(scans, numberOfScales, numberOfWorkUnits, regions, numberOfBlobs);
      ScheduledListIsTopK(front, numberOfScales, numberOfWorkUnits, regions, numberOfBlobs);
      MergedScanIsTopK(LastList(front), Delivered(front), r.unitResults, ThresholdAfter(front), numberOfBlobs);
    }
  }

  /** A scan never lowers the threshold: the list it leaves clears the threshold it
      started from, and the next threshold is that list's weakest value. */
  lemma ScanRaisesThreshold(scans: seq<ScanRecord>, numberOfScales: nat, numberOfWorkUnits: nat,
                            regions: NeighbourhoodSource, numberOfBlobs: nat)
    requires numberOfBlobs > 0 && scans != []
    requires FollowsSchedule(scans, numberOfScales, numberOfWorkUnits, regions, numberOfBlobs)
    ensures ThresholdAfter(scans[..|scans| - 1]) <= ThresholdAfter(scans)
  {
    var front, r := scans[..|scans| - 1], scans[|scans| - 1];
    LastScanFollowsSchedule(scans, numberOfScales, numberOfWorkUnits, regions, numberOfBlobs);
    ScheduledListIsTopK(front, numberOfScales, numberOfWorkUnits, regions, numberOfBlobs);
    MergedScanIsTopK(LastList(front), Delivered(front), r.unitResults, ThresholdAfter(front), numberOfBlobs);
  }

  /** The threshold only rises from scan to scan: the threshold after any earlier point of
      a scheduled history is at most the threshold after all of it. */
  lemma {:induction false} ThresholdNeverDrops(scans: seq<ScanRecord>, s: nat, numberOfScales: nat,
                                               numberOfWorkUnits: nat, regions: NeighbourhoodSource,
                                               numberOfBlobs: nat)
    requires numberOfBlobs > 0 && s <= |scans|
    requires FollowsSchedule(scans, numberOfScales, numberOfWorkUnits, regions, numberOfBlobs)
    ensures ThresholdAfter(scans[..s]) <= ThresholdAfter(scans)
  {
    if s < |scans| {
      var front := scans[..|scans| - 1];
      ScheduleEndsWithScan(scans, numberOfScales, numberOfWorkUnits, regions, numberOfBlobs);
      ScanRaisesThreshold(scans, numberOfScales, numberOfWorkUnits, regions, numberOfBlobs);
      ThresholdNeverDrops(front, s, numberOfScales, numberOfWorkUnits, regions, numberOfBlobs);
      assert front[..s] == scans[..s];
    } else {
      assert scans[..s] == scans;
    }
  }

  /** b is the blob of a pixel that passed the test in some work unit's region of scan r:
      a local maximum of the scan's window at or above the scan's threshold. */
  ghost predicate DetectedBy(b: Blob, r: ScanRecord, regions: NeighbourhoodSource)
  {
    exists u, j :: && 0 <= u < |r.unitResults| && 0 <= j < |regions(r.window, u)|
                   && IsBlobCandidate(regions(r.window, u)[j], r.threshold)
                   && b == BlobAt(regions(r.window, u)[j], r.sigmaExponent)
  }

  /** A blob of the pool of some lists is in one of them. */
  lemma {:induction false} PooledMember(lists: seq<seq<Blob>>, b: Blob)
    requires b in Pooled(lists)
    ensures exists t :: 0 <= t < |lists| && b in lists[t]
  {
    var front := lists[..|lists| - 1];
    if b in Pooled(front) {
      PooledMember(front, b);
      var t :| 0 <= t < |front| && b in front[t];
      assert lists[t] == front[t];
    } else {
      assert b in multiset(lists[|lists| - 1]);
    }
  }

  /** A blob of a unit's scan result is the blob of a pixel of its region that passed the
      test. */
  lemma ThreadBlobIsDetected(r: ScanRecord, u: nat, b: Blob, regions: NeighbourhoodSource, numberOfBlobs: nat)
    requires u < |r.unitResults| && b in r.unitResults[u]
    requires IsThreadResult(r.unitResults[u], regions(r.window, u), r.threshold, r.sigmaExponent, numberOfBlobs)
    ensures DetectedBy(b, r, regions)
  {
    var pixels := regions(r.window, u);
    var c := Candidates(pixels, r.threshold, r.sigmaExponent);
    assert b in multiset(r.unitResults[u]);
    assert b in multiset(c);
    var i :| 0 <= i < |c| && c[i] == b;
    CandidatesComeFromPixels(pixels, r.threshold, r.sigmaExponent, i);
  }

  /** Each unit list of a scheduled scan is that unit's scan result over the scan's window. */
  lemma ScanUnitIsThreadResult(front: seq<ScanRecord>, r: ScanRecord, u: nat, numberOfScales: nat,
                               numberOfWorkUnits: nat, regions: NeighbourhoodSource, numberOfBlobs: nat)
    requires ScanFollowsSchedule(front, r, numberOfScales, numberOfWorkUnits, regions, numberOfBlobs)
    requires u < |r.unitResults|
    ensures IsThreadResult(r.unitResults[u], regions(r.window, u), r.threshold, r.sigmaExponent, numberOfBlobs)
  {
  }

  /** Every blob the work units delivered along a scheduled history was detected by one of
      its scans. */
  lemma {:induction false} DeliveredBlobIsDetected(scans: seq<ScanRecord>, b: Blob, numberOfScales: nat,
                                                   numberOfWorkUnits: nat, regions: NeighbourhoodSource,
                                                   numberOfBlobs: nat)
    requires FollowsSchedule(scans, numberOfScales, numberOfWorkUnits, regions, numberOfBlobs)
    requires b in Delivered(scans)
    ensures exists s :: 0 <= s < |scans| && DetectedBy(b, scans[s], regions)
  {
    var front, r := scans[..|scans| - 1], scans[|scans| - 1];
    ScheduleEndsWithScan(scans, numberOfScales, numberOfWorkUnits, regions, numberOfBlobs);
    if b in Delivered(front) {
      DeliveredBlobIsDetected(front, b, numberOfScales, numberOfWorkUnits, regions, numberOfBlobs);
      var s :| 0 <= s < |front| && DetectedBy(b, front[s], regions);
      assert scans[s] == front[s];
    } else {
      ScanBlobIsDetected(front, r, b, numberOfScales, numberOfWorkUnits, regions, numberOfBlobs);
    }
  }

  /** Every blob the units of a scheduled scan delivered was detected by that scan. */
  lemma ScanBlobIsDetected(front: seq<ScanRecord>, r: ScanRecord, b: Blob, numberOfScales: nat,
                           numberOfWorkUnits: nat, regions: NeighbourhoodSource, numberOfBlobs: nat)
    requires ScanFollowsSchedule(front, r, numberOfScales, numberOfWorkUnits, regions, numberOfBlobs)
    requires b in Pooled(r.unitResults)
    ensures DetectedBy(b, r, regions)
  {
    PooledMember(r.unitResults, b);
    var u :| 0 <= u < |r.unitResults| && b in r.unitResults[u];
    ScanUnitIsThreadResult(front, r, u, numberOfScales, numberOfWorkUnits, regions, numberOfBlobs);
    ThreadBlobIsDetected(r, u, b, regions, numberOfBlobs);
  }

  /** Soundness of the result: every blob in the global list after a scheduled history is
      the blob of a pixel that some scan found to be a scale-space maximum at or above
      its threshold. */
  lemma ListedBlobIsDetected(scans: seq<ScanRecord>, b: Blob, numberOfScales: nat, numberOfWorkUnits: nat,
                             regions: NeighbourhoodSource, numberOfBlobs: nat)
    requires numberOfBlobs > 0
    requires FollowsSchedule(scans, numberOfScales, numberOfWorkUnits, regions, numberOfBlobs)
    requires b in LastList(scans)
    ensures exists s :: 0 <= s < |scans| && DetectedBy(b, scans[s], regions)
  {
    ScheduledListIsTopK(scans, numberOfScales, numberOfWorkUnits, regions, numberOfBlobs);
    assert b in multiset(LastList(scans));
    DeliveredBlobIsDetected(scans, b, numberOfScales, numberOfWorkUnits, regions, numberOfBlobs);
  }

  class MultiScaleLaplacianBlobDetector {
    var numberOfBlobs: nat
    var stepsPerOctave: nat
    var startT: real
    var endT: real

    /** One blob list per work unit: a heap during the scan, sorted after it. */
    var blobHeapPerThread: array<seq<Blob>>
    /** The weakest retained value after the last merge: the scan threshold. */
    var globalMinimalBestBlobValue: real
    /** Scale exponent of the centre response of the next scan. */
    var currentSigma: int
    /** The three responses handed to the work units: previous, centre, next. */
    var laplacianImage: seq<LaplacianResponse>
    /** The detected blobs, strongest first. */
    var blobList: seq<Blob>

    /** The scans of the current run, in order. */
    ghost var scans: seq<ScanRecord>

    constructor ()
      ensures numberOfBlobs == 1000 && stepsPerOctave == 15 && startT == 8.0 && endT == 128.0
      ensures blobHeapPerThread.Length == 0 && blobList == []
      ensures laplacianImage == [Unset, Unset, Unset]
    {
      numberOfBlobs := 1000;
      stepsPerOctave := 15;
      startT := 8.0;
      endT := 128.0;
      blobHeapPerThread := new seq<Blob>[0];
      globalMinimalBestBlobValue := NonpositiveMin;
      currentSigma := 0;
      laplacianImage := [Unset, Unset, Unset];
      blobList := [];
      scans := [];
    }

    /** One work unit's scan of its region at the current scale: test every pixel
        against the unit's running threshold (a snapshot of the global threshold to begin
        with), offer each accepted pixel to the bounded heap, and sort the heap strongest
        first at the end. */
    method ThreadedGenerateData(pixels: seq<Neighbourhood>, threadId: nat)
      requires threadId < blobHeapPerThread.Length && blobHeapPerThread[threadId] == []
      requires numberOfBlobs > 0
      modifies blobHeapPerThread
      ensures forall t :: 0 <= t < blobHeapPerThread.Length && t != threadId ==>
        blobHeapPerThread[t] == old(blobHeapPerThread[t])
      ensures IsThreadResult(blobHeapPerThread[threadId], pixels, globalMinimalBestBlobValue,
                             currentSigma, numberOfBlobs)
    {
      var blobHeap: seq<Blob> := blobHeapPerThread[threadId];
      var localMinimal := globalMinimalBestBlobValue;
      ghost var snapshot := globalMinimalBestBlobValue;
      var k := numberOfBlobs;
      for j := 0 to |pixels|
        invariant blobHeapPerThread[..] == old(blobHeapPerThread[..])
        invariant ScanState(blobHeap, localMinimal, snapshot, Candidates(pixels[..j], snapshot, currentSigma), k)
      {
        assert pixels[..j + 1] == pixels[..j] + [pixels[j]];
        blobHeap, localMinimal := ScanPixel(blobHeap, localMinimal, pixels[j], currentSigma, k,
                                            snapshot, pixels[..j]);
      }
      assert pixels[..|pixels|] == pixels;
      var sorted := SortHeap(blobHeap);
      SortedScanIsThreadResult(blobHeap, localMinimal, sorted, pixels, snapshot, currentSigma, k);
      blobHeapPerThread[threadId] := sorted;
    }

    /** The combination of the per-unit lists after a scan: each
        non-empty list is merged with the global list, the result is cut back to the
        bound, and the unit's list is cleared. What the result is worth is proved about
        MergeAll by MergeAllKeepsState. */
    method MergeThreadBlobs(blobs: seq<Blob>) returns (merged: seq<Blob>)
      modifies blobHeapPerThread
      ensures merged == MergeAll(blobs, old(blobHeapPerThread[..]), numberOfBlobs)
      ensures forall t :: 0 <= t < blobHeapPerThread.Length ==> blobHeapPerThread[t] == []
    {
      ghost var lists := blobHeapPerThread[..];
      var k := numberOfBlobs;
      merged := blobs;
      for t := 0 to blobHeapPerThread.Length
        invariant merged == MergeAll(blobs, lists[..t], k)
        invariant blobHeapPerThread[..] == Cleared(t) + lists[t..]
      {
        var threadBlobs := blobHeapPerThread[t];
        assert lists[..t + 1][..t] == lists[..t];
        ClearedStep(lists, t);
        if threadBlobs != [] {
          var temp := merged;
          merged := Truncate(Merge(temp, threadBlobs), k);
          blobHeapPerThread[t] := [];
        }
      }
      assert lists[..blobHeapPerThread.Length] == lists;
    }

    /** The multi-threaded execution of one scan: every work unit runs its scan of its
        own region and leaves its result in its own slot. Units write only their own
        slot and read only fields nobody writes during the scan, so running them one
        after another gives the same slots as any interleaving. */
    method RunWorkUnits(regions: NeighbourhoodSource)
      requires numberOfBlobs > 0
      requires forall t :: 0 <= t < blobHeapPerThread.Length ==> blobHeapPerThread[t] == []
      modifies blobHeapPerThread
      ensures AllThreadResults(blobHeapPerThread[..], laplacianImage, globalMinimalBestBlobValue,
                               currentSigma, regions, numberOfBlobs)
    {
      for t := 0 to blobHeapPerThread.Length
        invariant forall u :: t <= u < blobHeapPerThread.Length ==> blobHeapPerThread[u] == []
        invariant forall u :: 0 <= u < t ==>
          IsThreadResult(blobHeapPerThread[u], regions(laplacianImage, u), globalMinimalBestBlobValue,
                         currentSigma, numberOfBlobs)
      {
        ThreadedGenerateData(regions(laplacianImage, t), t);
      }
    }

    /** One scan of the scale loop, once all three responses exist: hand the three
        buffered responses to the work units, let each unit scan its region, fold the
        unit lists into the global list, and lower the bar to the weakest retained value
        when the list is not empty. The scan at iteration i of the scale loop reads the
        window of that iteration; it extends the history of scans along the schedule, so
        the global list and the threshold become the ones the schedule prescribes. */
    method ScanScale(filters: array<LaplacianResponse>, blobs: seq<Blob>, regions: NeighbourhoodSource,
                     ghost numberOfScales: nat, ghost i: nat)
        returns (merged: seq<Blob>)
      requires filters.Length == 3 && numberOfBlobs > 0 && i == |scans| + 2
      requires filters[0] == Computed(numberOfScales - i + 1) && filters[1] == Computed(numberOfScales - i)
      requires filters[2] == Computed(numberOfScales - i - 1) && currentSigma == numberOfScales - i
      requires forall t :: 0 <= t < blobHeapPerThread.Length ==> blobHeapPerThread[t] == []
      requires RunState(scans, blobs, globalMinimalBestBlobValue, numberOfScales, blobHeapPerThread.Length,
                        regions, numberOfBlobs)
      modifies this, blobHeapPerThread
      ensures unchanged(this`numberOfBlobs, this`stepsPerOctave, this`startT, this`endT, this`currentSigma,
                        this`blobHeapPerThread, this`blobList)
      ensures laplacianImage == filters[..]
      ensures forall t :: 0 <= t < blobHeapPerThread.Length ==> blobHeapPerThread[t] == []
      ensures |scans| == |old(scans)| + 1
      ensures merged != [] ==> globalMinimalBestBlobValue == merged[|merged| - 1].value
      ensures merged == [] ==> globalMinimalBestBlobValue == old(globalMinimalBestBlobValue)
      ensures RunState(scans, merged, globalMinimalBestBlobValue, numberOfScales, blobHeapPerThread.Length,
                       regions, numberOfBlobs)
    {
      ghost var before, units, k, sigma := scans, blobHeapPerThread.Length, numberOfBlobs, currentSigma;
      WindowOfBuffers(filters[..], numberOfScales, i);
      laplacianImage := filters[..];
      RunWorkUnits(regions);
      ghost var results, window, threshold := blobHeapPerThread[..], laplacianImage, globalMinimalBestBlobValue;
      merged := MergeThreadBlobs(blobs);
      if merged != [] {
        globalMinimalBestBlobValue := merged[|merged| - 1].value;
      }
      ScanExtendsRunState(before, window, threshold, sigma, blobs, results, merged, numberOfScales, units,
                          regions, k);
      scans := scans + [ScanRecord(window, threshold, sigma, results, merged)];
    }

    /** The detector's main loop. Scales are visited from the largest down; at each step
        the newest response is computed into the third slot, a scan runs once three
        responses exist, and the slots rotate so that the newest becomes the centre.
        The result is the global list after the last scan: the strongest blobs of
        everything the scans delivered, strongest first. */
    method GenerateData(numberOfScales: nat, numberOfWorkUnits: nat, regions: NeighbourhoodSource)
      requires numberOfBlobs > 0
      modifies this
      ensures unchanged(this`numberOfBlobs, this`stepsPerOctave, this`startT, this`endT)
      ensures |scans| == (if numberOfScales > 2 then numberOfScales - 2 else 0)
      ensures RunState(scans, blobList, globalMinimalBestBlobValue, numberOfScales, numberOfWorkUnits,
                       regions, numberOfBlobs)
      ensures laplacianImage == [Unset, Unset, Unset] && blobHeapPerThread.Length == 0
    {
      blobHeapPerThread := new seq<Blob>[numberOfWorkUnits](_ => []);
      var filters := new LaplacianResponse[3](_ => Unset);
      var blobs: seq<Blob> := [];
      globalMinimalBestBlobValue := NonpositiveMin;
      scans := [];
      for i := 0 to numberOfScales
        invariant fresh(blobHeapPerThread) && blobHeapPerThread.Length == numberOfWorkUnits
        invariant forall t :: 0 <= t < blobHeapPerThread.Length ==> blobHeapPerThread[t] == []
        invariant unchanged(this`numberOfBlobs, this`stepsPerOctave, this`startT, this`endT)
        invariant i >= 1 ==> filters[1] == Computed(numberOfScales - i) && currentSigma == numberOfScales - i
        invariant i >= 2 ==> filters[0] == Computed(numberOfScales - i + 1)
        invariant |scans| == (if i > 2 then i - 2 else 0)
        invariant RunState(scans, blobs, globalMinimalBestBlobValue, numberOfScales, numberOfWorkUnits,
                           regions, numberOfBlobs)
      {
        var sigma := SigmaExponent(numberOfScales, i);
        filters[2] := Computed(sigma);
        if i > 1 {
          blobs := ScanScale(filters, blobs, regions, numberOfScales, i);
        }
        RotateDown(filters);
        currentSigma := sigma;
      }
      laplacianImage := [Unset, Unset, Unset];
      blobHeapPerThread := new seq<Blob>[0];
      blobList := blobs;
    }
  }
}