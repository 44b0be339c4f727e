# Multi-scale Laplacian blob detector: the discrete core

This project models the scale-space search of `MultiScaleLaplacianBlobDetectorImageFilter2`. The filter searches a
scale-normalised Laplacian-of-Gaussian response for local maxima across space and scale. It returns at most
`m_NumberOfBlobs` (K) of them: the K strongest of the blobs its scans deliver (`ScheduledListIsTopK`). That is not
always the K strongest maxima of the response, because a scan prunes against the threshold the earlier scans left, and
a work unit's bounded heap can drop a stronger blob (both shown below).

Scales are visited from the largest down. At each scale the newest response goes into the third of three filter
slots. Once three responses exist, every work unit scans its region of the centre response. It tests each pixel against
its 3^D neighbourhoods in the previous, centre and next responses, and keeps accepted pixels in a bounded min-heap
gated by a running threshold. After the scan, the sorted unit lists are merged into the global list with `std::merge`,
and the list is cut back to K after each merge. The weakest retained value becomes the threshold of the next scale.
Finally the slots rotate, so that the newest response becomes the centre.

Files:

- `blobs.dfy` (module `Blobs`):
  - the blob record and its strength order;
  - the standard merge under the blob comparator, and truncation;
  - `IsTopK`, meaning "the K strongest of a pool", with the proof that merging a sorted list into a top-K list and
    truncating gives the top K of the enlarged pool.
- `heap.dfy` (module `BlobHeap`): `push_heap`, `pop_heap` and `sort_heap` under the blob comparator, which keep the
  weakest blob at the front. They are modelled as sift loops on a vector value and specified by what the C++ standard
  guarantees of them.
- `extremum.dfy` (module `Extremum`): the per-pixel test, with its three early-exit loops.
- `detector.dfy` (module `Detector`):
  - the insertion into a unit's bounded heap, and one unit's whole scan;
  - the merge of the unit lists and the threshold update;
  - the rotation of the three filter slots and the scale loop;
  - class `MultiScaleLaplacianBlobDetector`, holding the filter's member fields.

  A ghost history of scans records what each scan read and produced. `FollowsSchedule` says that every scan read the
  window of its iteration, started from the threshold and list the earlier scans left, had every unit deliver its scan
  result, and folded the results into the list. On that history the model proves three things:
  - the global list is the K strongest of everything the units delivered (`ScheduledListIsTopK`);
  - every listed blob is a neighbourhood maximum that some scan detected (`ListedBlobIsDetected`);
  - the threshold never falls (`ThresholdNeverDrops`).

Abstractions:

- Scales are identified by the exponent e in `sigma = initial_sigma * k^e`. Iteration i computes the response of
  exponent `numberOfScales - i - 1`, and a response is an opaque buffer tagged with that exponent.
- `numberOfScales` is a parameter.
- The neighbourhoods a unit visits are given by a function of the three buffered responses and the unit's id
  (`NeighbourhoodSource`). Each neighbourhood is three equal-length sequences of reals around the pixel's grid index.
- `RealPixelType` is taken to be `double`. Its most negative finite value is written out as `NonpositiveMin`, and
  pixel values are exact reals.
- `BlobValueGreaterCompare` is declared in the filter's header, which is not part of this model. It is taken to be
  `a.m_Value > b.m_Value` (`Blobs.ValueGreater`), as the heap comments and its use in `std::merge` indicate.

Behaviours of the code worth knowing, which an idealised detector would not have:

- Ties pass the extremum test, because the test rejects a pixel only when `center < neighbour`. The pixel compares
  equal to itself in the centre neighbourhood. A strict-maximum test would reject ties; this one does not, so a flat
  response yields a candidate at every pixel at or above the threshold (`FlatNeighbourhoodIsCandidate`).
- The threshold becomes the last retained value whenever the global list is not empty (lines 171-173), even while
  fewer than K blobs are held. Every later scan copies it (line 240) and rejects pixels below it (line 278), so a
  maximum weaker than the current list is lost even when the list has room. With K = 2, a first scan that keeps one
  maximum of value 10 makes a later scan's maximum of value 9 fail, and the output holds one blob although two were
  found (`ShortListThresholdCanLoseMaximum`).
- Boundary faces are scanned like the interior; no pixel is skipped. Their neighbourhood values come from ITK's
  boundary condition, which is part of the neighbourhood source here.
- The threshold only ever rises from scale to scale (`ThresholdNeverDrops`).
- A unit's list is not the K strongest of its candidates. The replacement test at line 313 compares the new blob with
  the unit's running threshold, not with the heap front. The first replacement after the heap fills can therefore
  evict a stronger blob (`ReplacementCanEvictStrongerBlob`). The global list is still the top K of what the units
  delivered.

## Model

| member | source | states |
|---|---|---|
| Blobs.Merge | src/itkMultiScaleLaplacianBlobDetectorImageFilter2.hxx:152-158 | the merged vector has the combined length and exactly the elements of both ranges |
| Blobs.MergeTakesFirstOnTies | src/itkMultiScaleLaplacianBlobDetectorImageFilter2.hxx:156-158 | on equal head values the merge takes the head of the global list first |
| Blobs.MergeTakesStrongerSecond | src/itkMultiScaleLaplacianBlobDetectorImageFilter2.hxx:156-158 | a unit-list head strictly stronger than the global list's head is taken first |
| Blobs.MergeKeepsSorted | src/itkMultiScaleLaplacianBlobDetectorImageFilter2.hxx:156-158 | merging two lists sorted strongest first gives a list sorted strongest first |
| Blobs.MergeDominatesFirst | src/itkMultiScaleLaplacianBlobDetectorImageFilter2.hxx:156-158 | the i-th entry of the merge is at least as strong as the i-th entry of the global list it started from |
| Blobs.Truncate | src/itkMultiScaleLaplacianBlobDetectorImageFilter2.hxx:161-164 | the result is the prefix of length min(size, K) |
| Blobs.TruncatedMergeIsTopK | src/itkMultiScaleLaplacianBlobDetectorImageFilter2.hxx:152-164 | if the global list is the top K of a pool, merging a sorted unit list and truncating gives a sorted list that is the top K of the pool plus that unit list |
| Blobs.TruncatedMergeRaisesLast | src/itkMultiScaleLaplacianBlobDetectorImageFilter2.hxx:152-164 | a full list stays full through merge and truncation, and its weakest value does not fall |
| BlobHeap.HeapFrontIsMin | src/itkMultiScaleLaplacianBlobDetectorImageFilter2.hxx:306-307 | the front of a heap under the blob comparator is no stronger than any entry |
| BlobHeap.PushHeap | src/itkMultiScaleLaplacianBlobDetectorImageFilter2.hxx:310-311 | push_heap on a heap followed by one new entry gives a heap with the same elements |
| BlobHeap.SiftUpStep | src/itkMultiScaleLaplacianBlobDetectorImageFilter2.hxx:311 | one swap of push_heap keeps the elements and moves the single heap-order violation one level up |
| BlobHeap.SiftDown | src/itkMultiScaleLaplacianBlobDetectorImageFilter2.hxx:315 | sifting an out-of-place root down restores heap order and keeps the elements |
| BlobHeap.SiftDownStep | src/itkMultiScaleLaplacianBlobDetectorImageFilter2.hxx:315 | one swap with the weaker child keeps the elements and moves the violation down to that child |
| BlobHeap.PopHeap | src/itkMultiScaleLaplacianBlobDetectorImageFilter2.hxx:315 | pop_heap moves the front to the back and leaves a heap with the same elements before it |
| BlobHeap.SortHeap | src/itkMultiScaleLaplacianBlobDetectorImageFilter2.hxx:330-331 | sort_heap leaves a permutation of the heap sorted strongest first |
| Extremum.TestPixel | src/itkMultiScaleLaplacianBlobDetectorImageFilter2.hxx:275-296 | isUsable holds exactly when the centre value is at least the threshold and no entry of the previous, centre or next neighbourhood is larger |
| Extremum.CandidateIsNeighbourhoodMaximum | src/itkMultiScaleLaplacianBlobDetectorImageFilter2.hxx:278-295 | a pixel passes iff it clears the threshold and no offset has a larger value in any of the three responses |
| Extremum.FlatNeighbourhoodIsCandidate | src/itkMultiScaleLaplacianBlobDetectorImageFilter2.hxx:284-295 | ties do not reject: a neighbourhood equal to its centre passes once the centre clears the threshold |
| Extremum.CandidateAtLowerThreshold | src/itkMultiScaleLaplacianBlobDetectorImageFilter2.hxx:278-281 | a pixel that passes at some threshold passes at every lower one |
| Detector.SigmaExponent | src/itkMultiScaleLaplacianBlobDetectorImageFilter2.hxx:107 | iteration i of the loop computes the scale of exponent numberOfScales - i - 1, which lies in [0, numberOfScales) |
| Detector.SigmaExponentDecreasing | src/itkMultiScaleLaplacianBlobDetectorImageFilter2.hxx:103-107 | a later iteration has a strictly smaller scale |
| Detector.CandidatesClearThreshold | src/itkMultiScaleLaplacianBlobDetectorImageFilter2.hxx:278-303 | every pixel that passes against a threshold gives a blob at or above it, tagged with the scan's scale |
| Detector.CandidatesComeFromPixels | src/itkMultiScaleLaplacianBlobDetectorImageFilter2.hxx:273-303 | every candidate blob is the blob of a scanned pixel that passes the test, with that pixel's index, the scan's scale and the pixel's centre value (line 303) |
| Detector.OfferBlob | src/itkMultiScaleLaplacianBlobDetectorImageFilter2.hxx:306-320 | the heap stays a heap of at most K blobs; below K the blob is added and the size grows by one; at K a blob stronger than the running threshold replaces a weakest entry (the old front), the size stays, and the threshold becomes the new front's value; otherwise nothing changes |
| Detector.PushKeepsScanState | src/itkMultiScaleLaplacianBlobDetectorImageFilter2.hxx:308-312 | a push below the bound keeps the unit's scan state with one more candidate |
| Detector.ReplaceKeepsScanState | src/itkMultiScaleLaplacianBlobDetectorImageFilter2.hxx:313-320 | a replacement keeps the scan state, and the running threshold does not fall |
| Detector.DropKeepsScanState | src/itkMultiScaleLaplacianBlobDetectorImageFilter2.hxx:313 | a full heap that turns a candidate away keeps the scan state |
| Detector.RejectedKeepsScanState | src/itkMultiScaleLaplacianBlobDetectorImageFilter2.hxx:275-296 | a pixel that fails the running threshold changes nothing |
| Detector.ScanPixel | src/itkMultiScaleLaplacianBlobDetectorImageFilter2.hxx:275-322 | one pixel of the scan carries the unit's state (min-heap of at most K candidates, all of them while there are at most K, and a running threshold at or above the snapshot that moves only once the heap is full) over one more pixel; the running threshold never falls |
| Detector.SortedScanIsThreadResult | src/itkMultiScaleLaplacianBlobDetectorImageFilter2.hxx:330-331 | the sorted heap after the scan is a unit result: sorted, min(#candidates, K) long, drawn from the candidates, all of them when there are at most K |
| Detector.ShortListThresholdCanLoseMaximum | src/itkMultiScaleLaplacianBlobDetectorImageFilter2.hxx:170-174 | with K = 2 and one unit, a list holding one blob of value 10 sets the threshold to 10; a later unit whose only pixel is a maximum of value 9 (a candidate at the initial threshold) must deliver nothing, and the merge leaves the single blob of value 10 |
| Detector.ReplacementCanEvictStrongerBlob | src/itkMultiScaleLaplacianBlobDetectorImageFilter2.hxx:313-320 | with K = 1, a unit that accepted a blob of value 5 and then meets one of value 3 keeps only the 3 |
| Detector.RotateDown | src/itkMultiScaleLaplacianBlobDetectorImageFilter2.hxx:177-179 | the two swaps rotate the slots (a, b, c) to (b, c, a) |
| Detector.NextThreshold | src/itkMultiScaleLaplacianBlobDetectorImageFilter2.hxx:170-174 | the threshold is unchanged when the list is empty; it bounds a sorted list from below; it never falls below a threshold the list clears |
| Detector.WindowHoldsRecentResponses | src/itkMultiScaleLaplacianBlobDetectorImageFilter2.hxx:116-126 | at iteration i the slots hold the responses computed at iterations i-2, i-1 and i |
| Detector.ThreadResultAtLeast | src/itkMultiScaleLaplacianBlobDetectorImageFilter2.hxx:240 | a unit result never holds a blob below the threshold snapshot it scanned against |
| Detector.MergeStepKeepsState | src/itkMultiScaleLaplacianBlobDetectorImageFilter2.hxx:145-166 | folding one sorted unit list into the global list keeps it sorted, the top K of what was seen, drawn from the inputs, and a full list's weakest value does not fall |
| Detector.MergeAllKeepsState | src/itkMultiScaleLaplacianBlobDetectorImageFilter2.hxx:141-168 | after folding in all unit lists, empty ones skipped, the global list is sorted and is the top K of the old pool plus every unit list |
| Detector.MergedScanIsTopK | src/itkMultiScaleLaplacianBlobDetectorImageFilter2.hxx:139-174 | one scan's merge keeps the global list sorted, the top K of everything delivered so far, and at or above the threshold the scan started from |
| Detector.ScheduledListIsTopK | src/itkMultiScaleLaplacianBlobDetectorImageFilter2.hxx:100-186 | after any scheduled history the global list is sorted, holds the top K of every blob the units delivered, and is at or above the threshold it leaves |
| Detector.ScanRaisesThreshold | src/itkMultiScaleLaplacianBlobDetectorImageFilter2.hxx:170-174 | one scan never lowers the threshold |
| Detector.ThresholdNeverDrops | src/itkMultiScaleLaplacianBlobDetectorImageFilter2.hxx:101-174 | the threshold after any earlier point of a scheduled history is at most the one after all of it |
| Detector.ThreadBlobIsDetected | src/itkMultiScaleLaplacianBlobDetectorImageFilter2.hxx:298-303 | a blob of a unit's result is the blob of a pixel of its region that passed the test in that scan |
| Detector.DeliveredBlobIsDetected | src/itkMultiScaleLaplacianBlobDetectorImageFilter2.hxx:273-303 | every blob any unit delivered along a scheduled history was detected by one of its scans |
| Detector.ListedBlobIsDetected | src/itkMultiScaleLaplacianBlobDetectorImageFilter2.hxx:139-168 | every blob of the final list is a neighbourhood maximum, at or above that scan's threshold, found by some scan |
| Detector.MultiScaleLaplacianBlobDetector.constructor | src/itkMultiScaleLaplacianBlobDetectorImageFilter2.hxx:44-50 | defaults: 1000 blobs, 15 steps per octave, start t 8, end t 128 |
| Detector.MultiScaleLaplacianBlobDetector.ThreadedGenerateData | src/itkMultiScaleLaplacianBlobDetectorImageFilter2.hxx:237-331 | a unit's scan leaves a unit result in its own slot and touches no other slot |
| Detector.MultiScaleLaplacianBlobDetector.RunWorkUnits | src/itkMultiScaleLaplacianBlobDetectorImageFilter2.hxx:130-137 | after the fan-out every slot holds its unit's result over its region |
| Detector.MultiScaleLaplacianBlobDetector.MergeThreadBlobs | src/itkMultiScaleLaplacianBlobDetectorImageFilter2.hxx:139-168 | the merged list is the fold of all unit lists (see MergeAllKeepsState), and every unit list is empty afterwards |
| Detector.MultiScaleLaplacianBlobDetector.ScanScale | src/itkMultiScaleLaplacianBlobDetectorImageFilter2.hxx:121-174 | one scan extends the scheduled history; the threshold becomes the last retained value when the list is non-empty and is unchanged otherwise; the unit lists are cleared |
| Detector.MultiScaleLaplacianBlobDetector.GenerateData | src/itkMultiScaleLaplacianBlobDetectorImageFilter2.hxx:77-194 | exactly max(0, numberOfScales - 2) scans run, each on schedule; the output list is the global list after the last one, so ScheduledListIsTopK and ListedBlobIsDetected apply to it |

## Left out

- The `MultiThreader` fan-out (lines 130-137) is concurrency. `RunWorkUnits` runs the units one after another. Each
  unit writes only its own slot and reads fields that nobody writes during the scan, so the slots come out the same.
- The floating-point scale schedule (lines 83-86, 107) uses `pow`, `log`, `ceil` and `sqrt`. `numberOfScales` is a
  parameter and a scale is its exponent.
- `LaplacianRecursiveGaussianImageFilter` (lines 88-98, 116-118) is a foreign numeric filter. A response is a buffer
  tagged with its scale.
- The ITK neighbourhood iterators and boundary faces (lines 247-273, 324) are not modelled. The neighbourhoods a unit
  visits are an input function of the window and the unit id.
- Pipeline scaffolding is not modelled: the cast and graft (lines 59-71), progress reporting (lines 74-75, 97, 127,
  185) and debug macros.
- The conversion to spatial-object blobs (lines 194-222) needs `sqrt` and `TransformIndexToPhysicalPoint`. The output
  list holds the blob records themselves, in order.
- The heap's reserved capacity (`reserve` at line 238) is not modelled. The `resize` at line 78, which creates one list
  per work unit, is modelled by the allocation of `blobHeapPerThread` in `GenerateData`.
- NaN responses and floating-point rounding are not modelled: values are exact reals.
- Detector.MultiScaleLaplacianBlobDetector.ThreadedGenerateData: the result is not claimed to be the K strongest
  candidates of the unit. The source does not guarantee it (see `ReplacementCanEvictStrongerBlob`), so the contract
  states only the sorted order, the size, that the entries are drawn from the candidates, and that all candidates are
  kept when there are at most K. The order among equal values is left open.
- BlobHeap.PushHeap: states heap order and the same elements, not the exact positions a standard library produces.
- BlobHeap.PopHeap: states the moved front, heap order and the same elements, not the exact positions.
- BlobHeap.SortHeap: states sorted order and the same elements; the order among equal values is left open.
- Detector.OfferBlob: requires K > 0. With K = 0, `pop_heap` would run on an empty range, which is undefined
  behaviour. The scan, the fan-out, `ScanScale`, `GenerateData` and the top-K lemmas carry the same requirement;
  `MergeThreadBlobs` does not need it.
- Detector.MultiScaleLaplacianBlobDetector.ThreadedGenerateData: requires its slot to be empty on entry, which the
  merge of the previous scan guarantees by clearing every slot.
