/** The per-pixel test of the scale-space search: a pixel of the centre response is a
    blob candidate when it clears the threshold and no entry of its 3^D neighbourhood in
    the previous, centre or next response is larger. Equal neighbours do not disqualify
    it, and the pixel itself, which sits in the centre neighbourhood, is one of them. */
module Extremum {
  import opened Blobs

  /** The three 3^D neighbourhoods around one pixel, one per buffered response, listed
      in the same offset order, and the pixel's grid index. */
  datatype ScaleSpaceNeighbourhood = ScaleSpaceNeighbourhood(
    index: Index, previous: seq<real>, current: seq<real>, next: seq<real>)
  {
    /** Same radius in all three responses, and a window with a middle entry. */
    predicate Valid()
    {
      |previous| == |current| == |next| && |current| % 2 == 1
    }

    /** The pixel's own value in the centre response. */
    function CenterPixel(): real
      requires |current| % 2 == 1
    {
      current[|current| / 2]
    }
  }

  type Neighbourhood = n: ScaleSpaceNeighbourhood | n.Valid()
    witness ScaleSpaceNeighbourhood([], [0.0], [0.0], [0.0])

  /** No entry of the window is larger than v. */
  ghost predicate NoneAbove(window: seq<real>, v: real)
  {
    forall h :: 0 <= h < |window| ==> window[h] <= v
  }

  /** The acceptance rule of the scan for one pixel against a threshold. */
  ghost predicate IsBlobCandidate(n: Neighbourhood, threshold: real)
  {
    var center := n.CenterPixel();
    && center >= threshold
    && NoneAbove(n.previous, center)
    && NoneAbove(n.current, center)
    && NoneAbove(n.next, center)
  }

  /** The isUsable computation: the early threshold cut, then one pass over each
      neighbourhood that stops at the first larger entry. */
  method TestPixel(n: Neighbourhood, threshold: real) returns (isUsable: bool)
    ensures isUsable <==> IsBlobCandidate(n, threshold)
  {
    var center := n.CenterPixel();
    isUsable := true;
    if center < threshold {
      isUsable := false;
    } else {
      var size := |n.previous|;
      var h := 0;
      while h < size && isUsable
        invariant 0 <= h <= size
        invariant isUsable <==> NoneAbove(n.previous[..h], center)
      {
        if center < n.previous[h] {
          isUsable := false;
        }
        h := h + 1;
        assert n.previous[..h] == n.previous[..h - 1] + [n.previous[h - 1]];
      }
      if isUsable {
        assert n.previous[..h] == n.previous;
      }
      h := 0;
      while h < size && isUsable
        invariant 0 <= h <= size
        invariant isUsable <==> NoneAbove(n.previous, center) && NoneAbove(n.current[..h], center)
      {
        if center < n.current[h] {
          isUsable := false;
        }
        h := h + 1;
        assert n.current[..h] == n.current[..h - 1] + [n.current[h - 1]];
      }
      if isUsable {
        assert n.current[..h] == n.current;
      }
      h := 0;
      while h < size && isUsable
        invariant 0 <= h <= size
        invariant isUsable <==> NoneAbove(n.previous, center) && NoneAbove(n.current, center)
                                && NoneAbove(n.next[..h], center)
      {
        if center < n.next[h] {
          isUsable := false;
        }
        h := h + 1;
        assert n.next[..h] == n.next[..h - 1] + [n.next[h - 1]];
      }
      if isUsable {
        assert n.next[..h] == n.next;
      }
    }
  }

  /** A candidate's value is at least the threshold and at least every value around it,
      its own included, and a single larger neighbour anywhere rules it out. */
  lemma CandidateIsNeighbourhoodMaximum(n: Neighbourhood, threshold: real)
    ensures IsBlobCandidate(n, threshold) <==>
      (n.CenterPixel() >= threshold &&
       !(exists h :: 0 <= h < |n.current| &&
           (n.previous[h] > n.CenterPixel() || n.current[h] > n.CenterPixel() || n.next[h] > n.CenterPixel())))
  {
  }

  /** Ties pass: a pixel whose whole neighbourhood equals its own value is accepted as
      soon as it clears the threshold, so a flat response yields a candidate at every
      pixel at or above the threshold. */
  lemma FlatNeighbourhoodIsCandidate(n: Neighbourhood, threshold: real)
    requires forall h :: 0 <= h < |n.current| ==>
      n.previous[h] == n.current[h] == n.next[h] == n.CenterPixel()
    requires n.CenterPixel() >= threshold
    ensures IsBlobCandidate(n, threshold)
  {
  }

  /** Raising the threshold can only turn candidates away. */
  lemma CandidateAtLowerThreshold(n: Neighbourhood, low: real, high: real)
    requires low <= high && IsBlobCandidate(n, high)
    ensures IsBlobCandidate(n, low)
  {
  }
}
