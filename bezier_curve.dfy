/**
 * One editable curve: the control-point list and the selected index,
 * changed in place by the editor's click and pointer-move handlers.
 */
module Bezier {
  import opened Wrappers
  import opened Vectors
  import opened Casteljau
  import opened CurveSpec

  class BezierCubicCurve {
    /** Control points: anchor, handle, then handle / anchor / handle triples. */
    var points: seq<Point>
    /** The index of the selected point, if any. */
    var selectedIdx: Option<nat>
    /** Curve evaluations per segment when sampling. */
    const calcCount: nat

    /** The list has a length clicking can produce and the selection is in it. */
    ghost predicate Valid()
      reads this
      // a selected anchor always has an outgoing handle after it
      ensures Valid() && selectedIdx.Some? && selectedIdx.value % 3 == 0 ==>
        selectedIdx.value + 1 < |points|
      // clicking never leaves a lone point
      ensures Valid() ==> |points| != 1
    {
      ReachableLength(|points|) &&
      (selectedIdx.Some? ==> selectedIdx.value < |points|) &&
      calcCount > 0
    }

    constructor ()
      ensures Valid()
      ensures points == [] && selectedIdx == None && calcCount == 30
    {
      points := [];
      selectedIdx := None;
      calcCount := 30;
    }

    /**
     * Push the position twice on an empty curve, three times otherwise, and
     * select the last point pushed.
     */
    method AddInterpolatedPoint(pos: Point)
      requires Valid()
      modifies this
      ensures Valid()
      ensures points == Appended(old(points), pos)
      ensures selectedIdx == Some(|points| - 1)
    {
      if |points| == 0 {
        points := points + [pos];
        points := points + [pos];
      } else {
        points := points + [pos];
        points := points + [pos];
        points := points + [pos];
      }
      selectedIdx := Some(|points| - 1);
    }

    /**
     * Drag the selected point to `newPos`: the first handle moves alone, an
     * anchor carries its handles along, any other handle mirrors its
     * sibling through their anchor. Without a selection nothing happens.
     */
    method MoveSelectedPoint(newPos: Point)
      requires Valid()
      modifies this
      ensures Valid()
      ensures selectedIdx == old(selectedIdx)
      ensures old(selectedIdx).None? ==> points == old(points)
      ensures old(selectedIdx).Some? ==>
        points == MovedPoints(old(points), old(selectedIdx).value, newPos)
    {
      if selectedIdx.None? {
        return;
      }
      var i := selectedIdx.value;
      MoveIndicesInBounds(|points|, i);
      var mod := i % 3;
      if i == 1 {
        points := points[i := newPos];
      } else if mod == 0 || i == 0 {
        var deltaX := newPos[0] - points[i][0];
        var deltaY := newPos[1] - points[i][1];
        points := points[i + 1 := [points[i + 1][0] + deltaX, points[i + 1][1] + deltaY]];
        if i != 0 {
          points := points[i - 1 := [points[i - 1][0] + deltaX, points[i - 1][1] + deltaY]];
        }
        points := points[i := [newPos[0], newPos[1]]];
        assert [newPos[0], newPos[1]] == newPos;
      } else {
        var relatedPointIdx, middlePoint;
        if mod == 1 {
          relatedPointIdx := i - 2;
          middlePoint := i - 1;
        } else {
          relatedPointIdx := i + 2;
          middlePoint := i + 1;
        }
        points := points[i := newPos];
        points := points[relatedPointIdx := MirrorOverPoint(newPos, points[middlePoint])];
      }
    }

    /**
     * A click clears an existing selection; otherwise it selects the first
     * point near the cursor, or appends a point there when none is near.
     */
    method HandleClick(cursorPos: Point)
      requires Valid()
      modifies this
      ensures Valid()
      ensures old(selectedIdx).Some? ==> selectedIdx == None && points == old(points)
      ensures old(selectedIdx).None? && FindNearbyPoint(old(points), cursorPos).Some? ==>
        selectedIdx == FindNearbyPoint(old(points), cursorPos) && points == old(points)
      ensures old(selectedIdx).None? && FindNearbyPoint(old(points), cursorPos).None? ==>
        points == Appended(old(points), cursorPos) && selectedIdx == Some(|points| - 1)
    {
      if selectedIdx.Some? {
        selectedIdx := None;
      } else {
        var nearbyPoint := FindNearbyPoint(points, cursorPos);
        if nearbyPoint.Some? {
          selectedIdx := nearbyPoint;
        } else {
          AddInterpolatedPoint(cursorPos);
        }
      }
    }

    /**
     * The sampling loop of `drawCurve`: collect points into groups of four,
     * sample each full group, and step back one index so the next group
     * starts at this group's last anchor.
     */
    method SampleCurve() returns (curvePoints: seq<Point>)
      requires Valid()
      ensures |curvePoints| == GroupCount(|points|) * (calcCount + 1)
      ensures curvePoints == Samples(points, calcCount)
    {
      var pts := points;
      curvePoints := [];
      if |pts| >= 4 {
        var tail := |pts| % 3;
        var placeholderArray: seq<Point> := [];
        ghost var groups := 0;
        var i := 0;
        while i <= |pts| - tail
          invariant 0 <= i <= |pts| - tail + 1
          invariant |placeholderArray| < 4 && |placeholderArray| <= i
          invariant i - |placeholderArray| == 3 * groups
          invariant placeholderArray == pts[3 * groups..i]
          invariant curvePoints == GroupSamples(pts, groups, calcCount)
          decreases |pts| - 3 * groups, |pts| - i
        {
          placeholderArray := placeholderArray + [pts[i]];
          if |placeholderArray| == 4 {
            assert placeholderArray == pts[3 * groups..3 * (groups + 1) + 1];
            var samples := SampleSegment(placeholderArray, calcCount);
            curvePoints := curvePoints + samples;
            assert curvePoints == GroupSamples(pts, groups + 1, calcCount);
            groups := groups + 1;
            placeholderArray := [];
            i := i - 1;
          }
          i := i + 1;
        }
        assert 3 * groups == |pts| - tail;
      }
    }
  }

  /**
   * The inner loop of `drawCurve`'s sampling: evaluate one group of four at
   * `t = j / calcCount` for j = 0..calcCount.
   */
  method SampleSegment(group: seq<Point>, calcCount: nat) returns (samples: seq<Point>)
    requires |group| == 4 && calcCount > 0
    ensures |samples| == calcCount + 1
    ensures forall j :: 0 <= j <= calcCount ==>
      samples[j] == Eval(group, j as real / calcCount as real)
    ensures samples == SegmentSamples(group, calcCount)
  {
    samples := [];
    var j := 0;
    while j <= calcCount
      invariant 0 <= j <= calcCount + 1
      invariant |samples| == j
      invariant forall m :: 0 <= m < j ==> samples[m] == Eval(group, m as real / calcCount as real)
    {
      var sample := DeCasteljau(group, j as real / calcCount as real);
      samples := samples + [sample];
      j := j + 1;
    }
  }

  /**
   * Two clicks at the same place with nothing selected: the first selects
   * or appends, the second only clears the selection.
   */
  method ClickTwice(curve: BezierCubicCurve, pos: Point)
    requires curve.Valid() && curve.selectedIdx == None
    modifies curve
    ensures curve.Valid() && curve.selectedIdx == None
    ensures curve.points ==
      if FindNearbyPoint(old(curve.points), pos).Some? then old(curve.points)
      else Appended(old(curve.points), pos)
  {
    curve.HandleClick(pos);
    ghost var afterFirst := curve.points;
    curve.HandleClick(pos);
    assert curve.points == afterFirst;
  }
}
