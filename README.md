# Cubic Bezier curve editor — verified model of the curve core

The editor (`bezier.js`) lets a user build a chain of cubic Bezier segments.
A click appends control points. Dragging reshapes the curve. Each curve keeps
a flat list of control points:

- index 0 is the first anchor, and index 1 is its handle;
- every later triple `3k - 1, 3k, 3k + 1` is an incoming handle, an anchor
  and an outgoing handle.

This project models the class `BezierCubicCurve`:

- appending points on a click;
- moving the selected point, which carries an anchor's handles along and
  mirrors a handle's sibling through its anchor;
- the click toggle and the hit test;
- the loop in `drawCurve` that splits the list into groups of four and
  samples them;
- De Casteljau evaluation and point mirroring.

The files:

- `vectors.dfy` (module `Vectors`): a point is a coordinate vector
  (`seq<real>`) of dimension 2, the same shape as the source's `[x, y]`
  arrays. It also holds `mirrorOverPoint`.
- `casteljau.dfy` (module `Casteljau`): `deCasteljau` as three loop methods
  (levels, pairs, coordinates), proved against the recursive function `Eval`.
  The lemmas give the end points, constant input and the cubic Bernstein form.
- `curve_spec.dfy` (module `CurveSpec`): functions that specify what each
  operation does to the point list, and the lemmas about them.
- `bezier_curve.dfy` (module `Bezier`): the class `BezierCubicCurve`. Its
  methods change `points` and `selectedIdx` step by step, as the source
  does. Each is proved against the functions of `CurveSpec`.
- `wrappers.dfy`: `Option`.

Each operation's contract, and how it was modelled:

- **Selection.** The source keeps both `selectedPoint` and
  `selectedPointIdx`. They are always null together, so the model keeps
  only the index, as `Option<nat>`.
- **Object invariant.** `Valid()` says that the list length is 0 or
  `2 + 3k`, and that a selected index lies inside the list. Every method
  keeps it. `MoveIndicesInBounds` shows that the list accesses of
  `moveSelectedPoint` (`i ± 1`, `i ± 2`) then stay in bounds.
- **Aliasing.** The model uses values; the source shares array objects:
  - `addInterpolatedPoint` pushes one array two or three times.
  - An anchor move updates its neighbours with `+=` in place.

  On lists that clicking can build, both give the same results:
  - Handle 1 is replaced alone (bezier.js:47). Every other handle is
    replaced together with its sibling (bezier.js:76-78). The array stored
    at the dragged index is the caller's `newPos`. It is a new array on
    every pointer event, because `getCursorPosition` builds one each time
    (bezier.js:316). The sibling gets the new array that `mirrorOverPoint`
    returns.
  - So an anchor shares its array with both of its handles or with neither.
  - When it shares with both, the lower-index handle is equal to it and wins
    the hit test first, so such an anchor is never selected.
  - The exception is anchor 0 sharing with handle 1. Moving anchor 0 then
    leaves both at the new position, which the value model also gives.
- **Sampling.** `drawCurve` samples `L div 3` groups for a list of length
  `L >= 4`. Group `k` is `points[3k..3k+4]`, and each group gives
  `calcCount + 1` samples at `t = j / calcCount`.
  - For `L = 5` the loop at bezier.js:176-185 samples `points[0..4]`, which
    is one group.
  - Appending produces only the lengths 0 and `2 + 3n`.

## Model

| member | source | states |
|---|---|---|
| `Vectors.MirrorOverPoint` | bezier.js:215-220 | the centre is the midpoint of the point and its image; the image is `2c - p` |
| `Vectors.MirrorTwice` | bezier.js:215-220 | mirroring twice through the same centre returns the point |
| `Vectors.MirrorThroughSelf` | bezier.js:215-220 | a point mirrored through itself is unchanged |
| `Casteljau.Lerp` | bezier.js:207-209 | one blend keeps the dimension, lies on the line through the two points at parameter `t`, and gives the first point at `t = 0` and the second at `t = 1` |
| `Casteljau.Level` | bezier.js:206-210 | one level is one point shorter, keeps the dimension, and blends each adjacent pair |
| `Casteljau.Eval` | bezier.js:204-213 | the curve point has the dimension of the control points |
| `Casteljau.BlendPair` | bezier.js:207-209 | the coordinate loop builds exactly the blend of the pair |
| `Casteljau.NextLevel` | bezier.js:206-210 | the pair loop builds exactly the next level |
| `Casteljau.DeCasteljau` | bezier.js:204-213 | the level loop returns `Eval(pts, t)`, with the input's dimension |
| `Casteljau.EvalAtZero` | bezier.js:204-213 | at `t = 0` the curve is at the first control point |
| `Casteljau.EvalAtOne` | bezier.js:204-213 | at `t = 1` the curve is at the last control point |
| `Casteljau.EvalConstant` | bezier.js:204-213 | coincident control points give that point for every `t` |
| `Casteljau.CubicBernstein` | bezier.js:204-213 | for four points each coordinate equals `(1-t)^3 P0 + 3(1-t)^2 t P1 + 3(1-t) t^2 P2 + t^3 P3` |
| `CurveSpec.Appended` | bezier.js:19-32 | an empty list gains 2 points, any other list gains 3; all new points equal the click position; earlier points are unchanged; reachable lengths stay reachable |
| `CurveSpec.AppendAll` | bezier.js:19-35 | after `n >= 1` clicks that each append, the list holds `3n - 1 = 2 + 3(n - 1)` points, so lengths are 0 or `2 mod 3` |
| `CurveSpec.Near` | bezier.js:104-105 | the click is within 6 of the point on each axis, bounds included; a point is always near itself |
| `CurveSpec.FindNearbyPointFrom` | bezier.js:100-111 | the scan from index `i` returns the first index at or after `i` whose ±6 box, closed on both axes, holds the position; it returns none exactly when no such index exists |
| `CurveSpec.FindNearbyPoint` | bezier.js:100-111 | returns the lowest index whose closed ±6 box holds the position, or none exactly when no point's box does |
| `CurveSpec.HitTieBreak` | bezier.js:102-108 | of two points near the click, the one with the lower index is returned (or one lower still) |
| `CurveSpec.HandleAnchor` | bezier.js:66-74 | for a handle other than 1, the anchor index is an adjacent index and a multiple of 3 |
| `CurveSpec.HandleSibling` | bezier.js:66-74 | for a handle other than 1, the sibling is another handle index, and the anchor index lies exactly halfway between the two |
| `CurveSpec.MoveIndicesInBounds` | bezier.js:43-78 | on a list of reachable length, every neighbour, anchor and sibling index a move touches is in bounds |
| `CurveSpec.MovedPoints` | bezier.js:37-80 | a move keeps the list length and puts the dragged point under the pointer |
| `CurveSpec.MoveFirstHandle` | bezier.js:44-47 | dragging index 1 moves only index 1, to the new position |
| `CurveSpec.MoveAnchor` | bezier.js:48-63 | dragging anchor `i` translates `i + 1` (and `i - 1` when `i != 0`) by `newPos - old points[i]` and keeps each anchor-to-handle vector; no other point moves |
| `CurveSpec.MoveHandle` | bezier.js:64-79 | dragging handle `i != 1` sets its sibling to the mirror of `newPos` through the shared anchor; the anchor stays and is the midpoint of the two handles; no other point moves |
| `CurveSpec.SegmentSamples` | bezier.js:179-182 | one group yields `calcCount + 1` samples |
| `CurveSpec.GroupSamples` | bezier.js:176-186 | the first `n` groups, concatenated in path order, yield `n * (calcCount + 1)` samples |
| `CurveSpec.Samples` | bezier.js:171-187 | the polyline is empty below four points; otherwise it has `(L div 3) * (calcCount + 1)` samples |
| `CurveSpec.SamplesLength` | bezier.js:171-187 | for `L = 2 + 3n >= 4`, exactly `n` groups are sampled, giving `n * (calcCount + 1)` samples |
| `CurveSpec.GroupSampleAt` | bezier.js:176-186 | sample `j` of group `k` is the curve of `points[3k..3k+4]` at `t = j / calcCount` |
| `CurveSpec.SampleAt` | bezier.js:171-187 | the same for the whole polyline, in path order |
| `CurveSpec.SamplesJoinAtAnchors` | bezier.js:176-185 | the last sample of group `k` and the first of group `k + 1` are both the shared anchor `points[3k+3]` |
| `CurveSpec.GroupSamplesFrame` | bezier.js:176-186 | sampling `n` groups reads only the points `0..3n` |
| `CurveSpec.LastPointNotSampled` | bezier.js:174-186 | for lengths `2 mod 3`, changing the last point leaves the polyline unchanged |
| `CurveSpec.CoincidentSamples` | bezier.js:171-187 | when all control points coincide, every sample is that point |
| `Bezier.BezierCubicCurve.Valid` | bezier.js:19-35 | the class invariant: the length is one clicking produces, and any selection is inside the list; a selected anchor always has a handle after it, and no list holds a single point |
| `Bezier.BezierCubicCurve.constructor` | bezier.js:4-17 | a new curve has no points, no selection and `calcCount` 30 (31 samples per segment) |
| `Bezier.BezierCubicCurve.AddInterpolatedPoint` | bezier.js:19-35 | the list becomes `Appended(old list, pos)`; the last index is selected; the invariant holds |
| `Bezier.BezierCubicCurve.MoveSelectedPoint` | bezier.js:37-80 | the selection never changes; with no selection the list is unchanged; otherwise the list becomes `MovedPoints(old list, i, newPos)` |
| `Bezier.BezierCubicCurve.HandleClick` | bezier.js:82-98 | with a selection the click deselects and leaves the points alone; otherwise a hit selects the first nearby index and leaves the points alone, and a miss appends exactly as `AddInterpolatedPoint` |
| `Bezier.BezierCubicCurve.SampleCurve` | bezier.js:171-187 | the rewinding group loop produces exactly `Samples(points, calcCount)`, with `GroupCount(L) * (calcCount + 1)` samples |
| `Bezier.SampleSegment` | bezier.js:179-182 | the `j` loop evaluates the group at `t = j / calcCount` for `j = 0..calcCount` |
| `Bezier.ClickTwice` | bezier.js:82-98 | two clicks at one position with nothing selected leave nothing selected; the points are as before after a hit, or one append longer after a miss |

## Left out

- `drawControls` (bezier.js:113-167) and the stroking half of `drawCurve` (bezier.js:188-201) only issue drawing-surface calls. The model stops at the sampled polyline.
- The editor glue at bezier.js:244-374 is not part of this model. That covers `onCursorClick`, `addCurve`, `selectCurve`, `updateCurveSelector`, `removeSelectedCurve`, `updateCurveProperties`, `onChangeSelector`, `applyColor`, `applyLineWidth`, `redrawCanvas`, `mainLoop` and the event wiring. It is DOM access, alerts and list handling.
- `getCursorPosition` (bezier.js:312-317) is browser geometry with `Math.round`. Positions are inputs to the model.
- The colour and line-width fields and their getters and setters (bezier.js:14-15, 223-237) are plain field access with nothing to prove. The `console.log` calls (bezier.js:52-53) are debugging output.
- Coordinates are exact reals, not IEEE doubles. This applies to `t = j / calcCount` and to the blends.
- Object identity is not modelled; points are values. The Aliasing bullet above explains why the results agree on every list that clicking can build.
- `Casteljau.DeCasteljau`: requires at least one control point, all of one dimension. Its only caller passes four 2D points. In the source an empty list returns `undefined`. Mixed dimensions behave differently depending on order (bezier.js:207-208):
  - When a point has fewer coordinates than the one before it, `a[i+1][j]` is undefined and the blend gives `NaN`.
  - When it has more, the extra coordinates are dropped, and the blend takes the dimension of `a[i]`.
- `Bezier.BezierCubicCurve.SampleCurve`: relies on the invariant, whose lengths are never a multiple of 3. At such a length of 6 or more, `drawCurve` throws. Its loop pushes the `undefined` at `points[L]` into the last group, and `deCasteljau` then throws a TypeError on `a[3][j]` (bezier.js:176-180, 208). The spec function `Samples` accepts every length the loop handles: below 4, or not a multiple of 3.
- `Bezier.BezierCubicCurve.constructor`: `calcCount` is a constant field fixed at 30. The source's field is never reassigned.
