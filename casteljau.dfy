/**
 * De Casteljau's algorithm: evaluate a Bezier curve at parameter `t` by
 * repeatedly blending neighbouring control points with weights
 * `(1 - t, t)` until a single point is left.
 */
module Casteljau {
  import opened Vectors

  /** Every vector of `a` has dimension `d`. */
  predicate SameDim(a: seq<Vec>, d: nat)
  {
    forall k :: 0 <= k < |a| ==> |a[k]| == d
  }

  /** One blend of two vectors, coordinate by coordinate. */
  function Lerp(u: Vec, v: Vec, t: real): (r: Vec)
    requires |u| == |v|
    ensures |r| == |u|
    // r lies on the line through u and v, at parameter t
    ensures forall j :: 0 <= j < |r| ==> r[j] == u[j] + t * (v[j] - u[j])
    ensures t == 0.0 ==> r == u
    ensures t == 1.0 ==> r == v
  {
    var r := seq(|u|, j requires 0 <= j < |u| => u[j] * (1.0 - t) + v[j] * t);
    assert t == 0.0 ==> forall j :: 0 <= j < |u| ==> r[j] == u[j];
    assert t == 1.0 ==> forall j :: 0 <= j < |u| ==> r[j] == v[j];
    r
  }

  /** One level of the algorithm: blend each adjacent pair. */
  function Level(a: seq<Vec>, t: real): (b: seq<Vec>)
    requires |a| >= 1 && SameDim(a, |a[0]|)
    ensures |b| == |a| - 1
    ensures SameDim(b, |a[0]|)
    ensures forall i :: 0 <= i < |b| ==> b[i] == Lerp(a[i], a[i + 1], t)
  {
    seq(|a| - 1, i requires 0 <= i < |a| - 1 => Lerp(a[i], a[i + 1], t))
  }

  /** The curve point at `t`: levels are applied until one vector is left. */
  function Eval(a: seq<Vec>, t: real): (r: Vec)
    requires |a| >= 1 && SameDim(a, |a[0]|)
    ensures |r| == |a[0]|
    decreases |a|
  {
    if |a| == 1 then a[0] else Eval(Level(a, t), t)
  }

  /**
   * The innermost loop of the editor's `deCasteljau`: blend two points
   * coordinate by coordinate, over the dimension of the first.
   */
  method BlendPair(u: Vec, v: Vec, t: real) returns (row: Vec)
    requires |u| == |v|
    ensures row == Lerp(u, v, t)
  {
    row := [];
    var j := 0;
    while j < |u|
      invariant 0 <= j <= |u|
      invariant row == Lerp(u, v, t)[..j]
    {
      ghost var l := Lerp(u, v, t);
      assert l[j] == u[j] * (1.0 - t) + v[j] * t;
      assert l[..j + 1] == l[..j] + [l[j]];
      row := row + [u[j] * (1.0 - t) + v[j] * t];
      j := j + 1;
    }
  }

  /** The middle loop: build the next, one-shorter level pair by pair. */
  method NextLevel(a: seq<Vec>, t: real) returns (b: seq<Vec>)
    requires |a| >= 1 && SameDim(a, |a[0]|)
    ensures b == Level(a, t)
  {
    b := [];
    var i := 0;
    while i < |a| - 1
      invariant 0 <= i <= |a| - 1
      invariant b == Level(a, t)[..i]
    {
      var row := BlendPair(a[i], a[i + 1], t);
      b := b + [row];
      i := i + 1;
    }
  }

  /**
   * The editor's `deCasteljau`: the outer loop replaces the working list by
   * its next level until one point is left, and returns that point.
   */
  method DeCasteljau(pts: seq<Vec>, t: real) returns (r: Vec)
    requires |pts| >= 1 && SameDim(pts, |pts[0]|)
    ensures |r| == |pts[0]|
    ensures r == Eval(pts, t)
  {
    var a := pts;
    while |a| > 1
      invariant |a| >= 1 && SameDim(a, |pts[0]|)
      invariant Eval(a, t) == Eval(pts, t)
      decreases |a|
    {
      a := NextLevel(a, t);
    }
    r := a[0];
  }

  /** At `t = 0` the curve starts at the first control point. */
  lemma {:induction false} EvalAtZero(a: seq<Vec>)
    requires |a| >= 1 && SameDim(a, |a[0]|)
    ensures Eval(a, 0.0) == a[0]
    decreases |a|
  {
    if |a| > 1 {
      var b := Level(a, 0.0);
      EvalAtZero(b);
    }
  }

  /** At `t = 1` the curve ends at the last control point. */
  lemma {:induction false} EvalAtOne(a: seq<Vec>)
    requires |a| >= 1 && SameDim(a, |a[0]|)
    ensures Eval(a, 1.0) == a[|a| - 1]
    decreases |a|
  {
    if |a| > 1 {
      var b := Level(a, 1.0);
      EvalAtOne(b);
    }
  }

  /** Control points that all coincide give that point for every `t`. */
  lemma {:induction false} EvalConstant(a: seq<Vec>, p: Vec, t: real)
    requires |a| >= 1 && forall k :: 0 <= k < |a| ==> a[k] == p
    ensures SameDim(a, |p|)
    ensures Eval(a, t) == p
    decreases |a|
  {
    if |a| > 1 {
      var b := Level(a, t);
      forall k | 0 <= k < |b|
        ensures b[k] == p
      {
        var l := Lerp(p, p, t);
        assert forall j :: 0 <= j < |l| ==> l[j] == p[j];
      }
      EvalConstant(b, p, t);
    }
  }

  /** One coordinate of a blend: `u` moved towards `v` by the fraction `t`. */
  function Mix(u: real, v: real, t: real): real
  {
    u + t * (v - u)
  }

  /** The cubic Bernstein form (1-t)^3 p0 + 3(1-t)^2 t p1 + 3(1-t) t^2 p2 + t^3 p3. */
  function Bernstein3(t: real, p0: real, p1: real, p2: real, p3: real): real
  {
    (1.0 - t) * (1.0 - t) * (1.0 - t) * p0
    + 3.0 * (1.0 - t) * (1.0 - t) * t * p1
    + 3.0 * (1.0 - t) * t * t * p2
    + t * t * t * p3
  }

  /**
   * For four control points the algorithm computes the cubic Bernstein
   * form, coordinate by coordinate.
   */
  lemma CubicBernstein(a: seq<Vec>, t: real, j: nat)
    requires |a| == 4 && SameDim(a, |a[0]|) && j < |a[0]|
    ensures Eval(a, t)[j] == Bernstein3(t, a[0][j], a[1][j], a[2][j], a[3][j])
  {
    CubicByLevels(a, t, j);
    BernsteinExpansion(t, a[0][j], a[1][j], a[2][j], a[3][j]);
  }

  /** Three levels on four points, one coordinate. */
  lemma CubicByLevels(a: seq<Vec>, t: real, j: nat)
    requires |a| == 4 && SameDim(a, |a[0]|) && j < |a[0]|
    ensures Eval(a, t)[j] ==
      Mix(Mix(Mix(a[0][j], a[1][j], t), Mix(a[1][j], a[2][j], t), t),
          Mix(Mix(a[1][j], a[2][j], t), Mix(a[2][j], a[3][j], t), t), t)
  {
    var l1 := Level(a, t);
    var l2 := Level(l1, t);
    var l3 := Level(l2, t);
    assert Eval(a, t)[j] == l3[0][j] by {
      assert Eval(a, t) == Eval(l1, t) == Eval(l2, t) == Eval(l3, t) == l3[0];
    }
    LevelCoord(a, t, 0, j);
    LevelCoord(a, t, 1, j);
    LevelCoord(a, t, 2, j);
    LevelCoord(l1, t, 0, j);
    LevelCoord(l1, t, 1, j);
    LevelCoord(l2, t, 0, j);
  }

  /** One coordinate of one blended point. */
  lemma LevelCoord(a: seq<Vec>, t: real, i: nat, j: nat)
    requires |a| >= 1 && SameDim(a, |a[0]|) && i + 1 < |a| && j < |a[0]|
    ensures |Level(a, t)[i]| == |a[0]|
    ensures Level(a, t)[i][j] == Mix(a[i][j], a[i + 1][j], t)
  {
  }

  /** Three rounds of blending, multiplied out. */
  lemma BernsteinExpansion(t: real, p0: real, p1: real, p2: real, p3: real)
    ensures Mix(Mix(Mix(p0, p1, t), Mix(p1, p2, t), t), Mix(Mix(p1, p2, t), Mix(p2, p3, t), t), t)
      == Bernstein3(t, p0, p1, p2, p3)
  {
  }
}
