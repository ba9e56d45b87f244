/**
 * Thinning a circuit's outline (scripts/generate-f1-circuit-assets.py): the points kept, and how
 * far from the kept line the dropped ones lie. Distances are compared by their squares.
 */
module Polyline {

  datatype Point = Point(x: real, y: real)

  function Times(a: real, b: real): real { a * b }

  function Square(a: real): (r: real)
    ensures r >= 0.0
    ensures a != 0.0 ==> r > 0.0
  {
    SquareIsPositive(a);
    Times(a, a)
  }

  lemma PositiveTimes(a: real, b: real)
    requires a > 0.0 && b > 0.0
    ensures Times(a, b) > 0.0
  {
  }

  lemma NegatedTimes(a: real, b: real)
    ensures Times(-a, -b) == Times(a, b)
    ensures a == 0.0 ==> Times(a, b) == 0.0
  {
  }

  lemma SquareIsPositive(a: real)
    ensures Times(a, a) >= 0.0 && (a != 0.0 ==> Times(a, a) > 0.0)
  {
    hide Times;
    NegatedTimes(a, a);
    if a > 0.0 { PositiveTimes(a, a); } else if a < 0.0 { PositiveTimes(-a, -a); }
  }

  function SquaredLength(a: Point, b: Point): real { Square(b.x - a.x) + Square(b.y - a.y) }

  /** `perpendicular_distance`, squared: from a point to the line through two others. */
  function SquaredDistance(p: Point, start: Point, end: Point): (d: real)
    ensures d >= 0.0
  {
    if start == end then SquaredLength(p, start)
    else
      LengthIsPositive(start, end);
      Square((end.y - start.y) * p.x - (end.x - start.x) * p.y
             + end.x * start.y - end.y * start.x) / SquaredLength(start, end)
  }

  lemma LengthIsPositive(a: Point, b: Point)
    requires a != b
    ensures SquaredLength(a, b) > 0.0
  {
    hide Times;
    if a.x != b.x { assert Square(b.x - a.x) > 0.0; } else { assert Square(b.y - a.y) > 0.0; }
  }

  /** A point of the line through two others; of the one point they are, when they coincide. */
  function OnLine(a: Point, b: Point, t: real): Point { Point(a.x + t * (b.x - a.x), a.y + t * (b.y - a.y)) }

  /** What `perpendicular_distance` divides, before the sign is dropped. */
  function Area(p: Point, a: Point, b: Point): real {
    (b.y - a.y) * p.x - (b.x - a.x) * p.y + b.x * a.y - b.y * a.x
  }

  /** How far t is from the foot of the perpendicular, scaled. */
  function PastFoot(p: Point, a: Point, b: Point, t: real): real {
    (p.x - a.x) * (b.x - a.x) + (p.y - a.y) * (b.y - a.y) - t * SquaredLength(a, b)
  }

  /** The squared distance to a point of the line splits into that to the foot and that from there. */
  lemma LengthSplits(p: Point, a: Point, b: Point, t: real)
    ensures Times(SquaredLength(a, b), SquaredLength(p, OnLine(a, b, t)))
         == Square(Area(p, a, b)) + Square(PastFoot(p, a, b, t))
  {
    var wx, wy, dx, dy := p.x - a.x, p.y - a.y, b.x - a.x, b.y - a.y;
    Mirrored(p, a, b, t);
    AsProducts(p, a, b, t);
    hide *;
    Lagrange(wx, wy, dx, dy, t, SquaredLength(a, b), SquaredLength(p, OnLine(a, b, t)), Area(p, a, b),
             PastFoot(p, a, b, t));
    AsTimes(SquaredLength(a, b), SquaredLength(p, OnLine(a, b, t)));
    AsSquare(Area(p, a, b));
    AsSquare(PastFoot(p, a, b, t));
  }

  lemma AsTimes(a: real, b: real)
    ensures Times(a, b) == a * b
  {
  }

  lemma AsSquare(a: real)
    ensures Square(a) == a * a
  {
  }

  lemma AsProducts(p: Point, a: Point, b: Point, t: real)
    ensures var wx, wy, dx, dy := p.x - a.x, p.y - a.y, b.x - a.x, b.y - a.y;
            && SquaredLength(a, b) == dx * dx + dy * dy
            && Area(p, a, b) == dy * wx - dx * wy
            && PastFoot(p, a, b, t) == wx * dx + wy * dy - t * SquaredLength(a, b)
  {
    Cross(p.x, p.y, a.x, a.y, b.x, b.y);
  }

  lemma Cross(px: real, py: real, ax: real, ay: real, ex: real, ey: real)
    ensures (ey - ay) * px - (ex - ax) * py + ex * ay - ey * ax == (ey - ay) * (px - ax) - (ex - ax) * (py - ay)
  {
  }

  lemma Lagrange(wx: real, wy: real, dx: real, dy: real, t: real, l: real, x: real, n: real, g: real)
    requires l == dx * dx + dy * dy && n == dy * wx - dx * wy && g == wx * dx + wy * dy - t * l
    requires x == (wx - t * dx) * (wx - t * dx) + (wy - t * dy) * (wy - t * dy)
    ensures l * x == n * n + g * g
  {
  }

  lemma Mirrored(p: Point, a: Point, b: Point, t: real)
    ensures var ux, uy := p.x - a.x - t * (b.x - a.x), p.y - a.y - t * (b.y - a.y);
            SquaredLength(p, OnLine(a, b, t)) == ux * ux + uy * uy
  {
  }

  lemma AtLeastQuotient(n: real, l: real, x: real)
    requires l > 0.0 && Times(l, x) >= n
    ensures x >= n / l && (Times(l, x) == n ==> x == n / l)
  {
  }

  lemma DistanceIsQuotient(p: Point, a: Point, b: Point)
    requires a != b
    ensures SquaredLength(a, b) > 0.0
    ensures SquaredDistance(p, a, b) == Square(Area(p, a, b)) / SquaredLength(a, b)
  {
    LengthIsPositive(a, b);
    hide SquaredLength, Square;
  }

  /** No point of the line is nearer than the distance says. */
  lemma DistanceIsLeast(p: Point, a: Point, b: Point, t: real)
    ensures SquaredLength(p, OnLine(a, b, t)) >= SquaredDistance(p, a, b)
  {
    if a == b {
      SameFromEitherEnd(p, a, t);
    } else {
      hide *;
      DistanceIsQuotient(p, a, b);
      LengthSplits(p, a, b, t);
      AtLeastQuotient(Square(Area(p, a, b)), SquaredLength(a, b), SquaredLength(p, OnLine(a, b, t)));
    }
  }

  /** And one is as near. */
  lemma DistanceIsReached(p: Point, a: Point, b: Point) returns (t: real)
    ensures SquaredLength(p, OnLine(a, b, t)) == SquaredDistance(p, a, b)
  {
    t := 0.0;
    if a == b {
      SameFromEitherEnd(p, a, t);
    } else {
      hide *;
      DistanceIsQuotient(p, a, b);
      t := FootOf(p, a, b);
      LengthSplits(p, a, b, t);
      AtLeastQuotient(Square(Area(p, a, b)), SquaredLength(a, b), SquaredLength(p, OnLine(a, b, t)));
    }
  }

  lemma FootOf(p: Point, a: Point, b: Point) returns (t: real)
    requires SquaredLength(a, b) > 0.0
    ensures Square(PastFoot(p, a, b, t)) == 0.0
  {
    hide SquaredLength, Square;
    t := ((p.x - a.x) * (b.x - a.x) + (p.y - a.y) * (b.y - a.y)) / SquaredLength(a, b);
    assert PastFoot(p, a, b, t) == 0.0;
    ZeroSquared();
  }

  lemma ZeroSquared()
    ensures Square(0.0) == 0.0
  {
  }

  lemma SameFromEitherEnd(p: Point, a: Point, t: real)
    ensures SquaredLength(p, OnLine(a, a, t)) == SquaredLength(p, a)
  {
    assert OnLine(a, a, t) == a;
  }

  /** Point i of a line, against the line through its ends. */
  function Off(points: seq<Point>, i: nat): (d: real)
    requires 0 < |points| && i < |points|
    ensures d >= 0.0
  {
    SquaredDistance(points[i], points[0], points[|points| - 1])
  }

  /** What the loop has found after the points before n: the first farthest one, or 0 for none off the line. */
  function Farthest(points: seq<Point>, n: nat): (r: (nat, real))
    requires 1 <= n <= |points|
    ensures r.1 >= 0.0 && r.0 < n
    ensures r.1 == 0.0 <==> r.0 == 0
    ensures r.0 > 0 ==> r.1 == Off(points, r.0)
    ensures forall j :: 1 <= j < n ==> Off(points, j) <= r.1
    ensures forall j :: 1 <= j < r.0 ==> Off(points, j) < r.1
  {
    if n == 1 then (0, 0.0)
    else
      var before := Farthest(points, n - 1);
      if Off(points, n - 1) > before.1 then (n - 1, Off(points, n - 1)) else before
  }

  /** `simplify`. */
  function Simplified(points: seq<Point>, epsilon: real): seq<Point>
    requires epsilon >= 0.0
    decreases |points|
  {
    if |points| < 3 then points
    else
      var (index, maximum) := Farthest(points, |points| - 1);
      if maximum <= Square(epsilon) then [points[0], points[|points| - 1]]
      else
        var left, right := Simplified(points[..index + 1], epsilon), Simplified(points[index..], epsilon);
        (if left == [] then [] else left[..|left| - 1]) + right
  }

  method Simplify(points: seq<Point>, epsilon: real) returns (kept: seq<Point>)
    requires epsilon >= 0.0
    ensures kept == Simplified(points, epsilon)
    decreases |points|
  {
    hide SquaredDistance, Square, Simplified;
    if |points| < 3 {
      FewPoints(points, epsilon);
      return points;
    }
    var index, maximum := 0, 0.0;
    for i := 1 to |points| - 1
      invariant (index, maximum) == Farthest(points, i)
    {
      var distance := SquaredDistance(points[i], points[0], points[|points| - 1]);
      if distance > maximum { index, maximum := i, distance; }
    }
    if maximum <= Square(epsilon) {
      WholeIsEnds(points, epsilon);
      return [points[0], points[|points| - 1]];
    }
    SimplifiedSplits(points, epsilon);
    var left := Simplify(points[..index + 1], epsilon);
    var right := Simplify(points[index..], epsilon);
    kept := (if left == [] then [] else left[..|left| - 1]) + right;
  }

  lemma FewPoints(points: seq<Point>, epsilon: real)
    requires epsilon >= 0.0 && |points| < 3
    ensures Simplified(points, epsilon) == points
  {
  }

  // ---------------------------------------------------------------- which points are kept

  /** The places of the kept points. */
  function Kept(points: seq<Point>, epsilon: real): seq<nat>
    requires epsilon >= 0.0
    decreases |points|
  {
    if |points| == 0 then [] else if |points| == 1 then [0] else if |points| == 2 then [0, 1]
    else
      var (index, maximum) := Farthest(points, |points| - 1);
      if maximum <= Square(epsilon) then [0, |points| - 1]
      else Join(Kept(points[..index + 1], epsilon), Kept(points[index..], epsilon), index)
  }

  /** Two runs of places that share the point where they meet. */
  function Join(left: seq<nat>, right: seq<nat>, index: nat): (r: seq<nat>)
  {
    (if left == [] then [] else left[..|left| - 1]) + Shift(right, index)
  }

  function Shift(ks: seq<nat>, offset: nat): (r: seq<nat>)
    ensures |r| == |ks| && forall i :: 0 <= i < |ks| ==> r[i] == ks[i] + offset
  {
    if ks == [] then [] else [ks[0] + offset] + Shift(ks[1..], offset)
  }

  /** Places of a line of n points. */
  predicate Within(ks: seq<nat>, n: nat) { forall i :: 0 <= i < |ks| ==> ks[i] < n }

  function Pick(points: seq<Point>, ks: seq<nat>): (r: seq<Point>)
    requires Within(ks, |points|)
    ensures |r| == |ks| && forall i :: 0 <= i < |ks| ==> r[i] == points[ks[i]]
  {
    if ks == [] then [] else [points[ks[0]]] + Pick(points, ks[1..])
  }

  /** Places in rising order, from the first point to the last. */
  predicate Spans(ks: seq<nat>, n: nat) {
    && (n == 0 ==> ks == [])
    && (n > 0 ==> |ks| > 0 && ks[0] == 0 && ks[|ks| - 1] == n - 1)
    && (n > 1 ==> |ks| > 1)
    && (forall i, j :: 0 <= i < j < |ks| ==> ks[i] < ks[j])
  }

  /** Each point between two kept neighbours lies within epsilon of the line through them. */
  predicate NoneFar(points: seq<Point>, ks: seq<nat>, epsilon: real)
    requires Within(ks, |points|)
  {
    forall g, i :: 0 <= g < |ks| - 1 && ks[g] < i < ks[g + 1] ==>
        SquaredDistance(points[i], points[ks[g]], points[ks[g + 1]]) <= Square(epsilon)
  }

  lemma SpansBelow(ks: seq<nat>, n: nat)
    requires Spans(ks, n)
    ensures Within(ks, n)
  {
    forall i | 0 <= i < |ks| ensures ks[i] < n {
      if i < |ks| - 1 { assert ks[i] < ks[|ks| - 1]; }
    }
  }

  lemma JoinSpans(left: seq<nat>, right: seq<nat>, index: nat, n: nat)
    requires 0 < index < n - 1 && Spans(left, index + 1) && Spans(right, n - index)
    ensures Spans(Join(left, right, index), n)
  {
    SpansBelow(left, index + 1);
    var front := left[..|left| - 1];
    forall i | 0 <= i < |front| ensures front[i] < index { assert left[i] < left[|left| - 1]; }
    assert Shift(right, index)[0] == index;
  }

  lemma {:induction false} KeptSpans(points: seq<Point>, epsilon: real)
    requires epsilon >= 0.0
    ensures Spans(Kept(points, epsilon), |points|)
    decreases |points|
  {
    if |points| >= 3 {
      var (index, maximum) := Farthest(points, |points| - 1);
      if maximum > Square(epsilon) {
        KeptSpans(points[..index + 1], epsilon);
        KeptSpans(points[index..], epsilon);
        hide Kept, Spans, Join, Farthest;
        JoinSpans(Kept(points[..index + 1], epsilon), Kept(points[index..], epsilon), index, |points|);
      }
    }
  }

  lemma ShiftedPick(points: seq<Point>, ks: seq<nat>, index: nat)
    requires index <= |points| && Within(ks, |points| - index)
    ensures Within(Shift(ks, index), |points|) && Pick(points[index..], ks) == Pick(points, Shift(ks, index))
  {
  }

  lemma PrefixPick(points: seq<Point>, ks: seq<nat>, n: nat)
    requires n <= |points| && Within(ks, n)
    ensures Within(ks, |points|) && Pick(points[..n], ks) == Pick(points, ks)
  {
  }

  lemma PickJoins(points: seq<Point>, a: seq<nat>, b: seq<nat>)
    requires Within(a, |points|) && Within(b, |points|)
    ensures Within(a + b, |points|) && Pick(points, a + b) == Pick(points, a) + Pick(points, b)
  {
  }

  lemma ShiftWithin(ks: seq<nat>, index: nat, n: nat)
    requires index <= n && Within(ks, n - index)
    ensures Within(Shift(ks, index), n)
  {
  }

  lemma PartWithin(ks: seq<nat>, a: nat, b: nat, n: nat, m: nat)
    requires Within(ks, n) && a <= b <= |ks| && n <= m
    ensures Within(ks[a..b], m) && Within(ks, m)
  {
  }

  lemma BothWithin(a: seq<nat>, b: seq<nat>, n: nat)
    requires Within(a, n) && Within(b, n)
    ensures Within(a + b, n)
  {
  }

  lemma PickLength(points: seq<Point>, ks: seq<nat>)
    requires Within(ks, |points|)
    ensures |Pick(points, ks)| == |ks|
  {
  }

  lemma JoinPicks(points: seq<Point>, left: seq<nat>, right: seq<nat>, index: nat)
    requires 0 < index < |points| - 1 && |left| > 0
    requires Within(left, index + 1) && Within(right, |points| - index)
    ensures Within(Join(left, right, index), |points|)
    ensures |Pick(points[..index + 1], left)| == |left|
    ensures Pick(points, Join(left, right, index))
         == Pick(points[..index + 1], left)[..|left| - 1] + Pick(points[index..], right)
  {
    hide Pick, Shift, Within;
    var m := |left| - 1;
    var front, back := left[0..m], Shift(right, index);
    PartWithin(left, 0, m, index + 1, |points|);
    ShiftWithin(right, index, |points|);
    BothWithin(front, back, |points|);
    assert left[..m] == front;
    PrefixPick(points, left, index + 1);
    ShiftedPick(points, right, index);
    PickJoins(points, front, back);
    PickLength(points, left);
    PickSlice(points, left, 0, m);
    assert Pick(points, left)[0..m] == Pick(points, left)[..m];
  }

  predicate Splits(points: seq<Point>, epsilon: real) {
    |points| >= 3 && Farthest(points, |points| - 1).1 > Square(epsilon)
  }

  /** A line that splits, and where. */
  lemma SplitParts(points: seq<Point>, epsilon: real) returns (index: nat)
    requires epsilon >= 0.0 && Splits(points, epsilon)
    ensures 0 < index < |points| - 1 && index == Farthest(points, |points| - 1).0
    ensures Kept(points, epsilon) == Join(Kept(points[..index + 1], epsilon), Kept(points[index..], epsilon), index)
    ensures var l := Simplified(points[..index + 1], epsilon);
            Simplified(points, epsilon) == (if l == [] then [] else l[..|l| - 1]) + Simplified(points[index..], epsilon)
  {
    hide *;
    SplitInside(points, epsilon);
    index := Farthest(points, |points| - 1).0;
    KeptSplits(points, epsilon);
    SimplifiedSplits(points, epsilon);
  }

  lemma SplitInside(points: seq<Point>, epsilon: real)
    requires epsilon >= 0.0 && Splits(points, epsilon)
    ensures |points| >= 3 && 0 < Farthest(points, |points| - 1).0 < |points| - 1
  {
    hide Off;
  }

  lemma KeptSplits(points: seq<Point>, epsilon: real)
    requires epsilon >= 0.0 && Splits(points, epsilon)
    ensures var index := Farthest(points, |points| - 1).0;
            Kept(points, epsilon) == Join(Kept(points[..index + 1], epsilon), Kept(points[index..], epsilon), index)
  {
    hide Off, Join;
  }

  lemma SimplifiedSplits(points: seq<Point>, epsilon: real)
    requires epsilon >= 0.0 && Splits(points, epsilon)
    ensures var index := Farthest(points, |points| - 1).0;
            var l := Simplified(points[..index + 1], epsilon);
            Simplified(points, epsilon) == (if l == [] then [] else l[..|l| - 1]) + Simplified(points[index..], epsilon)
  {
    hide Off;
  }

  /** A line that does not: all of it, or its ends. */
  lemma WholeParts(points: seq<Point>, epsilon: real)
    requires epsilon >= 0.0 && !Splits(points, epsilon) && Within(Kept(points, epsilon), |points|)
    ensures Simplified(points, epsilon) == Pick(points, Kept(points, epsilon))
    ensures NoneFar(points, Kept(points, epsilon), epsilon)
  {
    if |points| >= 3 {
      hide SquaredDistance, Square, Farthest, Kept, Simplified, NoneFar;
      WholeIsEnds(points, epsilon);
      EndsOnly(points, epsilon);
      EndsArePicked(points);
    } else {
      FewAreKept(points, epsilon);
    }
  }

  lemma EndsArePicked(points: seq<Point>)
    requires |points| >= 3
    ensures Within([0, |points| - 1], |points|)
    ensures Pick(points, [0, |points| - 1]) == [points[0], points[|points| - 1]]
  {
  }

  lemma WholeIsEnds(points: seq<Point>, epsilon: real)
    requires epsilon >= 0.0 && !Splits(points, epsilon) && |points| >= 3
    ensures Simplified(points, epsilon) == [points[0], points[|points| - 1]]
    ensures Kept(points, epsilon) == [0, |points| - 1]
  {
    hide Off, Square;
  }

  lemma FewAreKept(points: seq<Point>, epsilon: real)
    requires epsilon >= 0.0 && |points| < 3 && Within(Kept(points, epsilon), |points|)
    ensures Simplified(points, epsilon) == Pick(points, Kept(points, epsilon))
    ensures NoneFar(points, Kept(points, epsilon), epsilon)
  {
    hide SquaredDistance, Square, Farthest;
  }

  /** The result is the points at the kept places. */
  lemma {:induction false} SimplifiedPicks(points: seq<Point>, epsilon: real)
    requires epsilon >= 0.0
    ensures Within(Kept(points, epsilon), |points|)
    ensures Simplified(points, epsilon) == Pick(points, Kept(points, epsilon))
    decreases |points|
  {
    hide Simplified, Kept, Spans, Within, Pick, Join, Farthest, Splits;
    KeptWithin(points, epsilon);
    if Splits(points, epsilon) {
      var index := SplitParts(points, epsilon);
      SimplifiedPicks(points[..index + 1], epsilon);
      SimplifiedPicks(points[index..], epsilon);
      KeptWithin(points[..index + 1], epsilon);
      JoinPicks(points, Kept(points[..index + 1], epsilon), Kept(points[index..], epsilon), index);
    } else {
      WholeParts(points, epsilon);
    }
  }

  lemma KeptWithin(points: seq<Point>, epsilon: real)
    requires epsilon >= 0.0
    ensures Within(Kept(points, epsilon), |points|) && Spans(Kept(points, epsilon), |points|)
    ensures |points| > 0 ==> |Kept(points, epsilon)| > 0
  {
    KeptSpans(points, epsilon);
    hide Kept;
    SpansBelow(Kept(points, epsilon), |points|);
  }

  /** Each dropped point lies between two neighbours of one half, or of the other. */
  lemma JoinNoneFar(points: seq<Point>, left: seq<nat>, right: seq<nat>, index: nat, epsilon: real)
    requires 0 < index < |points| - 1 && Spans(left, index + 1) && Spans(right, |points| - index)
    requires Within(left, index + 1) && Within(right, |points| - index)
    requires NoneFar(points[..index + 1], left, epsilon) && NoneFar(points[index..], right, epsilon)
    requires Within(Join(left, right, index), |points|)
    ensures NoneFar(points, Join(left, right, index), epsilon)
  {
    var ks := Join(left, right, index);
    var m := |left| - 1;
    forall g, i | 0 <= g < |ks| - 1 && ks[g] < i < ks[g + 1]
      ensures SquaredDistance(points[i], points[ks[g]], points[ks[g + 1]]) <= Square(epsilon)
    {
      if g + 1 < m {
        assert ks[g] == left[g] && ks[g + 1] == left[g + 1];
        assert SquaredDistance(points[..index + 1][i], points[..index + 1][left[g]],
                               points[..index + 1][left[g + 1]]) <= Square(epsilon);
      } else if g < m {
        assert ks[g] == left[g] && ks[g + 1] == index == left[g + 1];
        assert SquaredDistance(points[..index + 1][i], points[..index + 1][left[g]],
                               points[..index + 1][left[g + 1]]) <= Square(epsilon);
      } else {
        assert ks[g] == right[g - m] + index && ks[g + 1] == right[g - m + 1] + index;
        assert SquaredDistance(points[index..][i - index], points[index..][right[g - m]],
                               points[index..][right[g - m + 1]]) <= Square(epsilon);
      }
    }
  }

  lemma {:induction false} DroppedAreNear(points: seq<Point>, epsilon: real)
    requires epsilon >= 0.0
    ensures Within(Kept(points, epsilon), |points|)
    ensures NoneFar(points, Kept(points, epsilon), epsilon)
    decreases |points|
  {
    hide Simplified, Kept, Spans, Within, Pick, Join, Farthest, Splits, NoneFar;
    KeptWithin(points, epsilon);
    if Splits(points, epsilon) {
      var index := SplitParts(points, epsilon);
      DroppedAreNear(points[..index + 1], epsilon);
      DroppedAreNear(points[index..], epsilon);
      KeptWithin(points[..index + 1], epsilon);
      KeptWithin(points[index..], epsilon);
      JoinNoneFar(points, Kept(points[..index + 1], epsilon), Kept(points[index..], epsilon), index, epsilon);
    } else {
      WholeParts(points, epsilon);
    }
  }

  lemma EndsOnly(points: seq<Point>, epsilon: real)
    requires |points| >= 3 && epsilon >= 0.0 && Farthest(points, |points| - 1).1 <= Square(epsilon)
    ensures NoneFar(points, [0, |points| - 1], epsilon)
  {
    var ks: seq<nat> := [0, |points| - 1];
    forall g, i | 0 <= g < |ks| - 1 && ks[g] < i < ks[g + 1]
      ensures SquaredDistance(points[i], points[ks[g]], points[ks[g + 1]]) <= Square(epsilon)
    {
      assert Off(points, i) <= Square(epsilon);
    }
  }

  /**
   * The simplified line is the given points at rising places from the first to the last, and every
   * point left out lies within epsilon of the line through its two kept neighbours.
   */
  lemma SimplifiedIsClose(points: seq<Point>, epsilon: real)
    requires epsilon >= 0.0
    ensures var ks := Kept(points, epsilon);
            && Spans(ks, |points|) && Within(ks, |points|)
            && Simplified(points, epsilon) == Pick(points, ks)
            && NoneFar(points, ks, epsilon)
  {
    KeptSpans(points, epsilon);
    SimplifiedPicks(points, epsilon);
    DroppedAreNear(points, epsilon);
  }

  // ---------------------------------------------------------------- no more points than needed

  /** Place k is farther than epsilon from the line through two around it, and the first of the farthest there. */
  predicate Farther(points: seq<Point>, lo: nat, k: nat, hi: nat, epsilon: real) {
    && lo < k < hi < |points|
    && SquaredDistance(points[k], points[lo], points[hi]) > Square(epsilon)
    && (forall i :: lo < i < hi ==>
          && SquaredDistance(points[i], points[lo], points[hi]) <= SquaredDistance(points[k], points[lo], points[hi])
          && (i < k ==>
              SquaredDistance(points[i], points[lo], points[hi]) < SquaredDistance(points[k], points[lo], points[hi])))
  }

  predicate Justified(points: seq<Point>, ks: seq<nat>, k: nat, epsilon: real) {
    exists lo, hi :: lo in ks && hi in ks && Farther(points, lo, k, hi, epsilon)
  }

  lemma FartherInPrefix(points: seq<Point>, n: nat, lo: nat, k: nat, hi: nat, epsilon: real)
    requires n <= |points| && Farther(points[..n], lo, k, hi, epsilon)
    ensures Farther(points, lo, k, hi, epsilon)
  {
    hide SquaredDistance, Square;
    assert points[..n][lo] == points[lo] && points[..n][hi] == points[hi];
    forall i | lo < i < hi
      ensures var d := SquaredDistance(points[k], points[lo], points[hi]);
              && SquaredDistance(points[i], points[lo], points[hi]) <= d
              && (i < k ==> SquaredDistance(points[i], points[lo], points[hi]) < d)
    {
      assert points[..n][i] == points[i];
    }
  }

  lemma FartherInSuffix(points: seq<Point>, n: nat, lo: nat, k: nat, hi: nat, epsilon: real)
    requires n <= |points| && Farther(points[n..], lo, k, hi, epsilon)
    ensures Farther(points, lo + n, k + n, hi + n, epsilon)
  {
    hide SquaredDistance, Square;
    assert points[n..][lo] == points[lo + n] && points[n..][hi] == points[hi + n] && points[n..][k] == points[k + n];
    forall i | lo + n < i < hi + n
      ensures var d := SquaredDistance(points[k + n], points[lo + n], points[hi + n]);
              && SquaredDistance(points[i], points[lo + n], points[hi + n]) <= d
              && (i < k + n ==> SquaredDistance(points[i], points[lo + n], points[hi + n]) < d)
    {
      assert points[n..][i - n] == points[i];
    }
  }

  lemma JoinMembers(left: seq<nat>, right: seq<nat>, index: nat, k: nat)
    requires |left| > 0 && |right| > 0 && left[|left| - 1] == index && right[0] == 0
    ensures k in Join(left, right, index) <==> k in left || (k >= index && k - index in right)
  {
    hide Shift;
    var front, back := left[..|left| - 1], Shift(right, index);
    ShiftMembers(right, index, k);
    assert left == front + [index];
    assert index - index in right;
  }

  lemma ShiftMembers(ks: seq<nat>, offset: nat, k: nat)
    ensures k in Shift(ks, offset) <==> k >= offset && k - offset in ks
  {
    if k >= offset && k - offset in ks {
      var i :| 0 <= i < |ks| && ks[i] == k - offset;
      assert Shift(ks, offset)[i] == k;
    }
  }

  lemma JustifiedLeft(points: seq<Point>, left: seq<nat>, right: seq<nat>, index: nat, k: nat, epsilon: real)
    requires index < |points| && Justified(points[..index + 1], left, k, epsilon)
    requires |left| > 0 && |right| > 0 && left[|left| - 1] == index && right[0] == 0
    ensures Justified(points, Join(left, right, index), k, epsilon)
  {
    hide Farther, Join;
    var lo: nat, hi: nat :| lo in left && hi in left && Farther(points[..index + 1], lo, k, hi, epsilon);
    FartherInPrefix(points, index + 1, lo, k, hi, epsilon);
    JoinMembers(left, right, index, lo);
    JoinMembers(left, right, index, hi);
  }

  lemma JustifiedRight(points: seq<Point>, left: seq<nat>, right: seq<nat>, index: nat, k: nat, epsilon: real)
    requires index < |points| && Justified(points[index..], right, k, epsilon)
    requires |left| > 0 && |right| > 0 && left[|left| - 1] == index && right[0] == 0
    ensures Justified(points, Join(left, right, index), k + index, epsilon)
  {
    hide Farther, Join;
    var lo: nat, hi: nat :| lo in right && hi in right && Farther(points[index..], lo, k, hi, epsilon);
    FartherInSuffix(points, index, lo, k, hi, epsilon);
    JoinMembers(left, right, index, lo + index);
    JoinMembers(left, right, index, hi + index);
  }

  lemma SplitIsJustified(points: seq<Point>, ks: seq<nat>, index: nat, epsilon: real)
    requires epsilon >= 0.0 && Splits(points, epsilon) && index == Farthest(points, |points| - 1).0
    requires Spans(ks, |points|)
    ensures Justified(points, ks, index, epsilon)
  {
    hide SquaredDistance, Square;
    var n := |points| - 1;
    var maximum := Farthest(points, n).1;
    assert index > 0;
    forall i | 0 < i < n
      ensures SquaredDistance(points[i], points[0], points[n]) <= maximum
      ensures i < index ==> SquaredDistance(points[i], points[0], points[n]) < maximum
    {
      assert Off(points, i) <= maximum;
    }
    assert Farther(points, 0, index, n, epsilon);
    assert ks[0] in ks && ks[|ks| - 1] in ks;
  }

  /**
   * No point is kept for nothing: every one but the ends lies farther than epsilon from the line through
   * two other kept points, and is the first of the farthest between those.
   */
  lemma {:induction false} KeptForAReason(points: seq<Point>, epsilon: real, k: nat)
    requires epsilon >= 0.0 && k in Kept(points, epsilon) && 0 < k < |points| - 1
    ensures Justified(points, Kept(points, epsilon), k, epsilon)
    decreases |points|
  {
    hide *;
    if Splits(points, epsilon) {
      KeptWithin(points, epsilon);
      var index := SplitParts(points, epsilon);
      HalvesKept(points, epsilon, index, k);
      var left, right := Kept(points[..index + 1], epsilon), Kept(points[index..], epsilon);
      if k == index {
        SplitIsJustified(points, Kept(points, epsilon), index, epsilon);
      } else if k < index {
        KeptForAReason(points[..index + 1], epsilon, k);
        JustifiedLeft(points, left, right, index, k, epsilon);
      } else {
        KeptForAReason(points[index..], epsilon, k - index);
        JustifiedRight(points, left, right, index, k - index, epsilon);
      }
    } else {
      OnlyEndsKept(points, epsilon, k);
    }
  }

  lemma OnlyEndsKept(points: seq<Point>, epsilon: real, k: nat)
    requires epsilon >= 0.0 && !Splits(points, epsilon) && k in Kept(points, epsilon)
    ensures k == 0 || k == |points| - 1
  {
    hide Off, Square;
  }

  lemma HalvesKept(points: seq<Point>, epsilon: real, index: nat, k: nat)
    requires epsilon >= 0.0 && 0 < index < |points| - 1
    requires k in Join(Kept(points[..index + 1], epsilon), Kept(points[index..], epsilon), index)
    ensures var left, right := Kept(points[..index + 1], epsilon), Kept(points[index..], epsilon);
            && |left| > 0 && |right| > 0 && left[|left| - 1] == index && right[0] == 0
            && (k < index ==> k in left) && (k > index ==> k - index in right)
  {
    hide Kept, Join;
    var left, right := Kept(points[..index + 1], epsilon), Kept(points[index..], epsilon);
    KeptWithin(points[..index + 1], epsilon);
    KeptWithin(points[index..], epsilon);
    JoinMembers(left, right, index, k);
  }

  /** A line of three or more points becomes its ends exactly when every other point is within epsilon of them. */
  lemma OnlyEndsExactlyWhenNear(points: seq<Point>, epsilon: real)
    requires epsilon >= 0.0 && |points| >= 3
    ensures Kept(points, epsilon) == [0, |points| - 1] <==>
            forall i :: 0 < i < |points| - 1 ==>
              SquaredDistance(points[i], points[0], points[|points| - 1]) <= Square(epsilon)
  {
    hide SquaredDistance, Square;
    var n := |points| - 1;
    if Kept(points, epsilon) == [0, n] {
      DroppedAreNear(points, epsilon);
      forall i | 0 < i < n ensures SquaredDistance(points[i], points[0], points[n]) <= Square(epsilon) {
        assert Kept(points, epsilon)[0] < i < Kept(points, epsilon)[1];
      }
    }
  }

  // ---------------------------------------------------------------- simplifying twice

  /** Point m is the first of those farthest from the line through the ends. */
  predicate FirstFarthest(points: seq<Point>, m: nat, maximum: real) {
    && 0 < m < |points| - 1 && maximum > 0.0 && Off(points, m) == maximum
    && (forall j :: 1 <= j < |points| - 1 ==> Off(points, j) <= maximum)
    && (forall j :: 1 <= j < m ==> Off(points, j) < maximum)
  }

  lemma FirstFarthestIsFound(points: seq<Point>, m: nat, maximum: real)
    requires FirstFarthest(points, m, maximum)
    ensures Farthest(points, |points| - 1) == (m, maximum)
  {
    hide Off;
    var found := Farthest(points, |points| - 1);
    assert Off(points, m) <= found.1;
    assert found.1 >= maximum > 0.0;
    assert found.0 > 0 && found.1 == Off(points, found.0) <= maximum;
  }

  lemma SameOff(points: seq<Point>, ks: seq<nat>, j: nat)
    requires Spans(ks, |points|) && Within(ks, |points|) && j < |ks|
    ensures Off(Pick(points, ks), j) == Off(points, ks[j])
  {
    hide SquaredDistance;
  }

  lemma Inside(ks: seq<nat>, n: nat, j: nat)
    requires Spans(ks, n) && 0 < j < |ks| - 1
    ensures 1 <= ks[j] < n - 1
  {
    assert ks[0] < ks[j] < ks[|ks| - 1];
  }

  /** A line thinned at rising places that keep its first farthest point has it still, and in the same part. */
  lemma ThinnedFarthest(points: seq<Point>, ks: seq<nat>, m: nat, index: nat, maximum: real)
    requires FirstFarthest(points, index, maximum) && Spans(ks, |points|)
    requires Within(ks, |points|) && 0 < m < |ks| - 1 && ks[m] == index
    ensures FirstFarthest(Pick(points, ks), m, maximum)
  {
    hide Off;
    var thin := Pick(points, ks);
    SameOff(points, ks, m);
    forall j | 1 <= j < |thin| - 1
      ensures Off(thin, j) <= maximum && (j < m ==> Off(thin, j) < maximum)
    {
      SameOff(points, ks, j);
      Inside(ks, |points|, j);
      if j < m { assert ks[j] < ks[m]; }
    }
  }

  lemma SplitIsFirstFarthest(points: seq<Point>, epsilon: real)
    requires |points| >= 3 && epsilon >= 0.0 && Farthest(points, |points| - 1).1 > Square(epsilon)
    ensures var (index, maximum) := Farthest(points, |points| - 1);
            && FirstFarthest(points, index, maximum) && 0 < index < |points| - 1
            && Kept(points, epsilon) == Join(Kept(points[..index + 1], epsilon), Kept(points[index..], epsilon), index)
  {
    hide Off, Join;
    FoundIsFirstFarthest(points);
  }

  lemma FoundIsFirstFarthest(points: seq<Point>)
    requires |points| >= 3 && Farthest(points, |points| - 1).1 > 0.0
    ensures FirstFarthest(points, Farthest(points, |points| - 1).0, Farthest(points, |points| - 1).1)
    ensures 0 < Farthest(points, |points| - 1).0 < |points| - 1
  {
    hide Off;
  }

  /** Where the two halves meet in the result. */
  lemma HalvesMeet(points: seq<Point>, epsilon: real, index: nat)
    requires |points| >= 3 && epsilon >= 0.0 && 0 < index < |points| - 1
    ensures var l, r := Kept(points[..index + 1], epsilon), Kept(points[index..], epsilon);
            var ks := Join(l, r, index);
            && |l| >= 2 && |r| >= 2 && |ks| == |l| + |r| - 1 && ks[|l| - 1] == index
            && Spans(ks, |points|) && Within(ks, |points|)
            && Pick(points, ks)[..|l|] == Simplified(points[..index + 1], epsilon)
            && Pick(points, ks)[|l| - 1..] == Simplified(points[index..], epsilon)
  {
    var l, r := Kept(points[..index + 1], epsilon), Kept(points[index..], epsilon);
    KeptSpans(points[..index + 1], epsilon);
    KeptSpans(points[index..], epsilon);
    SimplifiedPicks(points[..index + 1], epsilon);
    SimplifiedPicks(points[index..], epsilon);
    hide Kept, Simplified;
    JoinSpans(l, r, index, |points|);
    SpansBelow(Join(l, r, index), |points|);
    SpansBelow(l, index + 1);
    SpansBelow(r, |points| - index);
    MeetingPoint(points, l, r, index);
  }

  lemma MeetingPoint(points: seq<Point>, l: seq<nat>, r: seq<nat>, index: nat)
    requires 0 < index < |points| - 1 && |l| >= 1 && |r| >= 1 && l[|l| - 1] == index && r[0] == 0
    requires Within(l, index + 1) && Within(r, |points| - index)
    requires Within(Join(l, r, index), |points|)
    ensures |Join(l, r, index)| == |l| + |r| - 1 && Join(l, r, index)[|l| - 1] == index
    ensures |Pick(points, Join(l, r, index))| == |l| + |r| - 1
    ensures Pick(points, Join(l, r, index))[..|l|] == Pick(points[..index + 1], l)
    ensures Pick(points, Join(l, r, index))[|l| - 1..] == Pick(points[index..], r)
  {
    hide Join, Pick, Shift, Within;
    var ks := Join(l, r, index);
    JoinParts(l, r, index);
    PickLength(points, ks);
    PickSlice(points, ks, 0, |l|);
    PickSlice(points, ks, |l| - 1, |ks|);
    assert ks[0..|l|] == l && ks[|l| - 1..|ks|] == Shift(r, index);
    assert ks[|l| - 1] == ks[..|l|][|l| - 1];
    PartWithin(l, 0, 0, index + 1, |points|);
    PrefixPick(points, l, index + 1);
    ShiftedPick(points, r, index);
    assert Pick(points, ks)[0..|l|] == Pick(points, ks)[..|l|];
    assert Pick(points, ks)[|l| - 1..|ks|] == Pick(points, ks)[|l| - 1..];
  }

  lemma JoinParts(l: seq<nat>, r: seq<nat>, index: nat)
    requires |l| >= 1 && |r| >= 1 && l[|l| - 1] == index && r[0] == 0
    ensures |Join(l, r, index)| == |l| + |r| - 1
    ensures Join(l, r, index)[..|l|] == l && Join(l, r, index)[|l| - 1..] == Shift(r, index)
  {
  }

  lemma PickSlice(points: seq<Point>, ks: seq<nat>, a: nat, b: nat)
    requires Within(ks, |points|) && a <= b <= |ks|
    ensures Within(ks[a..b], |points|) && |Pick(points, ks)| == |ks| && Pick(points, ks)[a..b] == Pick(points, ks[a..b])
  {
  }

  /** One split of a longer line. */
  lemma SplitOnce(points: seq<Point>, epsilon: real, m: nat, maximum: real)
    requires epsilon >= 0.0 && FirstFarthest(points, m, maximum) && maximum > Square(epsilon)
    ensures var l := Simplified(points[..m + 1], epsilon);
            Simplified(points, epsilon) == (if l == [] then [] else l[..|l| - 1]) + Simplified(points[m..], epsilon)
  {
    FirstFarthestIsFound(points, m, maximum);
  }

  /** A line split at its first farthest point into two halves that do not change does not change. */
  lemma SplitAgain(thin: seq<Point>, epsilon: real, m: nat, maximum: real)
    requires epsilon >= 0.0 && maximum > Square(epsilon) && FirstFarthest(thin, m, maximum) && m < |thin|
    requires Simplified(thin[..m + 1], epsilon) == thin[..m + 1] && Simplified(thin[m..], epsilon) == thin[m..]
    ensures Simplified(thin, epsilon) == thin
  {
    hide Simplified, FirstFarthest, Square;
    SplitOnce(thin, epsilon, m, maximum);
    assert thin[..m + 1][..m] == thin[..m];
    assert thin == thin[..m] + thin[m..];
  }

  /** The result of a split, its halves and its first farthest point. */
  lemma SplitResult(points: seq<Point>, epsilon: real) returns (index: nat, m: nat, maximum: real)
    requires |points| >= 3 && epsilon >= 0.0 && Farthest(points, |points| - 1).1 > Square(epsilon)
    ensures 0 < index < |points| - 1 && maximum > Square(epsilon)
    ensures var thin := Simplified(points, epsilon);
            && FirstFarthest(thin, m, maximum) && m < |thin|
            && thin[..m + 1] == Simplified(points[..index + 1], epsilon)
            && thin[m..] == Simplified(points[index..], epsilon)
  {
    hide FirstFarthest, Farthest, Spans, Kept, Simplified, Square, Pick, Join;
    SplitIsFirstFarthest(points, epsilon);
    index, maximum := Farthest(points, |points| - 1).0, Farthest(points, |points| - 1).1;
    HalvesMeet(points, epsilon, index);
    SimplifiedPicks(points, epsilon);
    var ks := Kept(points, epsilon);
    m := |Kept(points[..index + 1], epsilon)| - 1;
    ThinnedFarthest(points, ks, m, index, maximum);
  }

  /** Simplifying what is simplified changes nothing. */
  lemma {:induction false} SimplifyingTwice(points: seq<Point>, epsilon: real)
    requires epsilon >= 0.0
    ensures Simplified(Simplified(points, epsilon), epsilon) == Simplified(points, epsilon)
    decreases |points|
  {
    if |points| >= 3 && Farthest(points, |points| - 1).1 > Square(epsilon) {
      hide Simplified, FirstFarthest, Farthest, Square;
      var index, m, maximum := SplitResult(points, epsilon);
      SimplifyingTwice(points[..index + 1], epsilon);
      SimplifyingTwice(points[index..], epsilon);
      SplitAgain(Simplified(points, epsilon), epsilon, m, maximum);
    }
  }
}
