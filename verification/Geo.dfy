/** Snapping a GPS fix to a route: the nearest point of a polyline, measured in a flat plane around the fix. */
module Geo {
  import opened Options
  import opened JsNumber

  datatype LatLng = LatLng(lat: real, lng: real)
  datatype XY = XY(x: real, y: real)

  /** Metres per degree east and north at the fix: the trigonometric factors, which are not 0 off the poles. */
  datatype Plane = Plane(east: real, north: real) {
    predicate Valid() { east != 0.0 && north != 0.0 }

    function ToXY(p: LatLng): XY { XY(p.lng * east, p.lat * north) }

    function FromXY(q: XY): LatLng
      requires Valid()
    {
      LatLng(q.y / north, q.x / east)
    }

    lemma BackAndForth(q: XY)
      requires Valid()
      ensures ToXY(FromXY(q)) == q
    {
    }
  }

  /** A great-circle distance is left unevaluated; one in the plane is kept as its square. */
  datatype Distance = GreatCircle(from: LatLng, to: LatLng) | FlatSquared(square: real)

  datatype Nearest = Nearest(point: LatLng, dist: Distance, segmentIndex: nat)

  function Square(x: real): real { x * x }

  function Dot(x: real, y: real, x': real, y': real): real { x * x' + y * y' }

  function DistSq(p: XY, q: XY): real { Square(p.x - q.x) + Square(p.y - q.y) }

  /** The point a fraction `u` of the way from `a` to `b`. */
  function Along(a: XY, b: XY, u: real): XY { XY(a.x + Times(b.x - a.x, u), a.y + Times(b.y - a.y, u)) }

  /** The fraction of the way from `a` to `b` at which the foot of the perpendicular from `p` lies, kept on the
      segment. */
  function Foot(p: XY, a: XY, b: XY): real {
    var abx, aby := b.x - a.x, b.y - a.y;
    var lenSq := Dot(abx, aby, abx, aby);
    var t := if lenSq == 0.0 then 0.0 else Dot(p.x - a.x, p.y - a.y, abx, aby) / lenSq;
    Max(0.0, Min(1.0, t))
  }

  // ----- One segment -----

  /** `w - 2ud + u^2 l`, the squared distance from a point to the place a fraction `u` along a segment. */
  function Quad(w: real, d: real, l: real, u: real): real { w - 2.0 * (u * d) + (u * u) * l }

  lemma Quadratic(wx: real, wy: real, dx: real, dy: real, u: real)
    ensures Square(wx - Times(dx, u)) + Square(wy - Times(dy, u))
         == Quad(Dot(wx, wy, wx, wy), Dot(wx, wy, dx, dy), Dot(dx, dy, dx, dy), u)
  {
    var x, y := Times(dx, u), Times(dy, u);
    assert Square(wx - x) == wx * wx - 2.0 * (wx * x) + x * x;
    assert Square(wy - y) == wy * wy - 2.0 * (wy * y) + y * y;
    assert x * x == (u * u) * (dx * dx) && y * y == (u * u) * (dy * dy);
    assert wx * x == u * (wx * dx) && wy * y == u * (wy * dy);
  }

  /** An upward quadratic restricted to [0, 1] is least at its clamped vertex. */
  lemma ClampedVertex(w: real, d: real, l: real, t: real, u: real)
    requires 0.0 <= u <= 1.0
    requires if l == 0.0 then d == 0.0 && t == 0.0 else l > 0.0 && t == Max(0.0, Min(1.0, d / l))
    ensures Quad(w, d, l, t) <= Quad(w, d, l, u)
  {
    if l > 0.0 {
      var v := d / l;
      assert d == v * l;
      var gap := u - t;
      assert Quad(w, d, l, u) - Quad(w, d, l, t) == l * (gap * (gap + 2.0 * (t - v)));
      if v < 0.0 {
        assert gap * (gap + 2.0 * (t - v)) >= 0.0;
      } else if v > 1.0 {
        assert gap <= 0.0 && gap + 2.0 * (t - v) <= 0.0;
        assert gap * (gap + 2.0 * (t - v)) >= 0.0;
      } else {
        assert gap * (gap + 2.0 * (t - v)) == gap * gap >= 0.0;
      }
    }
  }

  lemma NoLength(dx: real, dy: real, wx: real, wy: real)
    ensures Dot(dx, dy, dx, dy) >= 0.0
    ensures Dot(dx, dy, dx, dy) == 0.0 ==> Dot(wx, wy, dx, dy) == 0.0
  {
    assert dx != 0.0 ==> dx * dx > 0.0;
    assert dy != 0.0 ==> dy * dy > 0.0;
    if dx == 0.0 && dy == 0.0 { assert wx * dx == 0.0 && wy * dy == 0.0; }
  }

  lemma AlongIsQuadratic(p: XY, a: XY, b: XY, u: real)
    ensures var wx, wy, dx, dy := p.x - a.x, p.y - a.y, b.x - a.x, b.y - a.y;
      DistSq(p, Along(a, b, u)) == Quad(Dot(wx, wy, wx, wy), Dot(wx, wy, dx, dy), Dot(dx, dy, dx, dy), u)
  {
    Quadratic(p.x - a.x, p.y - a.y, b.x - a.x, b.y - a.y, u);
    assert p.x - (a.x + Times(b.x - a.x, u)) == p.x - a.x - Times(b.x - a.x, u);
    assert p.y - (a.y + Times(b.y - a.y, u)) == p.y - a.y - Times(b.y - a.y, u);
  }

  /** The clamped foot is as near as any point of the segment, degenerate segments included. */
  lemma FootIsNearest(p: XY, a: XY, b: XY, u: real)
    requires 0.0 <= u <= 1.0
    ensures 0.0 <= Foot(p, a, b) <= 1.0
    ensures DistSq(p, Along(a, b, Foot(p, a, b))) <= DistSq(p, Along(a, b, u))
  {
    var wx, wy, dx, dy := p.x - a.x, p.y - a.y, b.x - a.x, b.y - a.y;
    NoLength(dx, dy, wx, wy);
    ClampedVertex(Dot(wx, wy, wx, wy), Dot(wx, wy, dx, dy), Dot(dx, dy, dx, dy), Foot(p, a, b), u);
    AlongIsQuadratic(p, a, b, u);
    AlongIsQuadratic(p, a, b, Foot(p, a, b));
  }

  // ----- The whole line -----

  /** Segment `j` of the polyline, in the plane. */
  function OnSegment(plane: Plane, line: seq<LatLng>, j: nat, u: real): XY
    requires j + 1 < |line|
  {
    Along(plane.ToXY(line[j]), plane.ToXY(line[j + 1]), u)
  }

  /** Nothing on segment `j` is nearer than the square root of `square`; with `strict`, nothing is as near. */
  ghost predicate NoneNearer(plane: Plane, p: LatLng, line: seq<LatLng>, j: nat, square: real, strict: bool)
    requires j + 1 < |line|
  {
    forall u :: 0.0 <= u <= 1.0 ==>
      var d := DistSq(plane.ToXY(p), OnSegment(plane, line, j, u));
      square <= d && (strict ==> square < d)
  }

  /** `r` is the nearest point of the first `n` segments, on the first segment that has one. */
  ghost predicate IsNearest(plane: Plane, p: LatLng, line: seq<LatLng>, n: nat, r: Nearest)
    requires n < |line|
  {
    && r.segmentIndex < n
    && r.dist == FlatSquared(DistSq(plane.ToXY(p), plane.ToXY(r.point)))
    && (exists t :: 0.0 <= t <= 1.0 && plane.ToXY(r.point) == OnSegment(plane, line, r.segmentIndex, t))
    && (forall j :: 0 <= j < n ==> NoneNearer(plane, p, line, j, r.dist.square, false))
    && (forall j :: 0 <= j < r.segmentIndex ==> NoneNearer(plane, p, line, j, r.dist.square, true))
  }

  // ----- In degrees -----

  /** The point a fraction `u` of the way from `a` to `b`, in degrees. */
  function Between(a: LatLng, b: LatLng, u: real): LatLng {
    LatLng(a.lat + u * (b.lat - a.lat), a.lng + u * (b.lng - a.lng))
  }

  function Place(line: seq<LatLng>, j: nat, u: real): LatLng
    requires j + 1 < |line|
  {
    Between(line[j], line[j + 1], u)
  }

  /** The squared distance in metres, with `east` metres to a degree of longitude and `north` to one of latitude. */
  function Metres2(plane: Plane, p: LatLng, q: LatLng): real {
    var dx, dy := (p.lng - q.lng) * plane.east, (p.lat - q.lat) * plane.north;
    dx * dx + dy * dy
  }

  /** `r` is a point of its segment; no point of any segment is nearer to `p`, and none of an earlier one as near. */
  ghost predicate IsNearestPoint(plane: Plane, p: LatLng, line: seq<LatLng>, r: Nearest) {
    && r.segmentIndex + 1 < |line|
    && r.dist == FlatSquared(Metres2(plane, p, r.point))
    && (exists t :: 0.0 <= t <= 1.0 && r.point == Place(line, r.segmentIndex, t))
    && (forall j, u :: 0 <= j < |line| - 1 && 0.0 <= u <= 1.0 ==>
          r.dist.square <= Metres2(plane, p, Place(line, j, u)))
    && (forall j, u :: 0 <= j < r.segmentIndex && 0.0 <= u <= 1.0 ==>
          r.dist.square < Metres2(plane, p, Place(line, j, u)))
  }

  lemma ScaledBetween(a: real, b: real, u: real, k: real)
    ensures (a + u * (b - a)) * k == a * k + Times(b * k - a * k, u)
  {
    assert u * (b - a) * k == u * (b * k - a * k);
  }

  lemma BetweenInPlane(plane: Plane, a: LatLng, b: LatLng, u: real)
    ensures plane.ToXY(Between(a, b, u)) == Along(plane.ToXY(a), plane.ToXY(b), u)
  {
    ScaledBetween(a.lat, b.lat, u, plane.north);
    ScaledBetween(a.lng, b.lng, u, plane.east);
  }

  lemma MetresInPlane(plane: Plane, p: LatLng, q: LatLng)
    ensures Metres2(plane, p, q) == DistSq(plane.ToXY(p), plane.ToXY(q))
  {
    assert (p.lng - q.lng) * plane.east == p.lng * plane.east - q.lng * plane.east;
    assert (p.lat - q.lat) * plane.north == p.lat * plane.north - q.lat * plane.north;
  }

  lemma OneInPlane(plane: Plane, p: LatLng, q: LatLng)
    requires plane.Valid() && plane.ToXY(p) == plane.ToXY(q)
    ensures p == q
  {
    Cancel(p.lat, q.lat, plane.north);
    Cancel(p.lng, q.lng, plane.east);
  }

  lemma Cancel(x: real, y: real, k: real)
    requires k != 0.0 && x * k == y * k
    ensures x == y
  {
    assert (x - y) * k == 0.0;
  }

  lemma NearestInDegrees(plane: Plane, p: LatLng, line: seq<LatLng>, r: Nearest)
    requires plane.Valid() && |line| >= 2 && IsNearest(plane, p, line, |line| - 1, r)
    ensures IsNearestPoint(plane, p, line, r)
  {
    MetresInPlane(plane, p, r.point);
    var i := r.segmentIndex;
    var t :| 0.0 <= t <= 1.0 && plane.ToXY(r.point) == OnSegment(plane, line, i, t);
    BetweenInPlane(plane, line[i], line[i + 1], t);
    OneInPlane(plane, r.point, Place(line, i, t));
    forall j, u | 0 <= j < |line| - 1 && 0.0 <= u <= 1.0
      ensures r.dist.square <= Metres2(plane, p, Place(line, j, u))
    {
      PlaceInPlane(plane, p, line, j, u);
      assert NoneNearer(plane, p, line, j, r.dist.square, false);
    }
    forall j, u | 0 <= j < i && 0.0 <= u <= 1.0
      ensures r.dist.square < Metres2(plane, p, Place(line, j, u))
    {
      PlaceInPlane(plane, p, line, j, u);
      assert NoneNearer(plane, p, line, j, r.dist.square, true);
    }
  }

  lemma PlaceInPlane(plane: Plane, p: LatLng, line: seq<LatLng>, j: nat, u: real)
    requires j + 1 < |line|
    ensures Metres2(plane, p, Place(line, j, u)) == DistSq(plane.ToXY(p), OnSegment(plane, line, j, u))
  {
    BetweenInPlane(plane, line[j], line[j + 1], u);
    MetresInPlane(plane, p, Place(line, j, u));
  }

  // ----- The search -----

  lemma FootNoneNearer(plane: Plane, p: LatLng, line: seq<LatLng>, i: nat)
    requires i + 1 < |line|
    ensures var t := Foot(plane.ToXY(p), plane.ToXY(line[i]), plane.ToXY(line[i + 1]));
      && 0.0 <= t <= 1.0
      && NoneNearer(plane, p, line, i, DistSq(plane.ToXY(p), OnSegment(plane, line, i, t)), false)
  {
    FootIsNearest(plane.ToXY(p), plane.ToXY(line[i]), plane.ToXY(line[i + 1]), 0.0);
    forall u | 0.0 <= u <= 1.0
      ensures DistSq(plane.ToXY(p),
                     OnSegment(plane, line, i, Foot(plane.ToXY(p), plane.ToXY(line[i]), plane.ToXY(line[i + 1]))))
           <= DistSq(plane.ToXY(p), OnSegment(plane, line, i, u))
    {
      FootIsNearest(plane.ToXY(p), plane.ToXY(line[i]), plane.ToXY(line[i + 1]), u);
    }
  }

  lemma NearerStill(plane: Plane, p: LatLng, line: seq<LatLng>, j: nat, square: real, less: real)
    requires j + 1 < |line| && NoneNearer(plane, p, line, j, square, false) && less <= square
    ensures NoneNearer(plane, p, line, j, less, false)
  {
  }

  lemma FartherStill(plane: Plane, p: LatLng, line: seq<LatLng>, j: nat, old': real, new': real)
    requires j + 1 < |line| && NoneNearer(plane, p, line, j, old', false) && new' < old'
    ensures NoneNearer(plane, p, line, j, new', true)
  {
  }

  method NearestPointOnPolyline(plane: Plane, p: LatLng, line: seq<LatLng>) returns (best: Option<Nearest>)
    requires plane.Valid()
    ensures |line| == 0 ==> best == None
    ensures |line| == 1 ==> best == Some(Nearest(line[0], GreatCircle(p, line[0]), 0))
    ensures |line| >= 2 ==> best.Some? && IsNearestPoint(plane, p, line, best.value)
  {
    if |line| == 0 { return None; }
    if |line| == 1 { return Some(Nearest(line[0], GreatCircle(p, line[0]), 0)); }
    var px := plane.ToXY(p);
    best := None;
    for i := 0 to |line| - 1
      invariant i == 0 ==> best == None
      invariant i > 0 ==> best.Some? && IsNearest(plane, p, line, i, best.value)
    {
      var a, b := plane.ToXY(line[i]), plane.ToXY(line[i + 1]);
      var t := Foot(px, a, b);
      var proj := Along(a, b, t);
      var dist := DistSq(px, proj);
      FootNoneNearer(plane, p, line, i);
      plane.BackAndForth(proj);
      if best.None? || dist < best.value.dist.square {
        forall j | 0 <= j < i
          ensures NoneNearer(plane, p, line, j, dist, true) && NoneNearer(plane, p, line, j, dist, false)
        {
          var so := best.value.dist.square;
          assert NoneNearer(plane, p, line, j, so, false);
          FartherStill(plane, p, line, j, so, dist);
          NearerStill(plane, p, line, j, so, dist);
        }
        best := Some(Nearest(plane.FromXY(proj), FlatSquared(dist), i));
        assert proj == OnSegment(plane, line, i, t);
      } else {
        NearerStill(plane, p, line, i, dist, best.value.dist.square);
      }
    }
    NearestInDegrees(plane, p, line, best.value);
  }
}
