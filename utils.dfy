/** Interpolation between two positions (`wanderer/utils.py`): `lerp` and the
    list of sample points one movement walks through. */
module Interpolation {
  import opened Numbers
  import opened Vectors

  /** `lerp(start, end, delta)`; the assertion `0 <= delta <= 1` is the
      precondition. Each coordinate of the result lies between the two ends. */
  function Lerp(start: Position2D, end: Position2D, delta: real): (r: Position2D)
    requires 0.0 <= delta <= 1.0
    ensures Min(start.x, end.x) <= r.x <= Max(start.x, end.x)
    ensures Min(start.y, end.y) <= r.y <= Max(start.y, end.y)
  {
    ScaleWithin(end.x - start.x, delta);
    ScaleWithin(end.y - start.y, delta);
    Add(start, Mul(Sub(end, start), delta))
  }

  lemma ScaleWithin(a: real, delta: real)
    requires 0.0 <= delta <= 1.0
    ensures Min(0.0, a) <= a * delta <= Max(0.0, a)
  {
    if 0.0 <= a {
      MulNonNegInto(a, delta, a * delta);
      MulNonNegInto(a, 1.0 - delta, a - a * delta);
    } else {
      MulNonNegInto(-a, delta, -(a * delta));
      MulNonNegInto(-a, 1.0 - delta, a * delta - a);
    }
  }

  /** The two ends of the interpolation. */
  lemma LerpEnds(start: Position2D, end: Position2D)
    ensures Lerp(start, end, 0.0) == start
    ensures Lerp(start, end, 1.0) == end
  {
  }

  /** `moves = math.ceil(distance / movement_speed)`. */
  function Moves(start: Position2D, end: Position2D, speed: real, sqrt: real -> real): int
    requires 0.0 < speed
  {
    Ceil(Magnitude(Sub(end, start), sqrt) / speed)
  }

  /** Point `i` of the comprehension: `start + (end - start).unit() * i * speed`. */
  function Sample(start: Position2D, end: Position2D, speed: real, sqrt: real -> real, i: nat): Position2D
    requires Magnitude(Sub(end, start), sqrt) != 0.0
  {
    Add(start, Mul(Mul(Unit(Sub(end, start), sqrt), i as real), speed))
  }

  /** A distinct start and end are a positive distance apart, so there is at
      least one move. */
  lemma MovesPositive(start: Position2D, end: Position2D, speed: real, sqrt: real -> real)
    requires 0.0 < speed && IsSqrt(sqrt) && start != end
    ensures 0.0 < Magnitude(Sub(end, start), sqrt)
    ensures 1 <= Moves(start, end, speed, sqrt)
  {
    DistancePositive(start, end, sqrt);
    CeilOfPositive(Magnitude(Sub(end, start), sqrt), speed);
  }

  lemma DistancePositive(start: Position2D, end: Position2D, sqrt: real -> real)
    requires IsSqrt(sqrt) && start != end
    ensures 0.0 < Magnitude(Sub(end, start), sqrt)
  {
    var v := Sub(end, start);
    assert v != Origin by {
      assert v.x != 0.0 || v.y != 0.0;
    }
    MagnitudeLaws(v, sqrt);
  }

  lemma CeilOfPositive(distance: real, speed: real)
    requires 0.0 < distance && 0.0 < speed
    ensures 1 <= Ceil(distance / speed)
  {
    MulPosInto(distance / speed, speed, distance);
  }

  /** `points_between`: the assertion `movement_speed > 0` is the precondition.
      The result starts at `start` and ends at `end`. */
  function PointsBetween(start: Position2D, end: Position2D, speed: real, sqrt: real -> real): (r: seq<Position2D>)
    requires 0.0 < speed && IsSqrt(sqrt)
    ensures 1 <= |r| && r[0] == start && r[|r| - 1] == end
  {
    if start == end then [start]
    else
      MovesPositive(start, end, speed, sqrt);
      var moves := Moves(start, end, speed, sqrt);
      var points := seq(moves, i requires 0 <= i < moves => Sample(start, end, speed, sqrt, i));
      assert points[0] == start;
      if points[|points| - 1] == end then points else points + [end]
  }

  /** Equal ends give exactly the one-element list. */
  lemma PointsBetweenSame(p: Position2D, speed: real, sqrt: real -> real)
    requires 0.0 < speed && IsSqrt(sqrt)
    ensures PointsBetween(p, p, speed, sqrt) == [p]
  {
  }

  lemma MulLtQuotient(i: real, d: real, s: real)
    requires 0.0 < s && i < d / s
    ensures i * s < d
  {
    MulPosInto(d / s - i, s, d - i * s);
  }

  /** Sample `i` lies at distance `i * speed` from the start. */
  lemma SampleDistance(start: Position2D, end: Position2D, speed: real, sqrt: real -> real, i: nat)
    requires 0.0 < speed && IsSqrt(sqrt) && start != end
    ensures Magnitude(Sub(end, start), sqrt) != 0.0
    ensures Magnitude(Sub(Sample(start, end, speed, sqrt, i), start), sqrt) == i as real * speed
  {
    MovesPositive(start, end, speed, sqrt);
    var u := Unit(Sub(end, start), sqrt);
    var w := Mul(Mul(u, i as real), speed);
    assert Sub(Add(start, w), start) == w;
    UnitLaws(Sub(end, start), sqrt);
    MagnitudeOfMul(u, i as real, sqrt);
    MagnitudeOfMul(Mul(u, i as real), speed, sqrt);
  }

  /** Every sample before the last move is strictly nearer to the start than
      the end is. */
  lemma SampleBeforeEnd(start: Position2D, end: Position2D, speed: real, sqrt: real -> real, i: nat)
    requires 0.0 < speed && IsSqrt(sqrt) && start != end
    requires i < Moves(start, end, speed, sqrt)
    ensures Magnitude(Sub(end, start), sqrt) != 0.0
    ensures i as real * speed < Magnitude(Sub(end, start), sqrt)
    ensures Sample(start, end, speed, sqrt, i) != end
  {
    SampleDistance(start, end, speed, sqrt, i);
    var distance := Magnitude(Sub(end, start), sqrt);
    MulLtQuotient(i as real, distance, speed);
  }

  /** Over exact reals the last sample never equals `end`, so `end` is always
      appended: `moves + 1` points, of which point `i < moves` is sample `i`. */
  lemma PointsBetweenShape(start: Position2D, end: Position2D, speed: real, sqrt: real -> real)
    requires 0.0 < speed && IsSqrt(sqrt) && start != end
    ensures Magnitude(Sub(end, start), sqrt) != 0.0
    ensures 1 <= Moves(start, end, speed, sqrt)
    ensures |PointsBetween(start, end, speed, sqrt)| == Moves(start, end, speed, sqrt) + 1
    ensures forall i :: 0 <= i < Moves(start, end, speed, sqrt) ==>
              PointsBetween(start, end, speed, sqrt)[i] == Sample(start, end, speed, sqrt, i)
  {
    MovesPositive(start, end, speed, sqrt);
    SampleBeforeEnd(start, end, speed, sqrt, Moves(start, end, speed, sqrt) - 1);
  }

  /** Point `i` of the list lies at distance `DistanceAt(i)` from the start:
      `i * speed` for the samples and the full distance for the appended end. */
  function DistanceAt(start: Position2D, end: Position2D, speed: real, sqrt: real -> real, i: nat): real
    requires 0.0 < speed
  {
    if i < Moves(start, end, speed, sqrt) then i as real * speed else Magnitude(Sub(end, start), sqrt)
  }

  lemma PointsBetweenDistances(start: Position2D, end: Position2D, speed: real, sqrt: real -> real, i: nat)
    requires 0.0 < speed && IsSqrt(sqrt) && start != end
    requires i < |PointsBetween(start, end, speed, sqrt)|
    ensures Magnitude(Sub(PointsBetween(start, end, speed, sqrt)[i], start), sqrt)
            == DistanceAt(start, end, speed, sqrt, i)
    ensures DistanceAt(start, end, speed, sqrt, i) <= Magnitude(Sub(end, start), sqrt)
  {
    PointsBetweenShape(start, end, speed, sqrt);
    if i < Moves(start, end, speed, sqrt) {
      SampleDistance(start, end, speed, sqrt, i);
      SampleBeforeEnd(start, end, speed, sqrt, i);
    }
  }

  /** Distances from the start strictly increase along the list. */
  lemma DistancesIncrease(start: Position2D, end: Position2D, speed: real, sqrt: real -> real, i: nat, j: nat)
    requires 0.0 < speed && IsSqrt(sqrt) && start != end
    requires i < j < |PointsBetween(start, end, speed, sqrt)|
    ensures DistanceAt(start, end, speed, sqrt, i) < DistanceAt(start, end, speed, sqrt, j)
  {
    PointsBetweenShape(start, end, speed, sqrt);
    SampleBeforeEnd(start, end, speed, sqrt, i);
    if j < Moves(start, end, speed, sqrt) {
      MulPosInto(j as real - i as real, speed, j as real * speed - i as real * speed);
    }
  }

  /** No point repeats: in particular only the last point equals the last
      point, which is what the renderer's `point == points[-1]` test relies on. */
  lemma PointsBetweenDistinct(start: Position2D, end: Position2D, speed: real, sqrt: real -> real, i: nat, j: nat)
    requires 0.0 < speed && IsSqrt(sqrt)
    requires i < j < |PointsBetween(start, end, speed, sqrt)|
    ensures PointsBetween(start, end, speed, sqrt)[i] != PointsBetween(start, end, speed, sqrt)[j]
  {
    PointsBetweenDistances(start, end, speed, sqrt, i);
    PointsBetweenDistances(start, end, speed, sqrt, j);
    DistancesIncrease(start, end, speed, sqrt, i, j);
  }
}
