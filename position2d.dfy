/** `Position2D`, the 2D point/vector value of the engine, over exact reals.

    `wanderer/position2d.py` defines it; `src/__init__.py` holds a copy whose
    methods have the same bodies and lacks `__mul__` and `unit`. One model
    serves both. `math.sqrt` is a parameter `sqrt` that is only required to be a
    square root on non-negative reals (`IsSqrt`); `math.acos` is a parameter
    too, returning `None` where Python raises ValueError. */
module Vectors {
  import opened Results

  datatype Position2D = Position2D(x: real, y: real)

  const Origin := Position2D(0.0, 0.0)

  /** `r * r`. Squares are kept behind this function so that the solver treats
      them as ordinary terms; their sign facts are the lemmas below. */
  function Sq(r: real): real { r * r }

  /** `sqrt` returns the non-negative square root of every non-negative real. */
  ghost predicate IsSqrt(sqrt: real -> real) {
    forall r :: 0.0 <= r ==> 0.0 <= sqrt(r) && Sq(sqrt(r)) == r
  }

  function Sub(a: Position2D, b: Position2D): Position2D {
    Position2D(a.x - b.x, a.y - b.y)
  }

  function Add(a: Position2D, b: Position2D): Position2D {
    Position2D(a.x + b.x, a.y + b.y)
  }

  function Mul(v: Position2D, s: real): Position2D {
    Position2D(v.x * s, v.y * s)
  }

  function Div(v: Position2D, s: real): Position2D
    requires s != 0.0
  {
    Position2D(v.x / s, v.y / s)
  }

  function Dot(a: Position2D, b: Position2D): real {
    a.x * b.x + a.y * b.y
  }

  /** `x*x + y*y`, the radicand of `magnitude`. */
  function SquaredLength(v: Position2D): real {
    Sq(v.x) + Sq(v.y)
  }

  function Magnitude(v: Position2D, sqrt: real -> real): real {
    sqrt(SquaredLength(v))
  }

  /** `unit`: Python raises ZeroDivisionError for a zero-length vector. */
  function Unit(v: Position2D, sqrt: real -> real): Position2D
    requires Magnitude(v, sqrt) != 0.0
  {
    Div(v, Magnitude(v, sqrt))
  }

  /** `cross_product_scalar`: the sine of the angle from `a` to `b`. */
  function CrossProductScalar(a: Position2D, b: Position2D, sqrt: real -> real): real
    requires Magnitude(a, sqrt) * Magnitude(b, sqrt) != 0.0
  {
    (a.x * b.y - a.y * b.x) / (Magnitude(a, sqrt) * Magnitude(b, sqrt))
  }

  /** The argument `angle_between` passes to `acos`: the dot product over the
      product of the magnitudes. */
  function Cosine(a: Position2D, b: Position2D, sqrt: real -> real): real
    requires Magnitude(a, sqrt) * Magnitude(b, sqrt) != 0.0
  {
    Dot(a, b) / (Magnitude(a, sqrt) * Magnitude(b, sqrt))
  }

  /** `angle_between`: 0 when either vector has no length, and 0 when `acos`
      rejects its argument (the `except ValueError` branch). */
  function AngleBetween(a: Position2D, b: Position2D, sqrt: real -> real,
                        acos: real -> Option<real>): real
  {
    var total := Magnitude(a, sqrt) * Magnitude(b, sqrt);
    if total == 0.0 then 0.0
    else match acos(Cosine(a, b, sqrt))
      case None => 0.0
      case Some(angle) => angle
  }

  // ---- properties ----

  lemma SubDoctest()
    ensures Sub(Position2D(10.0, 5.0), Position2D(3.0, 2.0)) == Position2D(7.0, 3.0)
  {
  }

  /** Addition and subtraction are component-wise inverses. */
  lemma AddSubInverse(a: Position2D, b: Position2D)
    ensures Add(Sub(a, b), b) == a
    ensures Sub(Add(a, b), b) == a
  {
  }

  /** The vector-space laws the interpolator relies on. */
  lemma AddLaws(a: Position2D, b: Position2D, c: Position2D, s: real, t: real)
    ensures Add(a, b) == Add(b, a)
    ensures Add(Add(a, b), c) == Add(a, Add(b, c))
    ensures Mul(Add(a, b), s) == Add(Mul(a, s), Mul(b, s))
    ensures Mul(Mul(a, s), t) == Mul(a, s * t)
  {
    assert (a.x * s) * t == a.x * (s * t);
    assert (a.y * s) * t == a.y * (s * t);
  }

  /** Scaling by a non-zero scalar is undone by dividing by it. */
  lemma MulDivInverse(v: Position2D, s: real)
    requires s != 0.0
    ensures Div(Mul(v, s), s) == v
    ensures Mul(Div(v, s), s) == v
  {
  }

  lemma DotLaws(a: Position2D, b: Position2D)
    ensures Dot(a, b) == Dot(b, a)
    ensures Dot(a, a) == SquaredLength(a)
  {
  }

  // ---- real arithmetic on squares ----

  function Abs(r: real): real { if r < 0.0 then -r else r }

  lemma MulPosInto(a: real, b: real, c: real)
    requires 0.0 < a && 0.0 < b && a * b == c
    ensures 0.0 < c
  {
  }

  lemma MulNonNegInto(a: real, b: real, c: real)
    requires 0.0 <= a && 0.0 <= b && a * b == c
    ensures 0.0 <= c
  {
    if a != 0.0 && b != 0.0 {
      MulPosInto(a, b, c);
    }
  }

  lemma SqPos(r: real)
    requires r != 0.0
    ensures 0.0 < Sq(r)
  {
    if r > 0.0 {
      MulPosInto(r, r, Sq(r));
    } else {
      MulPosInto(-r, -r, Sq(r));
    }
  }

  lemma SqNonNeg(r: real)
    ensures 0.0 <= Sq(r)
  {
    if r != 0.0 {
      SqPos(r);
    }
  }

  /** Two non-negative reals with the same square are equal. */
  lemma SqInjective(p: real, q: real)
    requires 0.0 <= p && 0.0 <= q && Sq(p) == Sq(q)
    ensures p == q
  {
    if p < q {
      MulPosInto(q - p, q + p, Sq(q) - Sq(p));
    } else if q < p {
      MulPosInto(p - q, p + q, Sq(p) - Sq(q));
    }
  }

  lemma SqOfProduct(a: real, b: real)
    ensures Sq(a * b) == Sq(a) * Sq(b)
  {
  }

  lemma SqOfAbs(r: real)
    ensures 0.0 <= Abs(r) && Sq(Abs(r)) == Sq(r)
  {
  }

  lemma SqrtLaw(sqrt: real -> real, r: real)
    requires IsSqrt(sqrt) && 0.0 <= r
    ensures 0.0 <= sqrt(r) && Sq(sqrt(r)) == r
  {
  }

  // ---- magnitude ----

  /** The squared length is non-negative and zero exactly for the zero vector. */
  lemma SquaredLengthLaws(v: Position2D)
    ensures 0.0 <= SquaredLength(v)
    ensures SquaredLength(v) == 0.0 <==> v == Origin
  {
    SqNonNeg(v.x);
    SqNonNeg(v.y);
    if v.x != 0.0 {
      SqPos(v.x);
    } else if v.y != 0.0 {
      SqPos(v.y);
    }
  }

  lemma RootOfZero(m: real, d: real)
    requires 0.0 <= m && Sq(m) == d
    ensures m == 0.0 <==> d == 0.0
  {
    if m != 0.0 {
      SqPos(m);
    }
  }

  /** The magnitude is a non-negative real whose square is the squared length
      (which `DotLaws` equates with `Dot(v, v)`), and it is zero exactly for
      the zero vector. */
  lemma MagnitudeLaws(v: Position2D, sqrt: real -> real)
    requires IsSqrt(sqrt)
    ensures 0.0 <= Magnitude(v, sqrt)
    ensures Sq(Magnitude(v, sqrt)) == SquaredLength(v)
    ensures Magnitude(v, sqrt) == 0.0 <==> v == Origin
  {
    SquaredLengthLaws(v);
    SqrtLaw(sqrt, SquaredLength(v));
    RootOfZero(Magnitude(v, sqrt), SquaredLength(v));
  }

  /** `sqrt(a*a) == a` for non-negative `a`. */
  lemma SqrtOfSq(a: real, sqrt: real -> real)
    requires IsSqrt(sqrt) && 0.0 <= a
    ensures sqrt(Sq(a)) == a
  {
    SqNonNeg(a);
    SqrtLaw(sqrt, Sq(a));
    SqInjective(sqrt(Sq(a)), a);
  }

  lemma SquaredLengthOfMul(v: Position2D, s: real)
    ensures SquaredLength(Mul(v, s)) == Sq(s) * SquaredLength(v)
  {
    SqOfProduct(v.x, s);
    SqOfProduct(v.y, s);
  }

  /** Scaling a vector scales its magnitude by the absolute value. */
  lemma MagnitudeOfMul(v: Position2D, s: real, sqrt: real -> real)
    requires IsSqrt(sqrt)
    ensures Magnitude(Mul(v, s), sqrt) == Abs(s) * Magnitude(v, sqrt)
  {
    var m := Magnitude(v, sqrt);
    var ms := Magnitude(Mul(v, s), sqrt);
    var k := Abs(s);
    MagnitudeLaws(v, sqrt);
    MagnitudeLaws(Mul(v, s), sqrt);
    SquaredLengthOfMul(v, s);
    SqOfAbs(s);
    SqOfProduct(k, m);
    MulNonNegInto(k, m, k * m);
    SqInjective(ms, k * m);
  }

  /** The magnitude of `a - b` is the distance from `b` to `a`, in either order. */
  lemma MagnitudeOfSubSymmetric(a: Position2D, b: Position2D, sqrt: real -> real)
    ensures Magnitude(Sub(a, b), sqrt) == Magnitude(Sub(b, a), sqrt)
  {
    assert SquaredLength(Sub(a, b)) == SquaredLength(Sub(b, a));
  }

  /** The unit vector of a non-zero vector has length 1 and points the same way:
      scaled back by the magnitude it gives the vector again. */
  lemma UnitLaws(v: Position2D, sqrt: real -> real)
    requires IsSqrt(sqrt) && Magnitude(v, sqrt) != 0.0
    ensures Magnitude(Unit(v, sqrt), sqrt) == 1.0
    ensures Mul(Unit(v, sqrt), Magnitude(v, sqrt)) == v
  {
    var m := Magnitude(v, sqrt);
    MagnitudeLaws(v, sqrt);
    assert Unit(v, sqrt) == Mul(v, 1.0 / m);
    MagnitudeOfMul(v, 1.0 / m, sqrt);
    assert Abs(1.0 / m) * m == 1.0;
  }

  /** `unit` of the zero vector is the division by zero Python raises on. */
  lemma UnitOfZeroDividesByZero(sqrt: real -> real)
    requires IsSqrt(sqrt)
    ensures Magnitude(Origin, sqrt) == 0.0
  {
    MagnitudeLaws(Origin, sqrt);
  }

  lemma CrossProductDoctests(sqrt: real -> real)
    requires IsSqrt(sqrt)
    ensures Magnitude(Position2D(5.0, 0.0), sqrt) * Magnitude(Position2D(0.0, 4.0), sqrt) != 0.0
    ensures CrossProductScalar(Position2D(5.0, 0.0), Position2D(0.0, 4.0), sqrt) == 1.0
    ensures Magnitude(Position2D(0.0, 3.0), sqrt) * Magnitude(Position2D(4.0, 0.0), sqrt) != 0.0
    ensures CrossProductScalar(Position2D(0.0, 3.0), Position2D(4.0, 0.0), sqrt) == -1.0
  {
    assert SquaredLength(Position2D(5.0, 0.0)) == Sq(5.0);
    SqrtOfSq(5.0, sqrt);
    assert SquaredLength(Position2D(0.0, 4.0)) == Sq(4.0);
    SqrtOfSq(4.0, sqrt);
    assert SquaredLength(Position2D(0.0, 3.0)) == Sq(3.0);
    SqrtOfSq(3.0, sqrt);
    assert SquaredLength(Position2D(4.0, 0.0)) == Sq(4.0);
  }

  /** Swapping the operands negates the cross product. */
  lemma CrossProductAntisymmetric(a: Position2D, b: Position2D, sqrt: real -> real)
    requires Magnitude(a, sqrt) * Magnitude(b, sqrt) != 0.0
    ensures Magnitude(b, sqrt) * Magnitude(a, sqrt) != 0.0
    ensures CrossProductScalar(b, a, sqrt) == -CrossProductScalar(a, b, sqrt)
  {
    var t := Magnitude(a, sqrt) * Magnitude(b, sqrt);
    assert Magnitude(b, sqrt) * Magnitude(a, sqrt) == t;
    assert (b.x * a.y - b.y * a.x) == -(a.x * b.y - a.y * b.x);
  }

  /** A zero-length operand short-circuits `angle_between` to 0. */
  lemma AngleBetweenZeroGuard(a: Position2D, b: Position2D, sqrt: real -> real,
                              acos: real -> Option<real>)
    requires IsSqrt(sqrt)
    requires a == Origin || b == Origin
    ensures AngleBetween(a, b, sqrt, acos) == 0.0
  {
    MagnitudeLaws(a, sqrt);
    MagnitudeLaws(b, sqrt);
  }

  /** Lagrange's identity: the squared dot and cross products add up to the
      product of the squared lengths. */
  lemma LagrangeIdentity(a: Position2D, b: Position2D)
    ensures Sq(Dot(a, b)) + Sq(a.x * b.y - a.y * b.x) == SquaredLength(a) * SquaredLength(b)
  {
    assert Sq(Dot(a, b)) == Sq(a.x * b.x) + 2.0 * (a.x * b.x) * (a.y * b.y) + Sq(a.y * b.y);
    assert Sq(a.x * b.y - a.y * b.x) == Sq(a.x * b.y) - 2.0 * (a.x * b.x) * (a.y * b.y) + Sq(a.y * b.x);
    SqOfProduct(a.x, b.x);
    SqOfProduct(a.y, b.y);
    SqOfProduct(a.x, b.y);
    SqOfProduct(a.y, b.x);
  }

  /** Cauchy-Schwarz: the dot product is at most the product of the
      magnitudes in absolute value. */
  lemma CauchySchwarz(a: Position2D, b: Position2D, sqrt: real -> real)
    requires IsSqrt(sqrt)
    ensures Abs(Dot(a, b)) <= Magnitude(a, sqrt) * Magnitude(b, sqrt)
  {
    var d := Abs(Dot(a, b));
    var t := Magnitude(a, sqrt) * Magnitude(b, sqrt);
    LagrangeIdentity(a, b);
    SqNonNeg(a.x * b.y - a.y * b.x);
    MagnitudeLaws(a, sqrt);
    MagnitudeLaws(b, sqrt);
    SqOfProduct(Magnitude(a, sqrt), Magnitude(b, sqrt));
    SqOfAbs(Dot(a, b));
    MulNonNegInto(Magnitude(a, sqrt), Magnitude(b, sqrt), t);
    assert Sq(d) <= Sq(t);
    if t < d {
      MulPosInto(d - t, d + t, Sq(d) - Sq(t));
    }
  }

  /** Over exact reals the argument `angle_between` passes to `acos` lies in
      [-1, 1] for two non-zero vectors. */
  lemma AcosArgumentInRange(a: Position2D, b: Position2D, sqrt: real -> real)
    requires IsSqrt(sqrt) && a != Origin && b != Origin
    ensures 0.0 < Magnitude(a, sqrt) * Magnitude(b, sqrt)
    ensures -1.0 <= Cosine(a, b, sqrt) <= 1.0
  {
    var t := Magnitude(a, sqrt) * Magnitude(b, sqrt);
    MagnitudeLaws(a, sqrt);
    MagnitudeLaws(b, sqrt);
    MulPosInto(Magnitude(a, sqrt), Magnitude(b, sqrt), t);
    CauchySchwarz(a, b, sqrt);
    CosineInUnit(a, b, sqrt);
  }

  lemma CosineInUnit(a: Position2D, b: Position2D, sqrt: real -> real)
    requires 0.0 < Magnitude(a, sqrt) * Magnitude(b, sqrt)
    requires Abs(Dot(a, b)) <= Magnitude(a, sqrt) * Magnitude(b, sqrt)
    ensures -1.0 <= Cosine(a, b, sqrt) <= 1.0
  {
    var t := Magnitude(a, sqrt) * Magnitude(b, sqrt);
    var c := Cosine(a, b, sqrt);
    assert c == Dot(a, b) / t;
    QuotientInUnit(Dot(a, b), t);
  }

  /** So an `acos` defined on [-1, 1] never takes the `except ValueError`
      branch: the angle of two non-zero vectors is `acos` of that argument. */
  lemma AngleBetweenDefined(a: Position2D, b: Position2D, sqrt: real -> real, acos: real -> Option<real>)
    requires IsSqrt(sqrt) && a != Origin && b != Origin
    requires forall r :: -1.0 <= r <= 1.0 ==> acos(r).Some?
    ensures Magnitude(a, sqrt) * Magnitude(b, sqrt) != 0.0
    ensures acos(Cosine(a, b, sqrt)).Some?
    ensures AngleBetween(a, b, sqrt, acos) == acos(Cosine(a, b, sqrt)).value
  {
    AcosArgumentInRange(a, b, sqrt);
    assert acos(Cosine(a, b, sqrt)).Some?;
  }

  lemma QuotientInUnit(d: real, t: real)
    requires 0.0 < t && Abs(d) <= t
    ensures -1.0 <= d / t <= 1.0
  {
    var q := d / t;
    assert q * t == d;
    if 1.0 < q {
      MulPosInto(q - 1.0, t, d - t);
    }
    if q < -1.0 {
      MulPosInto(-1.0 - q, t, -t - d);
    }
  }
}
