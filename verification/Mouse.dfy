/**
 The mouse path generator: a cubic Bezier curve bent by two random offsets, sampled at evenly
 spaced parameters, each sample jittered. Coordinates are reals; the transcendental part of the
 Box-Muller transform and the Euclidean norm are inputs.
 */
module Mouse {
  import opened Bits
  import opened SplitMix
  import opened Words

  datatype Point = Point(x: real, y: real)

  function LerpCoordinate(a: real, b: real, t: real): real {
    t * (b - a) + a
  }

  /** `lerp`. */
  function Lerp(p: Point, q: Point, t: real): Point {
    Point(LerpCoordinate(p.x, q.x, t), LerpCoordinate(p.y, q.y, t))
  }

  /** `cubic_bezier`: De Casteljau's construction. */
  function CubicBezier(p0: Point, p1: Point, p2: Point, p3: Point, t: real): Point {
    var a, b, c := Lerp(p0, p1, t), Lerp(p1, p2, t), Lerp(p2, p3, t);
    Lerp(Lerp(a, b, t), Lerp(b, c, t), t)
  }

  /** The weights of the four control points in the Bernstein form of the curve. */
  function W0(t: real): real { (1.0 - t) * (1.0 - t) * (1.0 - t) }
  function W1(t: real): real { 3.0 * (t * (1.0 - t) * (1.0 - t)) }
  function W2(t: real): real { 3.0 * (t * t * (1.0 - t)) }
  function W3(t: real): real { t * t * t }

  function Bernstein(a: real, b: real, c: real, d: real, t: real): real {
    W0(t) * a + W1(t) * b + W2(t) * c + W3(t) * d
  }

  function CubicCoordinate(a: real, b: real, c: real, d: real, t: real): real {
    var p, q, r := LerpCoordinate(a, b, t), LerpCoordinate(b, c, t), LerpCoordinate(c, d, t);
    LerpCoordinate(LerpCoordinate(p, q, t), LerpCoordinate(q, r, t), t)
  }

  /** Two levels of the construction give the quadratic form. */
  lemma Quadratic(a: real, b: real, c: real, t: real, uu: real, tu: real, tt: real)
    requires uu == (1.0 - t) * (1.0 - t) && tu == t * (1.0 - t) && tt == t * t
    ensures LerpCoordinate(LerpCoordinate(a, b, t), LerpCoordinate(b, c, t), t) == uu * a + 2.0 * tu * b + tt * c
  {
  }

  lemma WeightForms(t: real, uu: real, tu: real, tt: real)
    requires uu == (1.0 - t) * (1.0 - t) && tu == t * (1.0 - t) && tt == t * t
    ensures W0(t) == (1.0 - t) * uu && W1(t) == (1.0 - t) * (2.0 * tu) + t * uu
    ensures W2(t) == (1.0 - t) * tt + t * (2.0 * tu) && W3(t) == t * tt
  {
  }

  lemma LastLevel(a: real, b: real, c: real, d: real, t: real, p: real, q: real, uu: real, tu: real, tt: real,
                  w0: real, w1: real, w2: real, w3: real)
    requires p == uu * a + 2.0 * tu * b + tt * c && q == uu * b + 2.0 * tu * c + tt * d
    requires w0 == (1.0 - t) * uu && w1 == (1.0 - t) * (2.0 * tu) + t * uu
    requires w2 == (1.0 - t) * tt + t * (2.0 * tu) && w3 == t * tt
    ensures LerpCoordinate(p, q, t) == w0 * a + w1 * b + w2 * c + w3 * d
  {
  }

  lemma CoordinateIsBernstein(a: real, b: real, c: real, d: real, t: real)
    ensures CubicCoordinate(a, b, c, d, t) == Bernstein(a, b, c, d, t)
  {
    hide LerpCoordinate, W0, W1, W2, W3;
    var uu, tu, tt := (1.0 - t) * (1.0 - t), t * (1.0 - t), t * t;
    var p := LerpCoordinate(LerpCoordinate(a, b, t), LerpCoordinate(b, c, t), t);
    var q := LerpCoordinate(LerpCoordinate(b, c, t), LerpCoordinate(c, d, t), t);
    Quadratic(a, b, c, t, uu, tu, tt);
    Quadratic(b, c, d, t, uu, tu, tt);
    WeightForms(t, uu, tu, tt);
    LastLevel(a, b, c, d, t, p, q, uu, tu, tt, W0(t), W1(t), W2(t), W3(t));
  }

  /** The construction evaluates the Bernstein polynomial, for every parameter. */
  lemma BezierIsBernstein(p0: Point, p1: Point, p2: Point, p3: Point, t: real)
    ensures CubicBezier(p0, p1, p2, p3, t)
         == Point(Bernstein(p0.x, p1.x, p2.x, p3.x, t), Bernstein(p0.y, p1.y, p2.y, p3.y, t))
  {
    CoordinateIsBernstein(p0.x, p1.x, p2.x, p3.x, t);
    CoordinateIsBernstein(p0.y, p1.y, p2.y, p3.y, t);
    assert CubicBezier(p0, p1, p2, p3, t).x == CubicCoordinate(p0.x, p1.x, p2.x, p3.x, t);
    assert CubicBezier(p0, p1, p2, p3, t).y == CubicCoordinate(p0.y, p1.y, p2.y, p3.y, t);
    hide Bernstein, CubicCoordinate, CubicBezier;
  }

  lemma LerpBetween(a: real, b: real, t: real, lo: real, hi: real)
    requires 0.0 <= t <= 1.0 && lo <= a <= hi && lo <= b <= hi
    ensures lo <= LerpCoordinate(a, b, t) <= hi
  {
    var r := LerpCoordinate(a, b, t);
    NonNegativeProduct(t, b - lo);
    NonNegativeProduct(1.0 - t, a - lo);
    assert r - lo == t * (b - lo) + (1.0 - t) * (a - lo);
    NonNegativeProduct(t, hi - b);
    NonNegativeProduct(1.0 - t, hi - a);
    assert hi - r == t * (hi - b) + (1.0 - t) * (hi - a);
  }

  lemma NonNegativeProduct(a: real, b: real)
    requires a >= 0.0 && b >= 0.0
    ensures a * b >= 0.0
  {
  }

  predicate InBox(p: Point, lo: Point, hi: Point) {
    lo.x <= p.x <= hi.x && lo.y <= p.y <= hi.y
  }

  lemma LerpInBox(p: Point, q: Point, t: real, lo: Point, hi: Point)
    requires 0.0 <= t <= 1.0 && InBox(p, lo, hi) && InBox(q, lo, hi)
    ensures InBox(Lerp(p, q, t), lo, hi)
  {
    LerpBetween(p.x, q.x, t, lo.x, hi.x);
    LerpBetween(p.y, q.y, t, lo.y, hi.y);
  }

  /** The curve starts and ends at its outer control points and stays in any box that holds all four. */
  lemma BezierStaysInBox(p0: Point, p1: Point, p2: Point, p3: Point, t: real, lo: Point, hi: Point)
    requires 0.0 <= t <= 1.0
    requires InBox(p0, lo, hi) && InBox(p1, lo, hi) && InBox(p2, lo, hi) && InBox(p3, lo, hi)
    ensures InBox(CubicBezier(p0, p1, p2, p3, t), lo, hi)
    ensures CubicBezier(p0, p1, p2, p3, 0.0) == p0 && CubicBezier(p0, p1, p2, p3, 1.0) == p3
  {
    assert CubicBezier(p0, p1, p2, p3, 0.0) == p0 && CubicBezier(p0, p1, p2, p3, 1.0) == p3;
    var a, b, c := Lerp(p0, p1, t), Lerp(p1, p2, t), Lerp(p2, p3, t);
    hide Lerp, InBox;
    LerpInBox(p0, p1, t, lo, hi);
    LerpInBox(p1, p2, t, lo, hi);
    LerpInBox(p2, p3, t, lo, hi);
    LerpInBox(a, b, t, lo, hi);
    LerpInBox(b, c, t, lo, hi);
    LerpInBox(Lerp(a, b, t), Lerp(b, c, t), t, lo, hi);
  }

  // ---------------------------------------------------------------- the bent curve

  /** What one call of `compute_path` works with; `distance` is the norm of the displacement. */
  datatype Move = Move(from: Point, to: Point, distance: real)

  function Dx(m: Move): real { m.to.x - m.from.x }

  function Dy(m: Move): real { m.to.y - m.from.y }

  /** What `hypot` guarantees. */
  predicate Measured(m: Move) {
    m.distance >= 0.0 && m.distance * m.distance == Dx(m) * Dx(m) + Dy(m) * Dy(m)
  }

  function Normal(m: Move): Point {
    if m.distance > 1.0 then Point(-Dy(m) / m.distance, Dx(m) / m.distance) else Point(1.0, 0.0)
  }

  function Steps(m: Move): (n: nat)
    requires m.distance >= 0.0
    ensures 12 <= n <= 120
  {
    var rounded := (m.distance / 8.0 + 0.5).Floor;
    if rounded < 12 then 12 else if rounded > 120 then 120 else rounded
  }

  function OffsetScale(m: Move): real {
    if m.distance * 0.35 < 200.0 then m.distance * 0.35 else 200.0
  }

  /** The control point a fraction `part` along the line, pushed sideways by `offset`. */
  function Control(m: Move, part: real, offset: real): Point {
    Point(Normal(m).x * offset + (m.from.x + part * Dx(m)), Normal(m).y * offset + (m.from.y + part * Dy(m)))
  }

  function Curve(m: Move, offset1: real, offset2: real, t: real): Point {
    CubicBezier(m.from, Control(m, 1.0 / 3.0, offset1), Control(m, 2.0 / 3.0, offset2), m.to, t)
  }

  /** How far the curve is pushed sideways at `t`. */
  function Bulge(offset1: real, offset2: real, t: real): real {
    W1(t) * offset1 + W2(t) * offset2
  }

  lemma BentCoordinate(a: real, b: real, c: real, e: real, d: real, n: real, o1: real, o2: real, t: real)
    requires b == n * o1 + (a + 1.0 / 3.0 * d) && c == n * o2 + (a + 2.0 / 3.0 * d) && e == a + d
    ensures Bernstein(a, b, c, e, t) == a + t * d + Bulge(o1, o2, t) * n
  {
    hide W0, W1, W2, W3;
    Weights(t);
    Combine(a, b, c, e, d, n, o1, o2, W0(t), W1(t), W2(t), W3(t), t);
  }

  lemma Weights(t: real)
    ensures W0(t) + W1(t) + W2(t) + W3(t) == 1.0
    ensures W1(t) * (1.0 / 3.0) + W2(t) * (2.0 / 3.0) + W3(t) == t
  {
  }

  lemma Combine(a: real, b: real, c: real, e: real, d: real, n: real, o1: real, o2: real,
                w0: real, w1: real, w2: real, w3: real, t: real)
    requires b == n * o1 + (a + 1.0 / 3.0 * d) && c == n * o2 + (a + 2.0 / 3.0 * d) && e == a + d
    requires w0 + w1 + w2 + w3 == 1.0 && w1 * (1.0 / 3.0) + w2 * (2.0 / 3.0) + w3 == t
    ensures w0 * a + w1 * b + w2 * c + w3 * e == a + t * d + (w1 * o1 + w2 * o2) * n
  {
    assert (w0 + w1 + w2 + w3) * a == a;
    assert (w1 * (1.0 / 3.0) + w2 * (2.0 / 3.0) + w3) * d == t * d;
  }

  /** The curve is the straight line, run through at constant speed, plus a bulge along the normal. */
  lemma CurveIsLinePlusBulge(m: Move, o1: real, o2: real, t: real)
    ensures Curve(m, o1, o2, t) == Point(m.from.x + t * Dx(m) + Bulge(o1, o2, t) * Normal(m).x,
                                        m.from.y + t * Dy(m) + Bulge(o1, o2, t) * Normal(m).y)
  {
    var p1, p2 := Control(m, 1.0 / 3.0, o1), Control(m, 2.0 / 3.0, o2);
    hide Normal, Bernstein, Bulge, CubicBezier;
    BezierIsBernstein(m.from, p1, p2, m.to, t);
    BentX(m, o1, o2, t);
    BentY(m, o1, o2, t);
  }

  lemma BentX(m: Move, o1: real, o2: real, t: real)
    ensures Bernstein(m.from.x, Control(m, 1.0 / 3.0, o1).x, Control(m, 2.0 / 3.0, o2).x, m.to.x, t)
         == m.from.x + t * Dx(m) + Bulge(o1, o2, t) * Normal(m).x
  {
    hide Normal, Bernstein, Bulge;
    var b, c := Control(m, 1.0 / 3.0, o1).x, Control(m, 2.0 / 3.0, o2).x;
    BentCoordinate(m.from.x, b, c, m.to.x, Dx(m), Normal(m).x, o1, o2, t);
  }

  lemma BentY(m: Move, o1: real, o2: real, t: real)
    ensures Bernstein(m.from.y, Control(m, 1.0 / 3.0, o1).y, Control(m, 2.0 / 3.0, o2).y, m.to.y, t)
         == m.from.y + t * Dy(m) + Bulge(o1, o2, t) * Normal(m).y
  {
    hide Normal, Bernstein, Bulge;
    var b, c := Control(m, 1.0 / 3.0, o1).y, Control(m, 2.0 / 3.0, o2).y;
    BentCoordinate(m.from.y, b, c, m.to.y, Dy(m), Normal(m).y, o1, o2, t);
  }

  /** How far along the line from start to target a point is, times the distance. */
  function Progress(m: Move, p: Point): real {
    (p.x - m.from.x) * Dx(m) + (p.y - m.from.y) * Dy(m)
  }

  /**
   The offsets are perpendicular to the movement, so that the unjittered curve makes even progress
   towards the target, unless the move is at most a pixel long: then they point along the x axis,
   and progress is even only when the bulge is nil or the move is vertical.
   */
  lemma EvenProgressIff(m: Move, o1: real, o2: real, t: real)
    requires Measured(m)
    ensures Progress(m, Curve(m, o1, o2, t)) == t * (m.distance * m.distance)
       <==> m.distance > 1.0 || Bulge(o1, o2, t) == 0.0 || Dx(m) == 0.0
  {
    ProgressOf(m, o1, o2, t);
    hide Bulge, Curve, Progress;
    NormalIs(m);
    NilProduct(Bulge(o1, o2, t), Dx(m));
  }

  /** What the normal has in common with the direction of the move. */
  lemma NormalIs(m: Move)
    ensures Normal(m).x * Dx(m) + Normal(m).y * Dy(m) == if m.distance > 1.0 then 0.0 else Dx(m)
  {
    if m.distance > 1.0 {
      Perpendicular(Dx(m), Dy(m), m.distance);
    }
  }

  /** The normal has length one, and for moves longer than a pixel it points to the left of the move. */
  lemma NormalLaws(m: Move)
    requires Measured(m)
    ensures Normal(m).x * Normal(m).x + Normal(m).y * Normal(m).y == 1.0
    ensures m.distance > 1.0 ==> Dx(m) * Normal(m).y - Dy(m) * Normal(m).x == m.distance
    ensures m.distance <= 1.0 ==> Normal(m) == Point(1.0, 0.0)
  {
    if m.distance > 1.0 {
      var d, p, q := m.distance, -Dy(m) / m.distance, Dx(m) / m.distance;
      assert p * d == -Dy(m) && q * d == Dx(m);
      UnitNormal(Dx(m), Dy(m), d, p, q);
      hide Dx, Dy;
    }
  }

  lemma UnitNormal(dx: real, dy: real, d: real, p: real, q: real)
    requires d > 1.0 && p * d == -dy && q * d == dx && d * d == dx * dx + dy * dy
    ensures p * p + q * q == 1.0 && dx * q - dy * p == d
  {
    assert (p * p + q * q) * (d * d) == (p * d) * (p * d) + (q * d) * (q * d);
    assert (p * p + q * q - 1.0) * (d * d) == 0.0;
    NilProduct(d, d);
    NilProduct(p * p + q * q - 1.0, d * d);
    assert dx * q - dy * p == (q * d) * q + (p * d) * p;
    assert (q * d) * q + (p * d) * p == (p * p + q * q) * d;
  }

  lemma ProgressOf(m: Move, o1: real, o2: real, t: real)
    ensures Progress(m, Curve(m, o1, o2, t))
         == t * (Dx(m) * Dx(m) + Dy(m) * Dy(m))
            + Bulge(o1, o2, t) * (Normal(m).x * Dx(m) + Normal(m).y * Dy(m))
  {
    hide Normal, Bulge, CubicBezier;
    CurveIsLinePlusBulge(m, o1, o2, t);
    var p := Curve(m, o1, o2, t);
    var dx, dy, n, w := Dx(m), Dy(m), Normal(m), Bulge(o1, o2, t);
    var a, b := p.x - m.from.x, p.y - m.from.y;
    assert a == t * dx + w * n.x && b == t * dy + w * n.y;
    assert Progress(m, p) == a * dx + b * dy;
    Distribute(t, dx, dy, w, n.x, n.y, a, b);
  }

  lemma Distribute(t: real, dx: real, dy: real, w: real, x: real, y: real, a: real, b: real)
    requires a == t * dx + w * x && b == t * dy + w * y
    ensures a * dx + b * dy == t * (dx * dx + dy * dy) + w * (x * dx + y * dy)
  {
  }

  lemma Perpendicular(dx: real, dy: real, d: real)
    requires d > 0.0
    ensures (-dy / d) * dx + (dx / d) * dy == 0.0
  {
    var p, q := -dy / d, dx / d;
    assert p * d == -dy && q * d == dx;
    assert (p * dx + q * dy) * d == (p * d) * dx + (q * d) * dy;
    NilProduct(p * dx + q * dy, d);
  }

  lemma NilProduct(a: real, b: real)
    ensures a * b == 0.0 <==> a == 0.0 || b == 0.0
  {
  }

  /** Sideways, the curve strays at most three quarters of the larger offset, and not at all at its ends. */
  lemma BulgeIsBounded(o1: real, o2: real, t: real, most: real)
    requires 0.0 <= t <= 1.0 && -most <= o1 <= most && -most <= o2 <= most
    ensures -0.75 * most <= Bulge(o1, o2, t) <= 0.75 * most
    ensures Bulge(o1, o2, 0.0) == 0.0 && Bulge(o1, o2, 1.0) == 0.0
  {
    assert Bulge(o1, o2, 0.0) == 0.0 && Bulge(o1, o2, 1.0) == 0.0;
    InnerWeights(t);
    hide W1, W2;
    WeightedBounds(W1(t), W2(t), o1, o2, most);
  }

  lemma InnerWeights(t: real)
    requires 0.0 <= t <= 1.0
    ensures W1(t) >= 0.0 && W2(t) >= 0.0 && W1(t) + W2(t) <= 0.75
  {
    var u := 1.0 - t;
    var v := t * u;
    NonNegativeProduct(t, u);
    NonNegativeProduct(v, u);
    NonNegativeProduct(v, t);
    assert v * u == t * u * u && v * t == t * t * u;
    assert v * u + v * t == v * (u + t) == v;
    Square(t - 0.5);
    assert (t - 0.5) * (t - 0.5) == 0.25 - v;
  }

  lemma Square(x: real)
    ensures x * x >= 0.0
  {
    if x >= 0.0 {
      NonNegativeProduct(x, x);
    } else {
      NonNegativeProduct(-x, -x);
    }
  }

  lemma WeightedBounds(w1: real, w2: real, o1: real, o2: real, most: real)
    requires w1 >= 0.0 && w2 >= 0.0 && w1 + w2 <= 0.75 && -most <= o1 <= most && -most <= o2 <= most
    ensures -0.75 * most <= w1 * o1 + w2 * o2 <= 0.75 * most
  {
    NonNegativeProduct(w1, most - o1);
    NonNegativeProduct(w2, most - o2);
    NonNegativeProduct(w1, most + o1);
    NonNegativeProduct(w2, most + o2);
    NonNegativeProduct(0.75 - (w1 + w2), most);
  }

  /** One point per eight pixels, rounded, from 12 to 120 steps. */
  lemma StepsFollowDistance(m: Move)
    requires m.distance >= 0.0
    ensures Steps(m) == 12 <==> m.distance < 100.0
    ensures Steps(m) == 120 <==> m.distance >= 956.0
    ensures 92.0 <= m.distance < 964.0 ==>
              8.0 * Steps(m) as real - 4.0 <= m.distance < 8.0 * Steps(m) as real + 4.0
  {
  }

  // ---------------------------------------------------------------- the random part

  /** `rand_f64`. */
  function Uniform(draw: u64): (r: real)
    ensures 0.0 <= r < 1.0
  {
    ShrDivides(draw, 11);
    assert Pow2(11) == 2048;
    Shr(draw, 11) as real / 9007199254740992.0
  }

  /** The first argument of the logarithm stays clear of zero. */
  function AwayFromZero(u: real): real {
    if u > 0.0000000001 then u else 0.0000000001
  }

  /** A uniform number is the upper 53 bits of its draw, as a fraction. */
  lemma UniformIs(draw: u64)
    ensures Uniform(draw) * 9007199254740992.0 == (draw / 2048) as real
  {
    assert Pow2(11) == 2048;
    hide Pow2, Shr;
    ShrDivides(draw, 11);
    Fraction(draw / 2048, Uniform(draw));
    hide Uniform;
  }

  lemma Fraction(u: nat, r: real)
    requires r == u as real / 9007199254740992.0
    ensures r * 9007199254740992.0 == u as real
  {
  }

  lemma AwayFromZeroIs(u: real)
    ensures AwayFromZero(u) >= u && AwayFromZero(u) >= 0.0000000001
    ensures AwayFromZero(u) == u || AwayFromZero(u) == 0.0000000001
  {
  }

  /** The normal deviate that two uniform numbers give; the Box-Muller formula itself is an input. */
  type Gauss = (real, real) -> real

  /** What `rand_normal` with mean zero returns in generator state `state`. */
  function Deviate(gauss: Gauss, state: u64, spread: real): real {
    spread * gauss(AwayFromZero(Uniform(Rng(state, 1))), Uniform(Rng(Advance(state, 1), 1)))
  }

  /** The formula is asked only where it is defined: for a first number in (0, 1) and a second one in [0, 1). */
  lemma DeviatesAreDefined(f: Gauss, g: Gauss, state: u64, spread: real)
    requires forall u: real, v: real :: 0.0 < u < 1.0 && 0.0 <= v < 1.0 ==> f(u, v) == g(u, v)
    ensures Deviate(f, state, spread) == Deviate(g, state, spread)
  {
    hide Rng, Advance, Uniform;
    var u, v := AwayFromZero(Uniform(Rng(state, 1))), Uniform(Rng(Advance(state, 1), 1));
    assert 0.0 < u < 1.0 && 0.0 <= v < 1.0;
    assert f(u, v) == g(u, v);
    hide AwayFromZero;
  }

  /** A deviate is made of the next two draws, the first of them kept away from zero. */
  lemma DeviateIs(gauss: Gauss, state: u64, spread: real)
    ensures Deviate(gauss, state, spread)
         == spread * gauss(AwayFromZero(Uniform(Rng(state, 1))), Uniform(Rng(state, 2)))
  {
    hide Rng, Advance, Uniform, AwayFromZero;
    NextIsRng(state, 1);
  }

  /** The offsets grow with the distance, up to moves of 200 / 0.35 pixels. */
  lemma OffsetScaleIs(m: Move)
    ensures OffsetScale(m) <= 200.0 && OffsetScale(m) <= m.distance * 0.35
    ensures OffsetScale(m) == 200.0 || OffsetScale(m) == m.distance * 0.35
  {
  }

  function PathPoint(m: Move, gauss: Gauss, state: u64, i: nat): Point
    requires m.distance >= 0.0
  {
    var o1 := Deviate(gauss, state, OffsetScale(m) * 0.5);
    var o2 := Deviate(gauss, Advance(state, 2), OffsetScale(m) * 0.4);
    var p := Curve(m, o1, o2, i as real / Steps(m) as real);
    Point(p.x + Deviate(gauss, Advance(state, 4 + 4 * i), 0.4), p.y + Deviate(gauss, Advance(state, 6 + 4 * i), 0.4))
  }

  class MouseSimulator {
    var currentX: real
    var currentY: real
    const rng: Generator

    constructor WithSeedAndPosition(seed: u64, x: real, y: real)
      ensures currentX == x && currentY == y && rng.state == seed && fresh(rng)
    {
      currentX, currentY := x, y;
      rng := new Generator(seed);
    }

    /** `rand_normal` with mean zero. */
    method RandNormal(gauss: Gauss, spread: real) returns (sample: real)
      modifies rng
      ensures sample == Deviate(gauss, old(rng.state), spread)
      ensures rng.state == Advance(old(rng.state), 2)
    {
      hide Advance, Rng, Uniform, AwayFromZero;
      var first := rng.Next();
      var second := rng.Next();
      AdvanceAdds(old(rng.state), 1, 1);
      sample := spread * gauss(AwayFromZero(Uniform(first)), Uniform(second));
    }

    /**
     `compute_path`: as many points as the distance asks for, point `i` on the curve at `i / steps`
     plus its own jitter; the generator moves on by four draws a point and four for the offsets.
     */
    method ComputePath(m: Move, gauss: Gauss) returns (path: seq<Point>)
      requires Measured(m)
      modifies rng
      ensures |path| == Steps(m) + 1
      ensures forall i :: 0 <= i < |path| ==> path[i] == PathPoint(m, gauss, old(rng.state), i)
      ensures rng.state == Advance(old(rng.state), 8 + 4 * Steps(m))
    {
      hide Advance, Rng, Deviate, Curve, OffsetScale;
      ghost var start := rng.state;
      var steps := Steps(m);
      var offset1 := RandNormal(gauss, OffsetScale(m) * 0.5);
      var offset2 := RandNormal(gauss, OffsetScale(m) * 0.4);
      AdvanceAdds(start, 2, 2);
      path := [];
      var i := 0;
      while i <= steps
        invariant i <= steps + 1 && |path| == i
        invariant rng.state == Advance(start, 4 + 4 * i)
        invariant forall j :: 0 <= j < i ==> path[j] == PathPoint(m, gauss, start, j)
      {
        var p := Curve(m, offset1, offset2, i as real / steps as real);
        var jitterX := RandNormal(gauss, 0.4);
        AdvanceAdds(start, 4 + 4 * i, 2);
        var jitterY := RandNormal(gauss, 0.4);
        AdvanceAdds(start, 6 + 4 * i, 2);
        path := path + [Point(p.x + jitterX, p.y + jitterY)];
        i := i + 1;
      }
    }
  }

  /** Without its jitter the first point of a path is the start and the last one the target. */
  lemma PathEnds(m: Move, gauss: Gauss, state: u64)
    requires Measured(m)
    ensures var first, last := PathPoint(m, gauss, state, 0), PathPoint(m, gauss, state, Steps(m));
            && first == Point(m.from.x + Deviate(gauss, Advance(state, 4), 0.4),
                              m.from.y + Deviate(gauss, Advance(state, 6), 0.4))
            && last == Point(m.to.x + Deviate(gauss, Advance(state, 4 + 4 * Steps(m)), 0.4),
                             m.to.y + Deviate(gauss, Advance(state, 6 + 4 * Steps(m)), 0.4))
  {
    hide Deviate, Curve, Advance;
    CurveEnds(m, Deviate(gauss, state, OffsetScale(m) * 0.5), Deviate(gauss, Advance(state, 2), OffsetScale(m) * 0.4));
    assert 0 as real / Steps(m) as real == 0.0 && Steps(m) as real / Steps(m) as real == 1.0;
    hide OffsetScale, Steps;
  }

  /**
   A point of a path: the straight line at its share of the way, pushed sideways by a bulge between two
   offsets with half and two fifths of the offset scale as their spread, and jittered with spread 0.4.
   */
  lemma PathPointIs(m: Move, gauss: Gauss, state: u64, i: nat)
    requires m.distance >= 0.0
    ensures var t := i as real / Steps(m) as real;
            var bulge := Bulge(Deviate(gauss, state, OffsetScale(m) * 0.5),
                               Deviate(gauss, Advance(state, 2), OffsetScale(m) * 0.4), t);
            PathPoint(m, gauss, state, i)
            == Point(m.from.x + t * Dx(m) + bulge * Normal(m).x + Deviate(gauss, Advance(state, 4 + 4 * i), 0.4),
                     m.from.y + t * Dy(m) + bulge * Normal(m).y + Deviate(gauss, Advance(state, 6 + 4 * i), 0.4))
  {
    hide Deviate, Curve, Advance, OffsetScale, Steps, Normal, Bulge, Dx, Dy;
    var o1, o2 := Deviate(gauss, state, OffsetScale(m) * 0.5), Deviate(gauss, Advance(state, 2), OffsetScale(m) * 0.4);
    var t := i as real / Steps(m) as real;
    var p := Curve(m, o1, o2, t);
    assert PathPoint(m, gauss, state, i)
        == Point(p.x + Deviate(gauss, Advance(state, 4 + 4 * i), 0.4),
                 p.y + Deviate(gauss, Advance(state, 6 + 4 * i), 0.4));
    hide PathPoint;
    CurveIsLinePlusBulge(m, o1, o2, t);
  }

  lemma CurveEnds(m: Move, o1: real, o2: real)
    ensures Curve(m, o1, o2, 0.0) == m.from && Curve(m, o1, o2, 1.0) == m.to
  {
    hide Control;
  }
}
