/**
The functions that the interpolation is made of, over the reals: polynomials evaluated
by Horner's rule, their derivatives, and the quintic drawn between two knots.
*/
module Funcs {
  import opened Options

  // ---------------------------------------------------------------- functions and derivatives

  /** The polynomial constructor refuses an empty list. */
  type Coefficients = c: seq<real> | |c| > 0 witness [0.0]

  datatype Normalize = Normalize(x: real, y: real, dx: real, dy: real) {
    function SlopeInto(m: real): real requires dy != 0.0 { m * dx / dy }
    function SlopeOutOf(m: real): real requires dx != 0.0 { m * dy / dx }
    function XInto(at: real): real requires dx != 0.0 { (at - x) / dx }
    function YOutOf(v: real): real { v * dy + y }
  }

  /** The coordinates of a segment that is neither upright nor flat. */
  type Axes = n: Normalize | n.dx != 0.0 && n.dy != 0.0 witness Normalize(0.0, 0.0, 1.0, 1.0)

  datatype Func =
    | ConstFunc(value: real)
    | PolyFunc(coef: Coefficients)
    | Quint(norm: Axes, f: Func)
    | QuintDeriv(norm: Axes, f: Func)

  function Value(f: Func, x: real): real {
    match f
    case ConstFunc(v) => v
    case PolyFunc(c) => PolyValue(c, x)
    case Quint(n, g) => n.YOutOf(Value(g, n.XInto(x)))
    case QuintDeriv(n, g) => n.SlopeOutOf(Value(g, n.XInto(x)))
  }

  lemma KnotsInto(n: Axes)
    ensures n.XInto(n.x) == 0.0 && n.XInto(n.x + n.dx) == 1.0
  {
    assert n.x + n.dx - n.x == n.dx;
    OverItself(n.dx);
  }

  lemma OverItself(a: real)
    requires a != 0.0
    ensures a / a == 1.0
  {
  }

  /** There is no second derivative of a quintic segment. */
  function Derivative(f: Func): Option<Func> {
    match f
    case ConstFunc(_) => Some(ConstFunc(0.0))
    case PolyFunc(c) => Some(if |c| == 1 then ConstFunc(0.0) else PolyFunc(DerivCoef(c)))
    case Quint(n, g) => if Derivative(g).Some? then Some(QuintDeriv(n, Derivative(g).value)) else None
    case QuintDeriv(_, _) => None
  }

  function Pow(x: real, k: nat): real {
    if k == 0 then 1.0 else x * Pow(x, k - 1)
  }

  /** The sum of the terms, highest power first. */
  function PolyValue(c: Coefficients, x: real): real {
    if |c| == 1 then c[0] else c[0] * Pow(x, |c| - 1) + PolyValue(c[1..], x)
  }

  lemma {:induction false} Horner(c: Coefficients, a: real, x: real)
    ensures PolyValue(c + [a], x) == PolyValue(c, x) * x + a
  {
    if |c| == 1 {
      assert (c + [a])[1..] == [a] && Pow(x, 1) == x * Pow(x, 0);
    } else {
      assert (c + [a])[1..] == c[1..] + [a];
      Horner(c[1..], a, x);
      assert c[0] * Pow(x, |c|) == c[0] * Pow(x, |c| - 1) * x;
    }
  }

  method EvalPoly(c: Coefficients, x: real) returns (v: real)
    ensures v == PolyValue(c, x)
  {
    v := c[0];
    for i := 1 to |c|
      invariant v == PolyValue(c[..i], x)
    {
      Horner(c[..i], c[i], x);
      assert c[..i + 1] == c[..i] + [c[i]];
      v := v * x;
      v := v + c[i];
    }
    assert c[..|c|] == c;
  }

  /** The coefficients of the derivative; a constant has the derivative zero. */
  function DerivCoef(c: Coefficients): Coefficients {
    if |c| == 1 then [0.0] else seq(|c| - 1, i requires 0 <= i < |c| => (|c| - 1 - i) as real * c[i])
  }

  method DerivPoly(c: Coefficients) returns (f: Func)
    ensures Derivative(PolyFunc(c)) == Some(f)
  {
    var n := |c| - 1;
    if n == 0 { return ConstFunc(0.0); }
    var coef := new real[n];
    for i := 0 to n
      invariant forall k :: 0 <= k < i ==> coef[k] == DerivCoef(c)[k]
    {
      coef[i] := (n - i) as real * c[i];
    }
    assert coef[..] == DerivCoef(c);
    f := PolyFunc(coef[..]);
  }

  /** The slope of the secant through x and y, as a polynomial in both. */
  function Secant(c: Coefficients, x: real, y: real): real {
    if |c| == 1 then 0.0 else PolyValue(c[..|c| - 1], y) + x * Secant(c[..|c| - 1], x, y)
  }

  lemma {:induction false} SecantSpansDifference(c: Coefficients, x: real, y: real)
    ensures PolyValue(c, y) - PolyValue(c, x) == (y - x) * Secant(c, x, y)
  {
    if |c| > 1 {
      var b := c[..|c| - 1];
      assert c == b + [c[|c| - 1]];
      Horner(b, c[|c| - 1], x);
      Horner(b, c[|c| - 1], y);
      SecantSpansDifference(b, x, y);
      var p, q, r := PolyValue(b, x), PolyValue(b, y), Secant(b, x, y);
      assert y * q - x * p == (y - x) * q + x * (q - p);
      assert x * ((y - x) * r) == (y - x) * (x * r);
    }
  }

  lemma {:induction false} SumOfValues(a: Coefficients, b: Coefficients, c: Coefficients, x: real)
    requires |a| == |b| == |c| && forall i :: 0 <= i < |a| ==> c[i] == a[i] + b[i]
    ensures PolyValue(c, x) == PolyValue(a, x) + PolyValue(b, x)
  {
    if |a| > 1 {
      SumOfValues(a[1..], b[1..], c[1..], x);
      assert c[0] * Pow(x, |a| - 1) == a[0] * Pow(x, |a| - 1) + b[0] * Pow(x, |a| - 1);
    }
  }

  lemma OneMoreTime(n: nat, a: real)
    ensures (n + 1) as real * a == n as real * a + a
  {
  }

  lemma DerivCoefGrows(c: Coefficients)
    requires |c| > 2
    ensures var b := c[..|c| - 1];
            && |DerivCoef(c)| == |b| == |DerivCoef(b)| + 1
            && forall i :: 0 <= i < |b| ==> DerivCoef(c)[i] == (DerivCoef(b) + [0.0])[i] + b[i]
  {
    var b := c[..|c| - 1];
    forall i | 0 <= i < |b|
      ensures DerivCoef(c)[i] == (DerivCoef(b) + [0.0])[i] + b[i]
    {
      OneMoreTime(|b| - 1 - i, b[i]);
    }
  }

  lemma TangentOfLine(c: Coefficients, x: real)
    requires |c| == 2
    ensures Secant(c, x, x) == PolyValue(DerivCoef(c), x)
  {
    assert c[..1] == [c[0]];
    assert DerivCoef(c) == [1.0 * c[0]];
  }

  /** Where the two points meet the secant is the tangent: `DerivCoef` is the derivative. */
  lemma {:induction false} TangentIsDerivative(c: Coefficients, x: real)
    ensures Secant(c, x, x) == PolyValue(DerivCoef(c), x)
  {
    if |c| == 2 {
      TangentOfLine(c, x);
    } else if |c| > 2 {
      var b := c[..|c| - 1];
      TangentIsDerivative(b, x);
      Horner(DerivCoef(b), 0.0, x);
      DerivCoefGrows(c);
      SumOfValues(DerivCoef(b) + [0.0], b, DerivCoef(c), x);
    }
  }

  // ---------------------------------------------------------------- one normalised segment

  /** The drawn quintic with end slopes m0 and m1 on the unit square. */
  function QuintCoef(m0: real, m1: real): Coefficients {
    [6.0 - 3.0 * m0 - 3.0 * m1, -15.0 + 8.0 * m0 + 7.0 * m1, 10.0 - 6.0 * m0 - 4.0 * m1, 0.0, m0, 0.0]
  }

  // The three curves that the quintic blends, with weights m0, m1 and 2 - m0 - m1.
  function StartCurve(): Coefficients { [0.0, 0.5, -1.0, 0.0, 1.0, 0.0] }
  function EndCurve(): Coefficients { [0.0, -0.5, 1.0, 0.0, 0.0, 0.0] }
  function MiddleCurve(): Coefficients { [3.0, -7.5, 5.0, 0.0, 0.0, 0.0] }

  function Blend(m0: real, m1: real, a: real, b: real, c: real): real {
    m0 * a + m1 * b + (2.0 - m0 - m1) * c
  }

  lemma BlendScales(m0: real, m1: real, a: real, b: real, c: real, k: real)
    ensures Blend(m0, m1, a * k, b * k, c * k) == Blend(m0, m1, a, b, c) * k
  {
  }

  lemma BlendAdds(m0: real, m1: real, a: real, b: real, c: real, x: real, y: real, z: real)
    ensures Blend(m0, m1, a + x, b + y, c + z) == Blend(m0, m1, a, b, c) + Blend(m0, m1, x, y, z)
  {
  }

  lemma Product(a: real, b: real)
    requires a >= 0.0 && b >= 0.0
    ensures a * b >= 0.0
  {
  }

  lemma BlendRises(m0: real, m1: real, a: real, b: real, c: real, x: real, y: real, z: real)
    requires m0 >= 0.0 && m1 >= 0.0 && m0 + m1 <= 2.0 && a <= x && b <= y && c <= z
    ensures Blend(m0, m1, a, b, c) <= Blend(m0, m1, x, y, z)
  {
    Product(m0, x - a);
    Product(m1, y - b);
    Product(2.0 - m0 - m1, z - c);
  }

  lemma {:induction false} BlendOfValues(m0: real, m1: real, a: Coefficients, b: Coefficients, c: Coefficients,
                                         d: Coefficients, t: real)
    requires |a| == |b| == |c| == |d| && forall i :: 0 <= i < |a| ==> d[i] == Blend(m0, m1, a[i], b[i], c[i])
    ensures PolyValue(d, t) == Blend(m0, m1, PolyValue(a, t), PolyValue(b, t), PolyValue(c, t))
  {
    if |a| > 1 {
      BlendOfValues(m0, m1, a[1..], b[1..], c[1..], d[1..], t);
      var k := Pow(t, |a| - 1);
      BlendScales(m0, m1, a[0], b[0], c[0], k);
      assert PolyValue(d, t) == d[0] * k + PolyValue(d[1..], t) && d[0] == Blend(m0, m1, a[0], b[0], c[0]);
      BlendAdds(m0, m1, a[0] * k, b[0] * k, c[0] * k, PolyValue(a[1..], t), PolyValue(b[1..], t), PolyValue(c[1..], t));
    }
  }

  lemma DerivOfSix(c: Coefficients)
    requires |c| == 6
    ensures DerivCoef(c) == [5.0 * c[0], 4.0 * c[1], 3.0 * c[2], 2.0 * c[3], 1.0 * c[4]]
  {
    var d := DerivCoef(c);
    assert |d| == 5 && d[0] == 5.0 * c[0] && d[1] == 4.0 * c[1] && d[2] == 3.0 * c[2] && d[3] == 2.0 * c[3]
        && d[4] == 1.0 * c[4];
  }

  lemma QuintIsBlend(m0: real, m1: real)
    ensures forall i :: 0 <= i < 6 ==>
              QuintCoef(m0, m1)[i] == Blend(m0, m1, StartCurve()[i], EndCurve()[i], MiddleCurve()[i])
  {
  }

  lemma QuintValueIsBlend(m0: real, m1: real, t: real)
    ensures PolyValue(QuintCoef(m0, m1), t) ==
            Blend(m0, m1, PolyValue(StartCurve(), t), PolyValue(EndCurve(), t), PolyValue(MiddleCurve(), t))
  {
    QuintIsBlend(m0, m1);
    BlendOfValues(m0, m1, StartCurve(), EndCurve(), MiddleCurve(), QuintCoef(m0, m1), t);
  }

  lemma QuintDerivIsBlend(m0: real, m1: real, t: real)
    ensures PolyValue(DerivCoef(QuintCoef(m0, m1)), t) ==
            Blend(m0, m1, PolyValue(DerivCoef(StartCurve()), t), PolyValue(DerivCoef(EndCurve()), t),
                  PolyValue(DerivCoef(MiddleCurve()), t))
  {
    var a, b, c, d := StartCurve(), EndCurve(), MiddleCurve(), QuintCoef(m0, m1);
    QuintIsBlend(m0, m1);
    forall i | 0 <= i < 5
      ensures DerivCoef(d)[i] == Blend(m0, m1, DerivCoef(a)[i], DerivCoef(b)[i], DerivCoef(c)[i])
    {
      BlendScales(m0, m1, a[i], b[i], c[i], (5 - i) as real);
    }
    BlendOfValues(m0, m1, DerivCoef(a), DerivCoef(b), DerivCoef(c), DerivCoef(d), t);
  }

  lemma FiveTerms(a: real, b: real, c: real, d: real, e: real, t: real)
    ensures PolyValue([a, b, c, d, e], t) == (((a * t + b) * t + c) * t + d) * t + e
  {
    assert [a] + [b] == [a, b] && [a, b] + [c] == [a, b, c] && [a, b, c] + [d] == [a, b, c, d];
    assert [a, b, c, d] + [e] == [a, b, c, d, e];
    Horner([a], b, t);
    Horner([a, b], c, t);
    Horner([a, b, c], d, t);
    Horner([a, b, c, d], e, t);
  }

  lemma SixTerms(a: real, b: real, c: real, d: real, e: real, f: real, t: real)
    ensures PolyValue([a, b, c, d, e, f], t) == ((((a * t + b) * t + c) * t + d) * t + e) * t + f
  {
    assert [a, b, c, d, e] + [f] == [a, b, c, d, e, f];
    FiveTerms(a, b, c, d, e, t);
    Horner([a, b, c, d, e], f, t);
  }

  lemma StartSlope(t: real)
    ensures PolyValue(DerivCoef(StartCurve()), t) == (1.0 - t) * (1.0 - t) * (1.0 + 2.0 * t)
  {
    DerivOfSix(StartCurve());
    FiveTerms(0.0, 2.0, -3.0, 0.0, 1.0, t);
  }

  lemma EndSlope(t: real)
    ensures PolyValue(DerivCoef(EndCurve()), t) == t * t * (3.0 - 2.0 * t)
  {
    DerivOfSix(EndCurve());
    FiveTerms(0.0, -2.0, 3.0, 0.0, 0.0, t);
  }

  lemma MiddleSlope(t: real)
    ensures PolyValue(DerivCoef(MiddleCurve()), t) == 15.0 * (t * t * ((1.0 - t) * (1.0 - t)))
  {
    DerivOfSix(MiddleCurve());
    FiveTerms(15.0, -30.0, 15.0, 0.0, 0.0, t);
  }

  /** The derivative as a combination of terms that are not negative on the unit interval. */
  lemma QuintSlope(m0: real, m1: real, t: real)
    ensures PolyValue(DerivCoef(QuintCoef(m0, m1)), t) ==
            Blend(m0, m1, (1.0 - t) * (1.0 - t) * (1.0 + 2.0 * t), t * t * (3.0 - 2.0 * t),
                  15.0 * (t * t * ((1.0 - t) * (1.0 - t))))
  {
    QuintDerivIsBlend(m0, m1, t);
    StartSlope(t);
    EndSlope(t);
    MiddleSlope(t);
  }

  lemma QuintSlopeNotNegative(m0: real, m1: real, t: real)
    requires m0 >= 0.0 && m1 >= 0.0 && m0 + m1 <= 2.0 && 0.0 <= t <= 1.0
    ensures PolyValue(DerivCoef(QuintCoef(m0, m1)), t) >= 0.0
  {
    QuintDerivIsBlend(m0, m1, t);
    SlopePartsNotNegative(t);
    BlendRises(m0, m1, 0.0, 0.0, 0.0, PolyValue(DerivCoef(StartCurve()), t), PolyValue(DerivCoef(EndCurve()), t),
               PolyValue(DerivCoef(MiddleCurve()), t));
  }

  lemma SlopePartsNotNegative(t: real)
    requires 0.0 <= t <= 1.0
    ensures PolyValue(DerivCoef(StartCurve()), t) >= 0.0 && PolyValue(DerivCoef(EndCurve()), t) >= 0.0
    ensures PolyValue(DerivCoef(MiddleCurve()), t) >= 0.0
  {
    StartSlope(t);
    EndSlope(t);
    MiddleSlope(t);
    Product(t, t);
    Product(1.0 - t, 1.0 - t);
    Product(t * t, (1.0 - t) * (1.0 - t));
    Product((1.0 - t) * (1.0 - t), 1.0 + 2.0 * t);
    Product(t * t, 3.0 - 2.0 * t);
  }

  function EndTerms(t: real): real { t * t * t - 0.5 * t * t * t * t }
  function MiddleTerms(t: real): real { 5.0 * t * t * t - 7.5 * t * t * t * t + 3.0 * t * t * t * t * t }

  lemma EndTermsRise(s: real, t: real)
    requires 0.0 <= s <= t <= 1.0
    ensures EndTerms(s) <= EndTerms(t)
  {
    var k := (t * t + s * s) * (1.0 - 0.5 * (s + t)) + s * t;
    assert EndTerms(t) - EndTerms(s) == (t - s) * k;
    Product(t, t);
    Product(s, s);
    Product(s, t);
    Product(t * t + s * s, 1.0 - 0.5 * (s + t));
    Product(t - s, k);
  }

  /** The factor is the mean of 15 x^2 (1-x)^2 from s to t, as products that are not negative. */
  lemma MiddleTermsRise(s: real, t: real)
    requires 0.0 <= s <= t <= 1.0
    ensures MiddleTerms(s) <= MiddleTerms(t)
  {
    var u, v := 1.0 - t, 1.0 - s;
    var p, q, r := s * v, s * u + t * v, t * u;
    var k := 3.0 * (p * p) + 1.5 * (p * q) + 0.5 * (q * q) + p * r + 1.5 * (r * q) + 3.0 * (r * r);
    Product(s, v);
    Product(s, u);
    Product(t, v);
    Product(t, u);
    Product(p, p);
    Product(p, q);
    Product(q, q);
    Product(p, r);
    Product(r, q);
    Product(r, r);
    Product(t - s, k);
    assert MiddleTerms(t) - MiddleTerms(s) == (t - s) * k;
  }

  lemma EndCurveValue(t: real)
    ensures PolyValue(EndCurve(), t) == EndTerms(t)
  {
    SixTerms(0.0, -0.5, 1.0, 0.0, 0.0, 0.0, t);
  }

  lemma MiddleCurveValue(t: real)
    ensures PolyValue(MiddleCurve(), t) == MiddleTerms(t)
  {
    SixTerms(3.0, -7.5, 5.0, 0.0, 0.0, 0.0, t);
  }

  lemma EndCurveRises(s: real, t: real)
    requires 0.0 <= s <= t <= 1.0
    ensures PolyValue(EndCurve(), s) <= PolyValue(EndCurve(), t)
  {
    EndCurveValue(s);
    EndCurveValue(t);
    EndTermsRise(s, t);
  }

  lemma StartCurveIsEndCurveTurned(t: real)
    ensures PolyValue(StartCurve(), t) == 0.5 - PolyValue(EndCurve(), 1.0 - t)
  {
    SixTerms(0.0, 0.5, -1.0, 0.0, 1.0, 0.0, t);
    SixTerms(0.0, -0.5, 1.0, 0.0, 0.0, 0.0, 1.0 - t);
  }

  lemma StartCurveRises(s: real, t: real)
    requires 0.0 <= s <= t <= 1.0
    ensures PolyValue(StartCurve(), s) <= PolyValue(StartCurve(), t)
  {
    StartCurveIsEndCurveTurned(s);
    StartCurveIsEndCurveTurned(t);
    EndCurveRises(1.0 - t, 1.0 - s);
  }

  lemma MiddleCurveRises(s: real, t: real)
    requires 0.0 <= s <= t <= 1.0
    ensures PolyValue(MiddleCurve(), s) <= PolyValue(MiddleCurve(), t)
  {
    MiddleCurveValue(s);
    MiddleCurveValue(t);
    MiddleTermsRise(s, t);
  }

  /** With end slopes that are not negative and sum to at most two the quintic never falls. */
  lemma QuintRises(m0: real, m1: real, s: real, t: real)
    requires m0 >= 0.0 && m1 >= 0.0 && m0 + m1 <= 2.0 && 0.0 <= s <= t <= 1.0
    ensures PolyValue(QuintCoef(m0, m1), s) <= PolyValue(QuintCoef(m0, m1), t)
  {
    QuintValueIsBlend(m0, m1, s);
    QuintValueIsBlend(m0, m1, t);
    StartCurveRises(s, t);
    EndCurveRises(s, t);
    MiddleCurveRises(s, t);
    BlendRises(m0, m1, PolyValue(StartCurve(), s), PolyValue(EndCurve(), s), PolyValue(MiddleCurve(), s),
               PolyValue(StartCurve(), t), PolyValue(EndCurve(), t), PolyValue(MiddleCurve(), t));
  }

  lemma QuintEnds(m0: real, m1: real)
    ensures PolyValue(QuintCoef(m0, m1), 0.0) == 0.0 && PolyValue(QuintCoef(m0, m1), 1.0) == 1.0
  {
    SixTerms(6.0 - 3.0 * m0 - 3.0 * m1, -15.0 + 8.0 * m0 + 7.0 * m1, 10.0 - 6.0 * m0 - 4.0 * m1, 0.0, m0, 0.0, 0.0);
    SixTerms(6.0 - 3.0 * m0 - 3.0 * m1, -15.0 + 8.0 * m0 + 7.0 * m1, 10.0 - 6.0 * m0 - 4.0 * m1, 0.0, m0, 0.0, 1.0);
  }

  lemma QuintEndSlopes(m0: real, m1: real)
    ensures PolyValue(DerivCoef(QuintCoef(m0, m1)), 0.0) == m0 && PolyValue(DerivCoef(QuintCoef(m0, m1)), 1.0) == m1
  {
    QuintSlope(m0, m1, 0.0);
    QuintSlope(m0, m1, 1.0);
  }

  lemma QuintDensity(n: Axes, c: Coefficients, x: real)
    requires |c| > 1
    ensures Derivative(Quint(n, PolyFunc(c))) == Some(QuintDeriv(n, PolyFunc(DerivCoef(c))))
    ensures Value(QuintDeriv(n, PolyFunc(DerivCoef(c))), x) == n.SlopeOutOf(PolyValue(DerivCoef(c), n.XInto(x)))
  {
  }
}
