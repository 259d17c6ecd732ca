/** The piecewise linear distribution function that samples are tested against, over the reals. */
module LinearInterpolation {
  import opened Options
  import opened Funcs
  import opened MonotoneInterpolation
  import KS = KolmogorovSmirnov
  import Samples

  // ---------------------------------------------------------------- polynomials of the segments

  method Eval(cs: seq<real>, x: real) returns (out: real)
    ensures out == if |cs| == 0 then 0.0 else PolyValue(cs, x)
  {
    if |cs| == 0 { return 0.0; }
    out := cs[0];
    for i := 1 to |cs|
      invariant out == PolyValue(cs[..i], x)
    {
      Horner(cs[..i], cs[i], x);
      assert cs[..i + 1] == cs[..i] + [cs[i]];
      out := out * x + cs[i];
    }
    assert cs[..|cs|] == cs;
  }

  function LinearPoly(x1: real, y1: real, x2: real, y2: real): Coefficients
    requires x1 != x2
  {
    var m := (y2 - y1) / (x2 - x1);
    [m, y1 - m * x1]
  }

  /** None where the code divides by zero. */
  function Line(x1: real, y1: real, x2: real, y2: real): Option<Coefficients> {
    if x1 == x2 then None else Some(LinearPoly(x1, y1, x2, y2))
  }

  lemma OnTheLine(x1: real, y1: real, x2: real, y2: real, x: real)
    requires x1 < x2
    ensures PolyValue(LinearPoly(x1, y1, x2, y2), x) == y1 + (y2 - y1) / (x2 - x1) * (x - x1)
  {
    var c := LinearPoly(x1, y1, x2, y2);
    Horner([c[0]], c[1], x);
    assert [c[0]] + [c[1]] == c;
  }

  // ---------------------------------------------------------------- the distribution function

  function Search(xs: seq<real>, ys: seq<real>, x: real, i: nat): real
    requires Ascending(xs) && |xs| == |ys| && 1 <= i <= |xs|
    decreases |xs| - i
  {
    if i == |xs| then 1.0
    else if x <= xs[i] then PolyValue(LinearPoly(xs[i - 1], ys[i - 1], xs[i], ys[i]), x)
    else Search(xs, ys, x, i + 1)
  }

  function Cdf(xs: seq<real>, ys: seq<real>, x: real): real
    requires Ascending(xs) && |xs| == |ys| >= 1
  {
    if x < xs[0] then 0.0 else Search(xs, ys, x, 1)
  }

  function ValueAt(line: Option<Coefficients>, x: real): Option<real> {
    match line
    case None => None
    case Some(cs) => Some(PolyValue(cs, x))
  }

  function SearchAny(xs: seq<real>, ys: seq<real>, x: real, i: nat): Option<real>
    requires |xs| == |ys| && 1 <= i <= |xs|
    decreases |xs| - i
  {
    if i == |xs| then Some(1.0)
    else if x <= xs[i] then ValueAt(Line(xs[i - 1], ys[i - 1], xs[i], ys[i]), x)
    else SearchAny(xs, ys, x, i + 1)
  }

  /** The value for any knots, in whatever order. */
  function Evaluated(xs: seq<real>, ys: seq<real>, x: real): Option<real>
    requires |xs| == |ys| >= 1
  {
    if x < xs[0] then Some(0.0) else SearchAny(xs, ys, x, 1)
  }

  lemma {:induction false} SearchInOrder(xs: seq<real>, ys: seq<real>, x: real, i: nat)
    requires Ascending(xs) && |xs| == |ys| && 1 <= i <= |xs|
    ensures SearchAny(xs, ys, x, i) == Some(Search(xs, ys, x, i))
    decreases |xs| - i
  {
    if i < |xs| {
      assert xs[i - 1] < xs[i - 1 + 1];
      if x > xs[i] { SearchInOrder(xs, ys, x, i + 1); }
    }
  }

  /** Strictly ascending knots always have a value. */
  lemma EvaluatedIsCdf(xs: seq<real>, ys: seq<real>, x: real)
    requires Ascending(xs) && |xs| == |ys| >= 1
    ensures Evaluated(xs, ys, x) == Some(Cdf(xs, ys, x))
  {
    SearchInOrder(xs, ys, x, 1);
  }

  lemma {:induction false} SearchPastTies(xs: seq<real>, ys: seq<real>, x: real, i: nat)
    requires Rising(xs) && |xs| == |ys| && 1 <= i <= |xs| && xs[i - 1] < x
    ensures SearchAny(xs, ys, x, i).Some?
    decreases |xs| - i
  {
    if i < |xs| && x > xs[i] { SearchPastTies(xs, ys, x, i + 1); }
  }

  /** Knots that never fall fail at one point only: the first knot, if the second has the same place. */
  lemma TiedKnotsFailAtTheStart(xs: seq<real>, ys: seq<real>, x: real)
    requires Rising(xs) && |xs| == |ys| >= 2
    ensures Evaluated(xs, ys, x).None? <==> x == xs[0] == xs[1]
  {
    assert xs[0] <= xs[0 + 1];
    if xs[0] < x { SearchPastTies(xs, ys, x, 1); }
  }

  /** The function that the interpolation returns, with what it captured. */
  class Interpolant {
    const xs: seq<real>
    const poly: seq<Option<Coefficients>>

    constructor (xs: seq<real>, poly: seq<Option<Coefficients>>)
      ensures this.xs == xs && this.poly == poly
    {
      this.xs, this.poly := xs, poly;
    }

    ghost predicate Interpolates(ys: seq<real>) {
      && |xs| == |ys| >= 2 && |poly| == |xs| - 1
      && forall i :: 0 <= i < |poly| ==> poly[i] == Line(xs[i], ys[i], xs[i + 1], ys[i + 1])
    }

    method At(x: real, ghost ys: seq<real>) returns (p: Option<real>)
      requires Interpolates(ys)
      ensures p == Evaluated(xs, ys, x)
    {
      if x < xs[0] { return Some(0.0); }
      for i := 0 to |xs| - 1
        invariant SearchAny(xs, ys, x, 1) == SearchAny(xs, ys, x, i + 1)
      {
        if x <= xs[i + 1] {
          if poly[i].None? { return None; }
          var y := Eval(poly[i].value, x);
          return Some(y);
        }
      }
      return Some(1.0);
    }
  }

  /** Two knots are needed, one value each. */
  method Interpolate(xs: seq<real>, ys: seq<real>) returns (r: Option<Interpolant>)
    requires |xs| == |ys|
    ensures r.Some? <==> |xs| >= 2
    ensures r.Some? ==> r.value.xs == xs && r.value.Interpolates(ys)
  {
    var n := |xs|;
    if n < 2 { return None; }
    var poly := new Option<Coefficients>[n - 1](_ => None);
    for i := 0 to n - 1
      invariant forall k :: 0 <= k < i ==> poly[k] == Line(xs[k], ys[k], xs[k + 1], ys[k + 1])
    {
      poly[i] := Line(xs[i], ys[i], xs[i + 1], ys[i + 1]);
    }
    var f := new Interpolant(xs, poly[..]);
    r := Some(f);
  }

  // ---------------------------------------------------------------- it is a distribution function

  ghost predicate Proportions(ys: seq<real>) {
    Rising(ys) && forall i :: 0 <= i < |ys| ==> 0.0 <= ys[i] <= 1.0
  }

  lemma LineRises(x1: real, y1: real, x2: real, y2: real, x: real, y: real)
    requires x1 < x2 && y1 <= y2 && x1 <= x <= y <= x2
    ensures var c := LinearPoly(x1, y1, x2, y2); y1 <= PolyValue(c, x) <= PolyValue(c, y) <= y2
  {
    var m := (y2 - y1) / (x2 - x1);
    OnTheLine(x1, y1, x2, y2, x);
    OnTheLine(x1, y1, x2, y2, y);
    assert m * (x2 - x1) == y2 - y1;
    Product(m, x - x1);
    Product(m, y - x);
    Product(m, x2 - y);
  }

  /** The segment that the search finds. */
  lemma {:induction false} Found(xs: seq<real>, ys: seq<real>, x: real, i: nat) returns (k: nat)
    requires Ascending(xs) && |xs| == |ys| && 1 <= i <= |xs| && xs[i - 1] <= x
    ensures i <= k <= |xs| && xs[k - 1] <= x && (k < |xs| ==> x <= xs[k])
    ensures Search(xs, ys, x, i) == if k == |xs| then 1.0
            else PolyValue(LinearPoly(xs[k - 1], ys[k - 1], xs[k], ys[k]), x)
    ensures k > i ==> xs[k - 1] < x
    decreases |xs| - i
  {
    if i == |xs| || x <= xs[i] { k := i; } else { k := Found(xs, ys, x, i + 1); }
  }

  lemma {:induction false} AscendingBetween(xs: seq<real>, i: nat, j: nat)
    requires Ascending(xs) && i <= j < |xs|
    ensures xs[i] <= xs[j] && (i < j ==> xs[i] < xs[j])
  {
    if i < j {
      AscendingBetween(xs, i, j - 1);
      assert xs[j - 1] < xs[j - 1 + 1];
    }
  }

  lemma SegmentAt(xs: seq<real>, ys: seq<real>, x: real) returns (k: nat)
    requires Ascending(xs) && Proportions(ys) && |xs| == |ys| >= 2 && xs[0] <= x
    ensures 1 <= k <= |xs| && xs[k - 1] <= x && (k < |xs| ==> x <= xs[k])
    ensures k == |xs| ==> Cdf(xs, ys, x) == 1.0
    ensures k < |xs| ==> Cdf(xs, ys, x) == PolyValue(LinearPoly(xs[k - 1], ys[k - 1], xs[k], ys[k]), x)
                         && ys[k - 1] <= Cdf(xs, ys, x) <= ys[k]
  {
    k := Found(xs, ys, x, 1);
    if k < |xs| {
      assert xs[k - 1] < xs[k - 1 + 1] && ys[k - 1] <= ys[k - 1 + 1];
      LineRises(xs[k - 1], ys[k - 1], xs[k], ys[k], x, x);
    }
  }

  lemma CdfRises(xs: seq<real>, ys: seq<real>, x: real, y: real)
    requires Ascending(xs) && Proportions(ys) && |xs| == |ys| >= 2 && x <= y
    ensures 0.0 <= Cdf(xs, ys, x) <= Cdf(xs, ys, y) <= 1.0
  {
    if xs[0] <= y {
      var l := SegmentAt(xs, ys, y);
      if xs[0] <= x {
        var k := SegmentAt(xs, ys, x);
        if l < |xs| {
          if k > l { AscendingBetween(xs, l, k - 1); }
          if k < l { YsRise(ys, k, l - 1); }
          if k == l { LineRises(xs[k - 1], ys[k - 1], xs[k], ys[k], x, y); }
        }
      }
    }
  }

  /** For knots in order and proportions in order it is what the test asks of a reference. */
  lemma InterpolationIsCdf(xs: seq<real>, ys: seq<real>)
    requires Ascending(xs) && Proportions(ys) && |xs| == |ys| >= 2
    ensures KS.IsCdf(x => Cdf(xs, ys, x))
  {
    var F := x => Cdf(xs, ys, x);
    forall x, y | x <= y
      ensures F(x) <= F(y)
    {
      CdfRises(xs, ys, x, y);
    }
    forall x
      ensures 0.0 <= F(x) <= 1.0
    {
      CdfRises(xs, ys, x, x);
    }
  }

  /** It passes through its knots. */
  lemma CdfMeetsKnots(xs: seq<real>, ys: seq<real>, i: nat)
    requires Ascending(xs) && Proportions(ys) && |xs| == |ys| >= 2 && i < |xs|
    ensures Cdf(xs, ys, xs[i]) == ys[i]
  {
    AscendingBetween(xs, 0, i);
    AscendingBetween(xs, i, |xs| - 1);
    var k := Found(xs, ys, xs[i], 1);
    if i < k - 1 { AscendingBetween(xs, i, k - 1); }
    if k < i { AscendingBetween(xs, k, i); }
    assert xs[k - 1] < xs[k - 1 + 1];
    OnTheLine(xs[k - 1], ys[k - 1], xs[k], ys[k], xs[i]);
  }

  lemma OnSegment(xs: seq<real>, ys: seq<real>, k: nat, z: real)
    requires Ascending(xs) && Proportions(ys) && |xs| == |ys| >= 2 && 1 <= k < |xs| && xs[k - 1] < z <= xs[k]
    ensures Cdf(xs, ys, z) == PolyValue(LinearPoly(xs[k - 1], ys[k - 1], xs[k], ys[k]), z)
  {
    AscendingBetween(xs, 0, k - 1);
    AscendingBetween(xs, k, |xs| - 1);
    var l := Found(xs, ys, z, 1);
    if l < k { AscendingBetween(xs, l, k - 1); }
    if k < l { AscendingBetween(xs, k, l - 1); }
  }

  lemma Quotient(a: real, b: real)
    requires a >= 0.0 && b > 0.0
    ensures a / b >= 0.0
  {
  }

  lemma SegmentIsLine(xs: seq<real>, ys: seq<real>, k: nat) returns (m: real)
    requires Ascending(xs) && Proportions(ys) && |xs| == |ys| >= 2 && 1 <= k < |xs|
    ensures m >= 0.0 && forall z :: xs[k - 1] <= z <= xs[k] ==> Cdf(xs, ys, z) == ys[k - 1] + m * (z - xs[k - 1])
  {
    assert ys[k - 1] <= ys[k - 1 + 1] && xs[k - 1] < xs[k - 1 + 1];
    Quotient(ys[k] - ys[k - 1], xs[k] - xs[k - 1]);
    m := (ys[k] - ys[k - 1]) / (xs[k] - xs[k - 1]);
    forall z | xs[k - 1] <= z <= xs[k]
      ensures Cdf(xs, ys, z) == ys[k - 1] + m * (z - xs[k - 1])
    {
      OnTheLine(xs[k - 1], ys[k - 1], xs[k], ys[k], z);
      if z == xs[k - 1] { CdfMeetsKnots(xs, ys, k - 1); } else { OnSegment(xs, ys, k, z); }
    }
  }

  lemma Share(error: real, m: real) returns (e: real)
    requires m >= 0.0 && error > 0.0
    ensures e > 0.0 && e * (m + 1.0) == error
  {
    e := error / (m + 1.0);
  }

  lemma LineStep(m: real, a: real, b: real, v: real, z: real, e: real, error: real)
    requires m >= 0.0 && e > 0.0 && e * (m + 1.0) == error && z <= v && v - z <= e
    ensures (b + m * (v - a)) - (b + m * (z - a)) < error
  {
    Product(m, e - (v - z));
    assert m * (v - a) - m * (z - a) == m * (v - z);
  }

  lemma SegmentIsContinuous(xs: seq<real>, ys: seq<real>, k: nat, v: real, error: real)
    requires Ascending(xs) && Proportions(ys) && |xs| == |ys| >= 2 && 1 <= k < |xs| && xs[k - 1] < v <= xs[k]
             && error > 0.0
    ensures KS.LeftContinuous(x => Cdf(xs, ys, x), v, error)
  {
    var F := x => Cdf(xs, ys, x);
    var m := SegmentIsLine(xs, ys, k);
    var e := Share(error, m);
    var y := Max(xs[k - 1], v - e);
    forall z | y <= z < v
      ensures F(v) - F(z) < error
    {
      LineStep(m, xs[k - 1], ys[k - 1], v, z, e, error);
    }
    assert KS.Near(F, v, y, error);
  }

  /** From the left the interpolation only jumps at a first knot with a positive proportion. */
  lemma InterpolationIsLeftContinuous(xs: seq<real>, ys: seq<real>, v: real, error: real)
    requires Ascending(xs) && Proportions(ys) && |xs| == |ys| >= 2 && error > 0.0 && (v != xs[0] || ys[0] == 0.0)
    ensures KS.LeftContinuous(x => Cdf(xs, ys, x), v, error)
  {
    var F := x => Cdf(xs, ys, x);
    if v <= xs[0] {
      if v == xs[0] { CdfMeetsKnots(xs, ys, 0); }
      assert forall z :: v - 1.0 <= z < v ==> F(v) - F(z) < error;
      assert KS.Near(F, v, v - 1.0, error);
    } else {
      var k := Found(xs, ys, v, 1);
      if k < |xs| {
        SegmentIsContinuous(xs, ys, k, v, error);
      } else {
        var y := (xs[|xs| - 1] + v) / 2.0;
        forall z | y <= z < v
          ensures F(v) - F(z) < error
        {
          PastTheEnd(xs, ys, z);
          PastTheEnd(xs, ys, v);
        }
        assert KS.Near(F, v, y, error);
      }
    }
  }

  lemma PastTheEnd(xs: seq<real>, ys: seq<real>, z: real)
    requires Ascending(xs) && |xs| == |ys| >= 2 && z > xs[|xs| - 1]
    ensures Cdf(xs, ys, z) == 1.0
  {
    AscendingBetween(xs, 0, |xs| - 1);
    var l := Found(xs, ys, z, 1);
    if l < |xs| { AscendingBetween(xs, l, |xs| - 1); }
  }

  lemma JumpFromTheLeft(xs: seq<real>, ys: seq<real>)
    requires Ascending(xs) && Proportions(ys) && |xs| == |ys| >= 2 && ys[0] != 0.0
    ensures ys[0] > 0.0 && !KS.LeftContinuous(x => Cdf(xs, ys, x), xs[0], ys[0])
  {
    var F := x => Cdf(xs, ys, x);
    CdfMeetsKnots(xs, ys, 0);
    forall y | y < xs[0]
      ensures !KS.Near(F, xs[0], y, ys[0])
    {
      assert F(xs[0]) - F(y) == ys[0];
    }
  }

  ghost predicate LeftContinuousAt(F: real -> real, v: real) {
    forall error :: error > 0.0 ==> KS.LeftContinuous(F, v, error)
  }

  lemma LeftContinuousExactly(xs: seq<real>, ys: seq<real>, v: real)
    requires Ascending(xs) && Proportions(ys) && |xs| == |ys| >= 2
    ensures LeftContinuousAt(x => Cdf(xs, ys, x), v) <==> v != xs[0] || ys[0] == 0.0
  {
    var F := x => Cdf(xs, ys, x);
    if v != xs[0] || ys[0] == 0.0 {
      forall error | error > 0.0
        ensures KS.LeftContinuous(F, v, error)
      {
        InterpolationIsLeftContinuous(xs, ys, v, error);
      }
    } else {
      JumpFromTheLeft(xs, ys);
      assert !KS.LeftContinuous(F, v, ys[0]);
    }
  }

  // ---------------------------------------------------------------- continuity from both sides

  ghost predicate NearRight(F: real -> real, v: real, y: real, error: real) {
    v < y && forall z :: v < z <= y ==> F(z) - F(v) < error
  }

  ghost predicate Within(F: real -> real, v: real, d: real, error: real) {
    d > 0.0 && forall z :: v - d <= z <= v + d ==> KS.Abs(F(z) - F(v)) < error
  }

  /** Continuity, for one size of error. */
  ghost predicate Continuous(F: real -> real, v: real, error: real) {
    exists d :: Within(F, v, d, error)
  }

  ghost predicate ContinuousAt(F: real -> real, v: real) {
    forall error :: error > 0.0 ==> Continuous(F, v, error)
  }

  lemma FromTheRight(xs: seq<real>, ys: seq<real>, v: real, error: real) returns (y: real)
    requires Ascending(xs) && Proportions(ys) && |xs| == |ys| >= 2 && error > 0.0
             && (v != xs[|xs| - 1] || ys[|xs| - 1] == 1.0)
    ensures NearRight(x => Cdf(xs, ys, x), v, y, error)
  {
    var F, last := x => Cdf(xs, ys, x), |xs| - 1;
    if v < xs[0] {
      y := (v + xs[0]) / 2.0;
    } else if v >= xs[last] {
      y := v + 1.0;
      if v == xs[last] { CdfMeetsKnots(xs, ys, last); } else { PastTheEnd(xs, ys, v); }
      forall z | v < z
        ensures F(z) == 1.0
      {
        PastTheEnd(xs, ys, z);
      }
    } else {
      var k := Found(xs, ys, v, 1);
      if v == xs[k] { k := k + 1; }
      assert xs[k - 1] <= v < xs[k];
      y := FromTheRightOnSegment(xs, ys, k, v, error);
    }
  }

  lemma FromTheRightOnSegment(xs: seq<real>, ys: seq<real>, k: nat, v: real, error: real) returns (y: real)
    requires Ascending(xs) && Proportions(ys) && |xs| == |ys| >= 2 && 1 <= k < |xs| && xs[k - 1] <= v < xs[k]
             && error > 0.0
    ensures NearRight(x => Cdf(xs, ys, x), v, y, error)
  {
    var F := x => Cdf(xs, ys, x);
    var m := SegmentIsLine(xs, ys, k);
    var e := Share(error, m);
    y := if v + e <= xs[k] then v + e else xs[k];
    forall z | v < z <= y
      ensures F(z) - F(v) < error
    {
      LineStep(m, xs[k - 1], ys[k - 1], z, v, e, error);
    }
  }

  lemma BothSides(F: real -> real, v: real, y: real, w: real, error: real) returns (d: real)
    requires KS.IsCdf(F) && KS.Near(F, v, y, error) && NearRight(F, v, w, error) && error > 0.0
    ensures Within(F, v, d, error)
  {
    d := if v - y <= w - v then v - y else w - v;
    forall z | v - d <= z <= v + d
      ensures KS.Abs(F(z) - F(v)) < error
    {
      if z < v { assert F(z) <= F(v); } else { assert F(v) <= F(z); }
    }
  }

  lemma JumpIsLarge(xs: seq<real>, ys: seq<real>, d: real)
    requires Ascending(xs) && Proportions(ys) && |xs| == |ys| >= 2
    ensures !Within(x => Cdf(xs, ys, x), xs[|xs| - 1], d, 1.0 - ys[|xs| - 1])
  {
    var F, last := x => Cdf(xs, ys, x), |xs| - 1;
    CdfMeetsKnots(xs, ys, last);
    if d > 0.0 {
      PastTheEnd(xs, ys, xs[last] + d);
      assert KS.Abs(F(xs[last] + d) - F(xs[last])) == 1.0 - ys[last];
    }
  }

  lemma JumpFromTheRight(xs: seq<real>, ys: seq<real>)
    requires Ascending(xs) && Proportions(ys) && |xs| == |ys| >= 2 && ys[|xs| - 1] != 1.0
    ensures ys[|xs| - 1] < 1.0 && !Continuous(x => Cdf(xs, ys, x), xs[|xs| - 1], 1.0 - ys[|xs| - 1])
  {
    var F, last := x => Cdf(xs, ys, x), |xs| - 1;
    if Continuous(F, xs[last], 1.0 - ys[last]) {
      var d :| Within(F, xs[last], d, 1.0 - ys[last]);
      JumpIsLarge(xs, ys, d);
    }
  }

  lemma ContinuousIsLeftContinuous(F: real -> real, v: real, error: real)
    requires Continuous(F, v, error)
    ensures KS.LeftContinuous(F, v, error)
  {
    var d :| Within(F, v, d, error);
    assert forall z :: v - d <= z < v ==> F(v) - F(z) <= KS.Abs(F(z) - F(v));
    assert KS.Near(F, v, v - d, error);
  }

  lemma InterpolationIsContinuous(xs: seq<real>, ys: seq<real>, v: real, error: real)
    requires Ascending(xs) && Proportions(ys) && |xs| == |ys| >= 2 && error > 0.0
    requires (v == xs[0] ==> ys[0] == 0.0) && (v == xs[|xs| - 1] ==> ys[|xs| - 1] == 1.0)
    ensures Continuous(x => Cdf(xs, ys, x), v, error)
  {
    var F := x => Cdf(xs, ys, x);
    InterpolationIsCdf(xs, ys);
    InterpolationIsLeftContinuous(xs, ys, v, error);
    var y :| KS.Near(F, v, y, error);
    var w := FromTheRight(xs, ys, v, error);
    var d := BothSides(F, v, y, w, error);
  }

  /** The interpolation is continuous everywhere but at a first knot whose proportion is not zero and
      a last knot whose proportion is not one. */
  lemma ContinuousExactly(xs: seq<real>, ys: seq<real>, v: real)
    requires Ascending(xs) && Proportions(ys) && |xs| == |ys| >= 2
    ensures ContinuousAt(x => Cdf(xs, ys, x), v) <==>
            (v == xs[0] ==> ys[0] == 0.0) && (v == xs[|xs| - 1] ==> ys[|xs| - 1] == 1.0)
  {
    var F, last := x => Cdf(xs, ys, x), |xs| - 1;
    if v == xs[0] && ys[0] != 0.0 {
      JumpFromTheLeft(xs, ys);
      if Continuous(F, v, ys[0]) { ContinuousIsLeftContinuous(F, v, ys[0]); }
    } else if v == xs[last] && ys[last] != 1.0 {
      JumpFromTheRight(xs, ys);
      assert !Continuous(F, v, 1.0 - ys[last]);
    } else {
      forall error | error > 0.0
        ensures Continuous(F, v, error)
      {
        InterpolationIsContinuous(xs, ys, v, error);
      }
    }
  }

  /** It is the continuous function that the code promises exactly if the knots lead from zero to one. */
  lemma ContinuousFromZeroToOne(xs: seq<real>, ys: seq<real>)
    requires Ascending(xs) && Proportions(ys) && |xs| == |ys| >= 2
    ensures var F := x => Cdf(xs, ys, x); (forall v :: ContinuousAt(F, v)) <==> ys[0] == 0.0 && ys[|ys| - 1] == 1.0
  {
    var F := x => Cdf(xs, ys, x);
    forall v
      ensures ContinuousAt(F, v) <==> (v == xs[0] ==> ys[0] == 0.0) && (v == xs[|xs| - 1] ==> ys[|xs| - 1] == 1.0)
    {
      ContinuousExactly(xs, ys, v);
    }
    if forall v :: ContinuousAt(F, v) { assert ContinuousAt(F, xs[0]) && ContinuousAt(F, xs[|xs| - 1]); }
  }

  /** Against an interpolated reference the statistic of distinct single observations is exactly the
      least upper bound of the differences, if none of them sits on a jump at the first knot. */
  lemma StatisticIsLeastBound(xs: seq<real>, ys: seq<real>, s: seq<Samples.Sample>, error: real) returns (x: real)
    requires Ascending(xs) && Proportions(ys) && |xs| == |ys| >= 2 && error > 0.0
    requires KS.Distinct(s) && KS.Total(s) > 0 && forall k :: 0 <= k < |s| ==> s[k].value != xs[0] || ys[0] == 0.0
    ensures var F, n := (x: real) => Cdf(xs, ys, x), KS.Total(s) as real;
            && KS.Statistic(F, s, n) - error < KS.Abs(KS.Empirical(s, x) - F(x))
            && forall y :: KS.Abs(KS.Empirical(s, y) - F(y)) <= KS.Statistic(F, s, n)
  {
    var F := x => Cdf(xs, ys, x);
    InterpolationIsCdf(xs, ys);
    forall k | 0 <= k < |s|
      ensures KS.LeftContinuous(F, s[k].value, error)
    {
      InterpolationIsLeftContinuous(xs, ys, s[k].value, error);
    }
    x := KS.StatisticIsTight(F, s, error);
    forall y
      ensures KS.Abs(KS.Empirical(s, y) - F(y)) <= KS.Statistic(F, s, KS.Total(s) as real)
    {
      KS.StatisticDominates(F, s, y);
    }
  }
}
