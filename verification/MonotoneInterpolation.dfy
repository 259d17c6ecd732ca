/**
Monotone interpolation of a distribution function between its knots.

`First`, `Kept`, `Second` and `Drawn` say what the two passes make of the slope of a knot, for
any data. For data that never falls they come down to `Left`, the slope that the pass from the
left gives a knot, and `Slope`, the one that is drawn.
*/
module MonotoneInterpolation {
  import opened Options
  import opened Funcs

  ghost predicate Ascending(xs: seq<real>) {
    forall i :: 0 <= i < |xs| - 1 ==> xs[i] < xs[i + 1]
  }

  ghost predicate Rising(ys: seq<real>) {
    forall i :: 0 <= i < |ys| - 1 ==> ys[i] <= ys[i + 1]
  }

  /** No segment stands upright. */
  ghost predicate Drawable(xs: seq<real>, ys: seq<real>)
    requires |xs| == |ys|
  {
    forall i :: 0 <= i < |xs| - 1 && xs[i] == xs[i + 1] ==> ys[i] == ys[i + 1]
  }

  predicate Flat(ys: seq<real>, i: nat)
    requires i + 1 < |ys|
  {
    ys[i] == ys[i + 1]
  }

  function Rise(xs: seq<real>, ys: seq<real>, i: nat): real
    requires Ascending(xs) && |xs| == |ys| && i + 1 < |xs|
  {
    (ys[i + 1] - ys[i]) / (xs[i + 1] - xs[i])
  }

  function Min(a: real, b: real): real { if a <= b then a else b }
  function Max(a: real, b: real): real { if a >= b then a else b }

  function Left(xs: seq<real>, ys: seq<real>, i: nat): real
    requires Ascending(xs) && |xs| == |ys| && i < |xs|
  {
    if i == 0 then 0.0 else Max(2.0 * Rise(xs, ys, i - 1) - Left(xs, ys, i - 1), 0.0)
  }

  /** The slope drawn at a knot; a flat last segment does not flatten the knot before it. */
  function Slope(xs: seq<real>, ys: seq<real>, i: nat): real
    requires Ascending(xs) && |xs| == |ys| && i < |xs|
  {
    if i == 0 || i == |xs| - 1 then 0.0
    else if i == |xs| - 2 && Flat(ys, i) then Left(xs, ys, i)
    else Min(Left(xs, ys, i), 2.0 * Rise(xs, ys, i))
  }

  function AxesOf(xs: seq<real>, ys: seq<real>, i: nat): Axes
    requires |xs| == |ys| && Drawable(xs, ys) && i + 1 < |xs| && !Flat(ys, i)
  {
    Normalize(xs[i], ys[i], xs[i + 1] - xs[i], ys[i + 1] - ys[i])
  }

  function SegmentFor(xs: seq<real>, ys: seq<real>, i: nat, m0: real, m1: real): Func
    requires |xs| == |ys| && Drawable(xs, ys) && i + 1 < |xs|
  {
    if Flat(ys, i) then ConstFunc(ys[i])
    else
      var norm := AxesOf(xs, ys, i);
      Quint(norm, PolyFunc(QuintCoef(norm.SlopeInto(m0), norm.SlopeInto(m1))))
  }

  function Segment(xs: seq<real>, ys: seq<real>, i: nat): Func
    requires Ascending(xs) && |xs| == |ys| && i + 1 < |xs|
  {
    SegmentFor(xs, ys, i, Slope(xs, ys, i), Slope(xs, ys, i + 1))
  }

  // ---------------------------------------------------------------- what the passes do to any data

  /** The slope at one end of a segment, brought into range. */
  function Clamped(n: Axes, m: real): real {
    if n.SlopeInto(m) < 0.0 then n.SlopeOutOf(0.0) else if n.SlopeInto(m) > 2.0 then n.SlopeOutOf(2.0) else m
  }

  /** What that leaves for the slope at its other end. */
  function Opposite(n: Axes, m: real): real {
    n.SlopeOutOf(2.0 - (if n.SlopeInto(m) < 0.0 then 0.0 else if n.SlopeInto(m) > 2.0 then 2.0 else n.SlopeInto(m)))
  }

  /** A knot's slope when the first pass gets there. */
  function First(xs: seq<real>, ys: seq<real>, i: nat): real
    requires |xs| == |ys| && Drawable(xs, ys) && i < |xs|
  {
    if i == 0 || Flat(ys, i - 1) then 0.0 else Opposite(AxesOf(xs, ys, i - 1), First(xs, ys, i - 1))
  }

  /** Its slope after the first pass, which does not look at the last segment. */
  function Kept(xs: seq<real>, ys: seq<real>, i: nat): real
    requires |xs| == |ys| >= 2 && Drawable(xs, ys) && i < |xs|
  {
    if i == |xs| - 1 then 0.0
    else if i == |xs| - 2 then First(xs, ys, i)
    else if Flat(ys, i) then 0.0
    else Clamped(AxesOf(xs, ys, i), First(xs, ys, i))
  }

  /** Its slope when the second pass leaves it to go on to the left. */
  function Second(xs: seq<real>, ys: seq<real>, i: nat): real
    requires |xs| == |ys| >= 2 && Drawable(xs, ys) && i < |xs|
    decreases |xs| - i
  {
    if i == |xs| - 1 || Flat(ys, i) then Kept(xs, ys, i)
    else Min(Opposite(AxesOf(xs, ys, i), Second(xs, ys, i + 1)), Kept(xs, ys, i))
  }

  /** Its slope in the end: the second pass stops at the second knot. */
  function Drawn(xs: seq<real>, ys: seq<real>, i: nat): real
    requires |xs| == |ys| >= 2 && Drawable(xs, ys) && i < |xs|
  {
    if i == 0 then Kept(xs, ys, i)
    else if i == 1 || Flat(ys, i - 1) then Second(xs, ys, i)
    else Clamped(AxesOf(xs, ys, i - 1), Second(xs, ys, i))
  }

  // ---------------------------------------------------------------- slopes in and out of a segment

  lemma SlopeScales(n: Axes, m: real)
    requires n.dx > 0.0 && n.dy > 0.0
    ensures n.dy / n.dx > 0.0 && n.SlopeInto(m) * (n.dy / n.dx) == m && n.SlopeOutOf(m) == m * (n.dy / n.dx)
  {
  }

  lemma ProductOrder(v: real, k: real, s: real)
    requires s > 0.0
    ensures v * s > k * s <==> v > k
    ensures v * s >= k * s <==> v >= k
  {
  }

  /** Comparing in normalised coordinates is comparing with multiples of the rise. */
  lemma SlopeIntoCompares(n: Axes, m: real)
    requires n.dx > 0.0 && n.dy > 0.0
    ensures var s := n.dy / n.dx;
            && (n.SlopeInto(m) < 0.0 <==> m < 0.0) && (n.SlopeInto(m) > 2.0 <==> m > 2.0 * s)
            && n.SlopeOutOf(2.0) == 2.0 * s && n.SlopeOutOf(2.0 - n.SlopeInto(m)) == 2.0 * s - m
            && n.SlopeOutOf(0.0) == 0.0 && n.SlopeOutOf(2.0 - 2.0) == 0.0 && s > 0.0
  {
    var s, v := n.dy / n.dx, n.SlopeInto(m);
    SlopeScales(n, m);
    SlopeScales(n, 2.0);
    SlopeScales(n, 2.0 - v);
    SlopeScales(n, 0.0);
    ProductOrder(v, 2.0, s);
    ProductOrder(v, 0.0, s);
  }

  lemma RiseOf(xs: seq<real>, ys: seq<real>, i: nat)
    requires Ascending(xs) && Rising(ys) && |xs| == |ys| && i + 1 < |xs|
    ensures Rise(xs, ys, i) >= 0.0 && (Flat(ys, i) ==> Rise(xs, ys, i) == 0.0)
    ensures !Flat(ys, i) ==> AxesOf(xs, ys, i).dx > 0.0 && AxesOf(xs, ys, i).dy > 0.0
    ensures !Flat(ys, i) ==> AxesOf(xs, ys, i).dy / AxesOf(xs, ys, i).dx == Rise(xs, ys, i)
  {
    assert xs[i] < xs[i + 1] && ys[i] <= ys[i + 1];
  }

  lemma LeftNotNegative(xs: seq<real>, ys: seq<real>, i: nat)
    requires Ascending(xs) && |xs| == |ys| && i < |xs|
    ensures Left(xs, ys, i) >= 0.0
  {
  }

  /** The slopes at the ends of a segment sum to at most twice its rise, and a flat segment that is
      not the last has none. */
  lemma SlopesFit(xs: seq<real>, ys: seq<real>, i: nat)
    requires Ascending(xs) && Rising(ys) && |xs| == |ys| && i + 1 < |xs|
    ensures Slope(xs, ys, i) >= 0.0 && Slope(xs, ys, i + 1) >= 0.0
    ensures !Flat(ys, i) ==> Slope(xs, ys, i) + Slope(xs, ys, i + 1) <= 2.0 * Rise(xs, ys, i)
    ensures Flat(ys, i) && i < |xs| - 2 ==> Slope(xs, ys, i) == 0.0 && Slope(xs, ys, i + 1) == 0.0
  {
    LeftNotNegative(xs, ys, i);
    LeftNotNegative(xs, ys, i + 1);
    RiseOf(xs, ys, i);
    if i + 2 < |xs| { RiseOf(xs, ys, i + 1); }
  }

  // ---------------------------------------------------------------- the two passes

  predicate IsAxes(xs: seq<real>, ys: seq<real>, ns: seq<Option<Axes>>)
    requires |xs| == |ys| && Drawable(xs, ys)
  {
    && |ns| == |xs| - 1
    && forall i :: 0 <= i < |ns| ==> ns[i] == if Flat(ys, i) then None else Some(AxesOf(xs, ys, i))
  }

  /** The first pass has reached knot i. */
  ghost predicate Passed(xs: seq<real>, ys: seq<real>, ms: seq<real>, i: nat)
    requires |xs| == |ys| == |ms| && Drawable(xs, ys) && i < |xs| - 1
  {
    && ms[i] == First(xs, ys, i)
    && forall k :: 0 <= k < i ==> ms[k] == Kept(xs, ys, k)
  }

  method PassFromLeft(xs: seq<real>, ys: seq<real>, ns: array<Option<Axes>>) returns (ms: array<real>)
    requires |xs| == |ys| >= 2 && Drawable(xs, ys) && IsAxes(xs, ys, ns[..])
    ensures fresh(ms) && ms.Length == |xs|
    ensures forall k :: 0 <= k < |xs| ==> ms[k] == Kept(xs, ys, k)
  {
    var n := |xs|;
    ms := new real[n](_ => 0.0);
    for i := 1 to n - 1
      invariant Passed(xs, ys, ms[..], i - 1)
    {
      assert ns[..][i - 1] == ns[i - 1];
      StepFromLeft(ms, i, ns[i - 1]);
    }
    ms[n - 1] := 0.0;
  }

  method StepFromLeft(ms: array<real>, i: nat, norm: Option<Axes>)
    requires 1 <= i < ms.Length
    modifies ms
    ensures norm.None? ==> ms[..] == old(ms[..])[i - 1 := 0.0][i := 0.0]
    ensures norm.Some? ==>
              ms[..] == old(ms[..])[i - 1 := Clamped(norm.value, old(ms[i - 1]))]
                                   [i := Opposite(norm.value, old(ms[i - 1]))]
  {
    if norm.None? {
      ms[i - 1] := 0.0;
      ms[i] := 0.0;
      return;
    }
    var m0 := norm.value.SlopeInto(ms[i - 1]);
    if m0 < 0.0 {
      m0 := 0.0;
      ms[i - 1] := norm.value.SlopeOutOf(m0);
    } else if m0 > 2.0 {
      m0 := 2.0;
      ms[i - 1] := norm.value.SlopeOutOf(m0);
    }
    var m1 := 2.0 - m0;
    ms[i] := norm.value.SlopeOutOf(m1);
  }

  /** The second pass is done on the right of knot i. */
  ghost predicate Settled(xs: seq<real>, ys: seq<real>, ms: seq<real>, i: nat)
    requires |xs| == |ys| == |ms| && Drawable(xs, ys) && i < |xs| - 1
  {
    && (forall k :: i + 1 < k < |xs| ==> ms[k] == Drawn(xs, ys, k))
    && ms[i + 1] == Second(xs, ys, i + 1)
    && (forall k :: 0 <= k <= i ==> ms[k] == Kept(xs, ys, k))
  }

  lemma SettledFurther(xs: seq<real>, ys: seq<real>, ms: seq<real>, after: seq<real>, i: nat)
    requires |xs| == |ys| == |ms| && Drawable(xs, ys) && 0 < i < |xs| - 1 && Settled(xs, ys, ms, i)
    requires Flat(ys, i) ==> after == ms
    requires !Flat(ys, i) ==>
               var norm := AxesOf(xs, ys, i);
               after == ms[i + 1 := Clamped(norm, ms[i + 1])][i := Min(Opposite(norm, ms[i + 1]), ms[i])]
    ensures |after| == |ms| && Settled(xs, ys, after, i - 1)
  {
  }

  method PassFromRight(xs: seq<real>, ys: seq<real>, ns: array<Option<Axes>>, ms: array<real>)
    requires |xs| == |ys| == ms.Length >= 2 && Drawable(xs, ys) && IsAxes(xs, ys, ns[..]) && (ns as object) != ms
    requires forall k :: 0 <= k < |xs| ==> ms[k] == Kept(xs, ys, k)
    modifies ms
    ensures forall k :: 0 <= k < |xs| ==> ms[k] == Drawn(xs, ys, k)
  {
    var i := |xs| - 2;
    while i > 0
      invariant 0 <= i <= |xs| - 2
      invariant Settled(xs, ys, ms[..], i)
    {
      assert ns[..][i] == ns[i];
      ghost var before := ms[..];
      match ns[i] {
        case None =>
        case Some(norm) =>
          StepFromRight(ms, i, norm);
      }
      SettledFurther(xs, ys, before, ms[..], i);
      i := i - 1;
    }
    assert forall k :: 0 <= k < |xs| ==> ms[..][k] == Drawn(xs, ys, k);
  }

  method StepFromRight(ms: array<real>, i: nat, norm: Axes)
    requires i + 1 < ms.Length
    modifies ms
    ensures ms[..] == old(ms[..])[i + 1 := Clamped(norm, old(ms[i + 1]))]
                                 [i := Min(Opposite(norm, old(ms[i + 1])), old(ms[i]))]
  {
    var m1 := norm.SlopeInto(ms[i + 1]);
    if m1 < 0.0 {
      m1 := 0.0;
      ms[i + 1] := norm.SlopeOutOf(m1);
    } else if m1 > 2.0 {
      m1 := 2.0;
      ms[i + 1] := norm.SlopeOutOf(m1);
    }
    var m0 := 2.0 - m1;
    var out := norm.SlopeOutOf(m0);
    if out < ms[i] {
      ms[i] := out;
    }
  }

  /** The slope at the end of a segment is never clamped, and only the last segment lowers that at its start. */
  lemma RightStep(xs: seq<real>, ys: seq<real>, i: nat)
    requires Ascending(xs) && Rising(ys) && |xs| == |ys| && 0 < i < |xs| - 1
    ensures var m, s := Slope(xs, ys, i + 1), Rise(xs, ys, i);
            && m >= 0.0 && (!Flat(ys, i) ==> Min(m, 2.0 * s) == m)
            && (!Flat(ys, i) && i < |xs| - 2 ==> Min(Max(2.0 * s - m, 0.0), Slope(xs, ys, i)) == Slope(xs, ys, i))
            && (!Flat(ys, i) && i == |xs| - 2 ==> Min(Max(2.0 * s - m, 0.0), Left(xs, ys, i)) == Slope(xs, ys, i))
  {
    SlopesFit(xs, ys, i);
    RiseOf(xs, ys, i);
  }

  /** On a rising segment: at most twice the rise, and what is left of that. */
  lemma ClampedRises(xs: seq<real>, ys: seq<real>, i: nat, m: real)
    requires Ascending(xs) && Rising(ys) && |xs| == |ys| && i + 1 < |xs| && !Flat(ys, i) && m >= 0.0
    ensures Clamped(AxesOf(xs, ys, i), m) == Min(m, 2.0 * Rise(xs, ys, i))
    ensures Opposite(AxesOf(xs, ys, i), m) == Max(2.0 * Rise(xs, ys, i) - m, 0.0)
  {
    RiseOf(xs, ys, i);
    SlopeIntoCompares(AxesOf(xs, ys, i), m);
  }

  lemma {:induction false} FirstIsLeft(xs: seq<real>, ys: seq<real>, i: nat)
    requires Ascending(xs) && Rising(ys) && |xs| == |ys| && i < |xs|
    ensures First(xs, ys, i) == Left(xs, ys, i) >= 0.0
  {
    LeftNotNegative(xs, ys, i);
    if i > 0 {
      FirstIsLeft(xs, ys, i - 1);
      RiseOf(xs, ys, i - 1);
      if !Flat(ys, i - 1) { ClampedRises(xs, ys, i - 1, First(xs, ys, i - 1)); }
    }
  }

  lemma KeptOfRising(xs: seq<real>, ys: seq<real>, i: nat)
    requires Ascending(xs) && Rising(ys) && |xs| == |ys| && i + 2 < |xs|
    ensures Kept(xs, ys, i) == Min(Left(xs, ys, i), 2.0 * Rise(xs, ys, i))
  {
    FirstIsLeft(xs, ys, i);
    RiseOf(xs, ys, i);
    if !Flat(ys, i) { ClampedRises(xs, ys, i, First(xs, ys, i)); }
  }

  lemma {:induction false} SecondIsSlope(xs: seq<real>, ys: seq<real>, i: nat)
    requires Ascending(xs) && Rising(ys) && |xs| == |ys| && 0 < i < |xs|
    ensures Second(xs, ys, i) == Slope(xs, ys, i)
    decreases |xs| - i
  {
    if i < |xs| - 1 {
      SecondIsSlope(xs, ys, i + 1);
      FirstIsLeft(xs, ys, i);
      if i < |xs| - 2 { KeptOfRising(xs, ys, i); }
      RiseOf(xs, ys, i);
      RightStep(xs, ys, i);
      if !Flat(ys, i) { ClampedRises(xs, ys, i, Slope(xs, ys, i + 1)); }
    }
  }

  /** For data that never falls the passes draw the slopes of the specification. */
  lemma DrawnIsSlope(xs: seq<real>, ys: seq<real>, i: nat)
    requires Ascending(xs) && Rising(ys) && |xs| == |ys| >= 2 && i < |xs|
    ensures Drawn(xs, ys, i) == Slope(xs, ys, i)
  {
    if i == 0 {
      if |xs| > 2 { KeptOfRising(xs, ys, 0); RiseOf(xs, ys, 0); }
    } else {
      SecondIsSlope(xs, ys, i);
      if i > 1 {
        RightStep(xs, ys, i - 1);
        if !Flat(ys, i - 1) { ClampedRises(xs, ys, i - 1, Slope(xs, ys, i)); }
      }
    }
  }

  method InterpolateMonotonic(xs: seq<real>, ys: seq<real>) returns (fs: array<Func>)
    requires |xs| == |ys| && Drawable(xs, ys)
    ensures |xs| == 0 ==> fs[..] == [ConstFunc(0.0)]
    ensures |xs| == 1 ==> fs[..] == [ConstFunc(ys[0])]
    ensures |xs| >= 2 ==> fs.Length == |xs| - 1
    ensures |xs| >= 2 ==> forall i :: 0 <= i < |xs| - 1 ==>
              fs[i] == SegmentFor(xs, ys, i, Drawn(xs, ys, i), Drawn(xs, ys, i + 1))
    ensures |xs| >= 2 && Ascending(xs) && Rising(ys) ==> forall i :: 0 <= i < |xs| - 1 ==> fs[i] == Segment(xs, ys, i)
  {
    var n := |xs|;
    if n == 0 {
      fs := new Func[1](_ => ConstFunc(0.0));
      return;
    }
    if n == 1 {
      fs := new Func[1](_ => ConstFunc(ys[0]));
      return;
    }
    var ns := new Option<Axes>[n - 1](_ => None);
    for i := 0 to n - 1
      invariant forall k :: 0 <= k < i ==> ns[k] == if Flat(ys, k) then None else Some(AxesOf(xs, ys, k))
    {
      if ys[i] == ys[i + 1] {
        ns[i] := None;
        continue;
      }
      ns[i] := Some(Normalize(xs[i], ys[i], xs[i + 1] - xs[i], ys[i + 1] - ys[i]));
    }
    var ms := PassFromLeft(xs, ys, ns);
    PassFromRight(xs, ys, ns, ms);
    fs := Draw(xs, ys, ns, ms);
    if Ascending(xs) && Rising(ys) {
      forall i | 0 <= i < n
        ensures Drawn(xs, ys, i) == Slope(xs, ys, i)
      {
        DrawnIsSlope(xs, ys, i);
      }
    }
  }

  method Draw(xs: seq<real>, ys: seq<real>, ns: array<Option<Axes>>, ms: array<real>) returns (fs: array<Func>)
    requires |xs| == |ys| == ms.Length >= 2 && Drawable(xs, ys) && IsAxes(xs, ys, ns[..])
    ensures fs.Length == |xs| - 1
    ensures forall i :: 0 <= i < |xs| - 1 ==> fs[i] == SegmentFor(xs, ys, i, ms[i], ms[i + 1])
  {
    var n := |xs|;
    fs := new Func[n - 1](_ => ConstFunc(0.0));
    for i := 0 to n - 1
      invariant forall k :: 0 <= k < i ==> fs[k] == SegmentFor(xs, ys, k, ms[k], ms[k + 1])
    {
      assert ns[..][i] == ns[i];
      match ns[i] {
        case None =>
          fs[i] := ConstFunc(ys[i]);
        case Some(norm) =>
          var m0 := norm.SlopeInto(ms[i]);
          var m1 := norm.SlopeInto(ms[i + 1]);
          var a := 6.0 - 3.0 * m0 - 3.0 * m1;
          var b := -15.0 + 8.0 * m0 + 7.0 * m1;
          var c := 10.0 - 6.0 * m0 - 4.0 * m1;
          fs[i] := Quint(norm, PolyFunc([a, b, c, 0.0, m0, 0.0]));
      }
    }
  }

  // ---------------------------------------------------------------- data that falls

  /** The normalised slopes at both ends of a segment are in range, so that it is drawn without a turn. */
  ghost predicate Fits(xs: seq<real>, ys: seq<real>, i: nat)
    requires |xs| == |ys| && Drawable(xs, ys) && i + 1 < |xs| && !Flat(ys, i)
  {
    var n := AxesOf(xs, ys, i);
    var m0, m1 := n.SlopeInto(Drawn(xs, ys, i)), n.SlopeInto(Drawn(xs, ys, i + 1));
    m0 >= 0.0 && m1 >= 0.0 && m0 + m1 <= 2.0
  }

  ghost predicate NeverRises(ys: seq<real>) {
    forall i :: 0 <= i < |ys| - 1 ==> ys[i] >= ys[i + 1]
  }

  lemma FallOf(xs: seq<real>, ys: seq<real>, i: nat)
    requires Ascending(xs) && NeverRises(ys) && |xs| == |ys| && i + 1 < |xs|
    ensures Flat(ys, i) ==> Rise(xs, ys, i) == 0.0
    ensures !Flat(ys, i) ==> Rise(xs, ys, i) < 0.0 && AxesOf(xs, ys, i).dx > 0.0 && AxesOf(xs, ys, i).dy < 0.0
    ensures !Flat(ys, i) ==> AxesOf(xs, ys, i).dy / AxesOf(xs, ys, i).dx == Rise(xs, ys, i)
  {
    assert xs[i] < xs[i + 1] && ys[i] >= ys[i + 1];
    ProductOrder(Rise(xs, ys, i), 0.0, xs[i + 1] - xs[i]);
  }

  lemma FallInto(n: Axes, m: real, s: real)
    requires n.dx > 0.0 && n.dy < 0.0 && s == n.dy / n.dx < 0.0
    ensures n.SlopeInto(m) * s == m && n.SlopeOutOf(m) == m * s
  {
  }

  /** In a falling segment the order of slopes is turned round. */
  lemma ClampedFalls(n: Axes, m: real, s: real)
    requires n.dx > 0.0 && n.dy < 0.0 && s == n.dy / n.dx < 0.0 && m <= 0.0
    ensures Clamped(n, m) == Max(m, 2.0 * s) && Opposite(n, m) == Min(2.0 * s - m, 0.0)
  {
    var v := n.SlopeInto(m);
    FallInto(n, m, s);
    FallInto(n, 2.0, s);
    FallInto(n, 2.0 - v, s);
    FallInto(n, 0.0, s);
    ProductOrder(v, 2.0, -s);
    ProductOrder(v, 0.0, -s);
  }

  lemma FitsIsASum(n: Axes, a: real, b: real, s: real)
    requires n.dx > 0.0 && n.dy < 0.0 && s == n.dy / n.dx < 0.0
    ensures n.SlopeInto(a) >= 0.0 && n.SlopeInto(b) >= 0.0 && n.SlopeInto(a) + n.SlopeInto(b) <= 2.0 <==>
            a <= 0.0 && b <= 0.0 && a + b >= 2.0 * s
  {
    var v, w := n.SlopeInto(a), n.SlopeInto(b);
    FallInto(n, a, s);
    FallInto(n, b, s);
    ProductOrder(v, 0.0, -s);
    ProductOrder(w, 0.0, -s);
    ProductOrder(2.0, v + w, -s);
    assert (v + w) * s == a + b;
  }

  /** The first pass: what it keeps at one knot and leaves for the next sums to twice the rise. */
  lemma {:induction false} FirstOfFalling(xs: seq<real>, ys: seq<real>, i: nat)
    requires Ascending(xs) && NeverRises(ys) && |xs| == |ys| >= 2 && i < |xs| - 1
    ensures First(xs, ys, i) <= 0.0 && (i == 0 || Flat(ys, i - 1) ==> First(xs, ys, i) == 0.0)
    ensures i > 0 ==> First(xs, ys, i) == 2.0 * Rise(xs, ys, i - 1) - Kept(xs, ys, i - 1)
    ensures i < |xs| - 2 ==> Kept(xs, ys, i) == Max(First(xs, ys, i), 2.0 * Rise(xs, ys, i))
  {
    FallOf(xs, ys, i);
    if i > 0 {
      FirstOfFalling(xs, ys, i - 1);
      FallOf(xs, ys, i - 1);
      if !Flat(ys, i - 1) { ClampedFalls(AxesOf(xs, ys, i - 1), First(xs, ys, i - 1), Rise(xs, ys, i - 1)); }
    }
    if !Flat(ys, i) { ClampedFalls(AxesOf(xs, ys, i), First(xs, ys, i), Rise(xs, ys, i)); }
  }

  /** The second pass makes slopes steeper, never flatter. */
  lemma {:induction false} SecondOfFalling(xs: seq<real>, ys: seq<real>, i: nat)
    requires Ascending(xs) && NeverRises(ys) && |xs| == |ys| >= 2 && i < |xs|
    ensures Second(xs, ys, i) <= Kept(xs, ys, i) <= 0.0
    ensures i < |xs| - 1 ==>
              Second(xs, ys, i) == if Flat(ys, i) then Kept(xs, ys, i)
                                   else Min(2.0 * Rise(xs, ys, i) - Second(xs, ys, i + 1), Kept(xs, ys, i))
    decreases |xs| - i
  {
    if i < |xs| - 1 {
      SecondOfFalling(xs, ys, i + 1);
      FirstOfFalling(xs, ys, i);
      FallOf(xs, ys, i);
      if !Flat(ys, i) { ClampedFalls(AxesOf(xs, ys, i), Second(xs, ys, i + 1), Rise(xs, ys, i)); }
    }
  }

  lemma DrawnOfFalling(xs: seq<real>, ys: seq<real>, i: nat)
    requires Ascending(xs) && NeverRises(ys) && |xs| == |ys| >= 2 && i < |xs|
    ensures Drawn(xs, ys, i) <= Kept(xs, ys, i) <= 0.0 && (i == 0 || i == |xs| - 1 ==> Drawn(xs, ys, i) == 0.0)
    ensures i > 0 ==> Drawn(xs, ys, i) == if i == 1 || Flat(ys, i - 1) then Second(xs, ys, i)
                                          else Max(Second(xs, ys, i), 2.0 * Rise(xs, ys, i - 1))
  {
    SecondOfFalling(xs, ys, i);
    FirstOfFalling(xs, ys, 0);
    FallOf(xs, ys, 0);
    if i > 0 {
      FallOf(xs, ys, i - 1);
      FirstOfFalling(xs, ys, i - 1);
      if i < |xs| - 1 { FirstOfFalling(xs, ys, i); }
      if !Flat(ys, i - 1) { ClampedFalls(AxesOf(xs, ys, i - 1), Second(xs, ys, i), Rise(xs, ys, i - 1)); }
    }
  }

  /** Every segment that is not flat fits. */
  ghost predicate AllFit(xs: seq<real>, ys: seq<real>)
    requires |xs| == |ys| && Drawable(xs, ys)
  {
    forall i :: 0 <= i < |xs| - 1 && !Flat(ys, i) ==> Fits(xs, ys, i)
  }

  predicate SumFits(xs: seq<real>, ys: seq<real>, i: nat)
    requires Ascending(xs) && |xs| == |ys| && i + 1 < |xs|
  {
    Drawn(xs, ys, i) + Drawn(xs, ys, i + 1) >= 2.0 * Rise(xs, ys, i)
  }

  lemma FitsOfFalling(xs: seq<real>, ys: seq<real>, i: nat)
    requires Ascending(xs) && NeverRises(ys) && |xs| == |ys| && i + 1 < |xs| && !Flat(ys, i)
    ensures Fits(xs, ys, i) <==> SumFits(xs, ys, i)
  {
    FallOf(xs, ys, i);
    DrawnOfFalling(xs, ys, i);
    DrawnOfFalling(xs, ys, i + 1);
    FitsIsASum(AxesOf(xs, ys, i), Drawn(xs, ys, i), Drawn(xs, ys, i + 1), Rise(xs, ys, i));
  }

  /** A knot between two falling segments. */
  predicate Inner(ys: seq<real>, i: nat) {
    0 < i < |ys| - 1 && !Flat(ys, i - 1) && !Flat(ys, i)
  }

  /** The first pass arrives with all that the segment before bears, and may keep it; the second pass does not
      make it steeper. */
  predicate AtTheEdge(xs: seq<real>, ys: seq<real>, i: nat)
    requires Ascending(xs) && |xs| == |ys| && Inner(ys, i)
  {
    i >= 2 && First(xs, ys, i) == 2.0 * Rise(xs, ys, i - 1) && Rise(xs, ys, i) <= Rise(xs, ys, i - 1)
  }

  /** When the second pass leaves the slope of such a knot as it is, in terms of the rises and of the slopes
      with which the first pass arrives. At the last interior knot it must arrive with exactly twice the rise
      of the segment after, or of the one before if that is flatter; the knot before that one is left alone.
      Elsewhere it must arrive at the next knot in the range of the segment after it, or, if a flat segment
      follows there, at this knot with all that the falling one bears. */
  predicate Undisturbed(xs: seq<real>, ys: seq<real>, i: nat)
    requires Ascending(xs) && |xs| == |ys| && Inner(ys, i)
  {
    var n := |xs|;
    if i == n - 2 then
      First(xs, ys, i) == if i == 1 then 2.0 * Rise(xs, ys, i)
        else Max(2.0 * Rise(xs, ys, i), 2.0 * Rise(xs, ys, i - 1))
    else if i == n - 3 then true
    else if Flat(ys, i + 1) then First(xs, ys, i) <= 2.0 * Rise(xs, ys, i) || AtTheEdge(xs, ys, i)
    else First(xs, ys, i + 1) >= 2.0 * Rise(xs, ys, i + 1) || AtTheEdge(xs, ys, i)
  }

  /** The second pass changes nothing at the knot, and before the last one the slope is in range. */
  predicate KeptAt(xs: seq<real>, ys: seq<real>, i: nat)
    requires Ascending(xs) && |xs| == |ys| && Inner(ys, i)
  {
    && Drawn(xs, ys, i) == Kept(xs, ys, i)
    && (i == |xs| - 2 ==> First(xs, ys, i) >= 2.0 * Rise(xs, ys, i))
  }

  lemma KeptAtLastExactly(xs: seq<real>, ys: seq<real>, i: nat)
    requires Ascending(xs) && NeverRises(ys) && |xs| == |ys| && Inner(ys, i) && i == |xs| - 2
    ensures KeptAt(xs, ys, i) <==> Undisturbed(xs, ys, i)
  {
    FirstOfFalling(xs, ys, i);
    FirstOfFalling(xs, ys, i - 1);
    SecondOfFalling(xs, ys, i);
    DrawnOfFalling(xs, ys, i);
    DrawnOfFalling(xs, ys, i - 1);
    assert Second(xs, ys, i + 1) == 0.0;
    FallOf(xs, ys, i);
  }

  /** What the second pass makes of a knot between two falling segments. */
  lemma InnerSlopes(xs: seq<real>, ys: seq<real>, i: nat)
    requires Ascending(xs) && NeverRises(ys) && |xs| == |ys| && Inner(ys, i) && i < |xs| - 2
    ensures Kept(xs, ys, i) == Max(First(xs, ys, i), 2.0 * Rise(xs, ys, i))
    ensures First(xs, ys, i) >= 2.0 * Rise(xs, ys, i - 1) && First(xs, ys, i) <= 0.0 && Rise(xs, ys, i) < 0.0
    ensures First(xs, ys, i + 1) == 2.0 * Rise(xs, ys, i) - Kept(xs, ys, i)
    ensures Drawn(xs, ys, i) == if i == 1 then Second(xs, ys, i) else Max(Second(xs, ys, i), 2.0 * Rise(xs, ys, i - 1))
    ensures Second(xs, ys, i) == Min(2.0 * Rise(xs, ys, i) - Second(xs, ys, i + 1), Kept(xs, ys, i))
    ensures Second(xs, ys, i + 1) <= Kept(xs, ys, i + 1)
  {
    FallOf(xs, ys, i);
    FirstOfFalling(xs, ys, i);
    FirstOfFalling(xs, ys, i + 1);
    SecondOfFalling(xs, ys, i);
    SecondOfFalling(xs, ys, i + 1);
    SecondOfFalling(xs, ys, i - 1);
    DrawnOfFalling(xs, ys, i);
  }

  /** It stays exactly if the next knot is left no steeper than the first pass arrives there. */
  lemma KeptExactly(xs: seq<real>, ys: seq<real>, i: nat)
    requires Ascending(xs) && NeverRises(ys) && |xs| == |ys| && Inner(ys, i) && i < |xs| - 2
    ensures KeptAt(xs, ys, i) <==> Second(xs, ys, i + 1) <= First(xs, ys, i + 1) || AtTheEdge(xs, ys, i)
  {
    InnerSlopes(xs, ys, i);
  }

  lemma KeptAtExactly(xs: seq<real>, ys: seq<real>, i: nat)
    requires Ascending(xs) && NeverRises(ys) && |xs| == |ys| && Inner(ys, i) && i < |xs| - 2
    requires i + 1 < |xs| - 2 && !Flat(ys, i + 1) ==> KeptAt(xs, ys, i + 1)
    ensures KeptAt(xs, ys, i) <==> Undisturbed(xs, ys, i)
  {
    KeptExactly(xs, ys, i);
    InnerSlopes(xs, ys, i);
    if i < |xs| - 3 {
      if Flat(ys, i + 1) {
        FirstOfFalling(xs, ys, i + 1);
        FallOf(xs, ys, i + 1);
        SecondOfFalling(xs, ys, i + 1);
      } else {
        InnerSlopes(xs, ys, i + 1);
      }
    }
  }

  lemma {:induction false} UndisturbedIsKept(xs: seq<real>, ys: seq<real>, i: nat)
    requires Ascending(xs) && NeverRises(ys) && |xs| == |ys| && Inner(ys, i)
    requires forall k :: i <= k < |xs| && Inner(ys, k) ==> Undisturbed(xs, ys, k)
    ensures KeptAt(xs, ys, i)
    decreases |xs| - i
  {
    if i == |xs| - 2 {
      KeptAtLastExactly(xs, ys, i);
    } else {
      if !Flat(ys, i + 1) { UndisturbedIsKept(xs, ys, i + 1); }
      KeptAtExactly(xs, ys, i);
    }
  }

  lemma FittingIsKept(xs: seq<real>, ys: seq<real>, i: nat)
    requires Ascending(xs) && NeverRises(ys) && |xs| == |ys| && Inner(ys, i) && SumFits(xs, ys, i - 1)
             && SumFits(xs, ys, i)
    ensures KeptAt(xs, ys, i)
  {
    FirstOfFalling(xs, ys, i);
    DrawnOfFalling(xs, ys, i - 1);
    DrawnOfFalling(xs, ys, i);
    DrawnOfFalling(xs, ys, i + 1);
  }

  /** A segment after a flat one always fits: its first slope is not clamped from the left. */
  lemma AfterFlatFits(xs: seq<real>, ys: seq<real>, i: nat)
    requires Ascending(xs) && NeverRises(ys) && |xs| == |ys| && 0 < i < |xs| - 1 && Flat(ys, i - 1) && !Flat(ys, i)
    ensures SumFits(xs, ys, i)
  {
    FallOf(xs, ys, i);
    FirstOfFalling(xs, ys, i);
    SecondOfFalling(xs, ys, i);
    SecondOfFalling(xs, ys, i + 1);
    DrawnOfFalling(xs, ys, i);
    DrawnOfFalling(xs, ys, i + 1);
  }

  /** What the first pass leaves for the next knot is still there in the end. */
  lemma NextIsEnough(xs: seq<real>, ys: seq<real>, i: nat)
    requires Ascending(xs) && NeverRises(ys) && |xs| == |ys| && 0 < i < |xs| - 1 && !Flat(ys, i - 1)
    requires Flat(ys, i) || KeptAt(xs, ys, i)
    ensures Drawn(xs, ys, i) >= First(xs, ys, i)
  {
    FirstOfFalling(xs, ys, i);
    FirstOfFalling(xs, ys, i - 1);
    SecondOfFalling(xs, ys, i);
    DrawnOfFalling(xs, ys, i);
    DrawnOfFalling(xs, ys, i - 1);
  }

  lemma KeptFits(xs: seq<real>, ys: seq<real>, i: nat)
    requires Ascending(xs) && NeverRises(ys) && |xs| == |ys| && i < |xs| - 1 && !Flat(ys, i)
             && (i == 0 || !Flat(ys, i - 1))
    requires forall k :: 0 <= k < |xs| && Inner(ys, k) ==> KeptAt(xs, ys, k)
    ensures SumFits(xs, ys, i)
  {
    FallOf(xs, ys, i);
    FirstOfFalling(xs, ys, i);
    DrawnOfFalling(xs, ys, i);
    DrawnOfFalling(xs, ys, i + 1);
    assert i > 0 ==> KeptAt(xs, ys, i);
    if i + 1 < |xs| - 1 {
      FirstOfFalling(xs, ys, i + 1);
      assert Flat(ys, i + 1) || Inner(ys, i + 1);
      NextIsEnough(xs, ys, i + 1);
    }
  }

  /** Data that never rises is drawn with slopes in range exactly if the second pass disturbs no knot between
      two falling segments: it keeps the lesser of two slopes, which on a falling segment is the steeper. */
  lemma FallingFitsExactly(xs: seq<real>, ys: seq<real>)
    requires Ascending(xs) && NeverRises(ys) && |xs| == |ys| >= 2
    ensures AllFit(xs, ys) <==> forall i :: 0 <= i < |xs| && Inner(ys, i) ==> Undisturbed(xs, ys, i)
  {
    forall i | 0 <= i < |xs| - 1 && !Flat(ys, i)
      ensures Fits(xs, ys, i) <==> SumFits(xs, ys, i)
    {
      FitsOfFalling(xs, ys, i);
    }
    if AllFit(xs, ys) {
      FittingIsUndisturbed(xs, ys);
    } else if forall i :: 0 <= i < |xs| && Inner(ys, i) ==> Undisturbed(xs, ys, i) {
      UndisturbedFits(xs, ys);
    }
  }

  lemma FittingIsUndisturbed(xs: seq<real>, ys: seq<real>)
    requires Ascending(xs) && NeverRises(ys) && |xs| == |ys| >= 2
    requires forall i :: 0 <= i < |xs| - 1 && !Flat(ys, i) ==> SumFits(xs, ys, i)
    ensures forall i :: 0 <= i < |xs| && Inner(ys, i) ==> Undisturbed(xs, ys, i)
  {
    forall i | 0 <= i < |xs| && Inner(ys, i)
      ensures Undisturbed(xs, ys, i)
    {
      FittingIsKept(xs, ys, i);
      if i == |xs| - 2 {
        KeptAtLastExactly(xs, ys, i);
      } else {
        if !Flat(ys, i + 1) { FittingIsKept(xs, ys, i + 1); }
        KeptAtExactly(xs, ys, i);
      }
    }
  }

  lemma UndisturbedFits(xs: seq<real>, ys: seq<real>)
    requires Ascending(xs) && NeverRises(ys) && |xs| == |ys| >= 2
    requires forall i :: 0 <= i < |xs| && Inner(ys, i) ==> Undisturbed(xs, ys, i)
    ensures forall i :: 0 <= i < |xs| - 1 && !Flat(ys, i) ==> SumFits(xs, ys, i)
  {
    forall k | 0 <= k < |xs| && Inner(ys, k)
      ensures KeptAt(xs, ys, k)
    {
      UndisturbedIsKept(xs, ys, k);
    }
    forall i | 0 <= i < |xs| - 1 && !Flat(ys, i)
      ensures SumFits(xs, ys, i)
    {
      if i > 0 && Flat(ys, i - 1) { AfterFlatFits(xs, ys, i); } else { KeptFits(xs, ys, i); }
    }
  }

  /** Three falling knots with nine times the slope at the end of a segment that it bears. */
  ghost predicate TooSteep(xs: seq<real>, ys: seq<real>) {
    && |xs| == |ys| == 3 && Ascending(xs) && NeverRises(ys) && !Flat(ys, 0)
    && AxesOf(xs, ys, 0).SlopeInto(Drawn(xs, ys, 1)) == 18.0
  }

  /** A steep fall after a slight one: the knots 0, 1, 2 with the values 10, 9, 0. */
  lemma SteepEnd(xs: seq<real>, ys: seq<real>)
    requires |xs| == |ys| == 3 && xs[0] == 0.0 && xs[1] == 1.0 && xs[2] == 2.0 && ys[0] == 10.0 && ys[1] == 9.0
             && ys[2] == 0.0
    ensures TooSteep(xs, ys)
  {
    assert NeverRises(ys);
    FallOf(xs, ys, 0);
    FallOf(xs, ys, 1);
    assert Rise(xs, ys, 0) == -1.0 && Rise(xs, ys, 1) == -9.0;
    FirstOfFalling(xs, ys, 0);
    FirstOfFalling(xs, ys, 1);
    assert Second(xs, ys, 2) == 0.0;
    ClampedFalls(AxesOf(xs, ys, 1), 0.0, -9.0);
    assert Drawn(xs, ys, 1) == -18.0;
    FallInto(AxesOf(xs, ys, 0), -18.0, -1.0);
  }

  lemma ThreeReals(a: real, b: real, c: real) returns (s: seq<real>)
    ensures |s| == 3 && s[0] == a && s[1] == b && s[2] == c
  {
    s := [a, b, c];
  }

  lemma FallingNeedNotFit()
    ensures exists xs, ys :: TooSteep(xs, ys)
  {
    var xs := ThreeReals(0.0, 1.0, 2.0);
    var ys := ThreeReals(10.0, 9.0, 0.0);
    SteepEnd(xs, ys);
  }

  // ---------------------------------------------------------------- the curve

  /** The normalised slopes at the two ends of a segment. */
  function Ends(xs: seq<real>, ys: seq<real>, i: nat): (real, real)
    requires Ascending(xs) && |xs| == |ys| && i + 1 < |xs| && !Flat(ys, i)
  {
    var n := AxesOf(xs, ys, i);
    (n.SlopeInto(Slope(xs, ys, i)), n.SlopeInto(Slope(xs, ys, i + 1)))
  }

  lemma SumIntoCompares(n: Axes, a: real, b: real)
    requires n.dx > 0.0 && n.dy > 0.0 && a >= 0.0 && b >= 0.0 && a + b <= 2.0 * (n.dy / n.dx)
    ensures n.SlopeInto(a) >= 0.0 && n.SlopeInto(b) >= 0.0 && n.SlopeInto(a) + n.SlopeInto(b) <= 2.0
  {
    var s := n.dy / n.dx;
    SlopeScales(n, a);
    SlopeScales(n, b);
    ProductOrder(2.0, n.SlopeInto(a) + n.SlopeInto(b), s);
    ProductOrder(n.SlopeInto(a), 0.0, s);
    ProductOrder(n.SlopeInto(b), 0.0, s);
    assert (n.SlopeInto(a) + n.SlopeInto(b)) * s == a + b;
  }

  /** What the two passes are for. */
  lemma EndsFit(xs: seq<real>, ys: seq<real>, i: nat)
    requires Ascending(xs) && Rising(ys) && |xs| == |ys| && i + 1 < |xs| && !Flat(ys, i)
    ensures var (m0, m1) := Ends(xs, ys, i); m0 >= 0.0 && m1 >= 0.0 && m0 + m1 <= 2.0
  {
    SlopesFit(xs, ys, i);
    RiseOf(xs, ys, i);
    SumIntoCompares(AxesOf(xs, ys, i), Slope(xs, ys, i), Slope(xs, ys, i + 1));
  }

  lemma XIntoUnit(n: Axes, x: real, y: real)
    requires n.dx > 0.0 && n.x <= x <= y <= n.x + n.dx
    ensures 0.0 <= n.XInto(x) <= n.XInto(y) <= 1.0
  {
    var a, b := n.XInto(x), n.XInto(y);
    assert a * n.dx == x - n.x && b * n.dx == y - n.x;
    ProductOrder(b, a, n.dx);
    ProductOrder(a, 0.0, n.dx);
    ProductOrder(1.0, b, n.dx);
    assert 0.0 * n.dx == 0.0 && 1.0 * n.dx == n.dx;
  }

  lemma Scaled(n: Axes, v: real, w: real)
    requires n.dx > 0.0 && n.dy > 0.0
    ensures v <= w ==> n.YOutOf(v) <= n.YOutOf(w)
    ensures v >= 0.0 ==> n.SlopeOutOf(v) >= 0.0
  {
    ProductOrder(w, v, n.dy);
    ProductOrder(v, 0.0, n.dy);
    SlopeScales(n, v);
    ProductOrder(v, 0.0, n.dy / n.dx);
  }

  /** Within a segment the curve never falls. */
  lemma SegmentRises(xs: seq<real>, ys: seq<real>, i: nat, x: real, y: real)
    requires Ascending(xs) && Rising(ys) && |xs| == |ys| && i + 1 < |xs| && xs[i] <= x <= y <= xs[i + 1]
    ensures Value(Segment(xs, ys, i), x) <= Value(Segment(xs, ys, i), y)
  {
    if !Flat(ys, i) {
      var n := AxesOf(xs, ys, i);
      var (m0, m1) := Ends(xs, ys, i);
      RiseOf(xs, ys, i);
      EndsFit(xs, ys, i);
      XIntoUnit(n, x, y);
      QuintRises(m0, m1, n.XInto(x), n.XInto(y));
      Scaled(n, PolyValue(QuintCoef(m0, m1), n.XInto(x)), PolyValue(QuintCoef(m0, m1), n.XInto(y)));
    }
  }

  /** The drawn density: the derivative of the curve. */
  function Density(xs: seq<real>, ys: seq<real>, i: nat, x: real): real
    requires Ascending(xs) && |xs| == |ys| && i + 1 < |xs|
  {
    match Derivative(Segment(xs, ys, i))
    case Some(d) => Value(d, x)
    case None => -1.0
  }

  lemma DensityOf(xs: seq<real>, ys: seq<real>, i: nat, x: real)
    requires Ascending(xs) && |xs| == |ys| && i + 1 < |xs|
    ensures Derivative(Segment(xs, ys, i)).Some?
    ensures Flat(ys, i) ==> Density(xs, ys, i, x) == 0.0
    ensures !Flat(ys, i) ==>
              var n, (m0, m1) := AxesOf(xs, ys, i), Ends(xs, ys, i);
              Density(xs, ys, i, x) == n.SlopeOutOf(PolyValue(DerivCoef(QuintCoef(m0, m1)), n.XInto(x)))
  {
    if !Flat(ys, i) { QuintDensity(AxesOf(xs, ys, i), QuintCoef(Ends(xs, ys, i).0, Ends(xs, ys, i).1), x); }
  }

  lemma DensityNotNegative(xs: seq<real>, ys: seq<real>, i: nat, x: real)
    requires Ascending(xs) && Rising(ys) && |xs| == |ys| && i + 1 < |xs| && xs[i] <= x <= xs[i + 1]
    ensures Density(xs, ys, i, x) >= 0.0
  {
    DensityOf(xs, ys, i, x);
    if !Flat(ys, i) { NormalisedDensityNotNegative(xs, ys, i, x); }
  }

  lemma NormalisedDensityNotNegative(xs: seq<real>, ys: seq<real>, i: nat, x: real)
    requires Ascending(xs) && Rising(ys) && |xs| == |ys| && i + 1 < |xs| && xs[i] <= x <= xs[i + 1] && !Flat(ys, i)
    ensures var n := AxesOf(xs, ys, i);
            n.SlopeOutOf(PolyValue(DerivCoef(QuintCoef(Ends(xs, ys, i).0, Ends(xs, ys, i).1)), n.XInto(x))) >= 0.0
  {
    var n := AxesOf(xs, ys, i);
    var (m0, m1) := Ends(xs, ys, i);
    RiseOf(xs, ys, i);
    EndsFit(xs, ys, i);
    XIntoUnit(n, x, x);
    QuintSlopeNotNegative(m0, m1, n.XInto(x));
    Scaled(n, PolyValue(DerivCoef(QuintCoef(m0, m1)), n.XInto(x)), 0.0);
  }

  /** The curve passes through its knots, so the segments join. */
  lemma SegmentMeetsKnots(xs: seq<real>, ys: seq<real>, i: nat)
    requires Ascending(xs) && |xs| == |ys| && i + 1 < |xs|
    ensures Value(Segment(xs, ys, i), xs[i]) == ys[i] && Value(Segment(xs, ys, i), xs[i + 1]) == ys[i + 1]
  {
    if !Flat(ys, i) {
      var n := AxesOf(xs, ys, i);
      var (m0, m1) := Ends(xs, ys, i);
      KnotsInto(n);
      assert n.x + n.dx == xs[i + 1];
      QuintEnds(m0, m1);
    }
  }

  lemma {:induction false} YsRise(ys: seq<real>, i: nat, j: nat)
    requires Rising(ys) && i <= j < |ys|
    ensures ys[i] <= ys[j]
  {
    if i < j {
      YsRise(ys, i, j - 1);
      assert ys[j - 1] <= ys[j - 1 + 1];
    }
  }

  /** Across all segments the curve never falls, and stays between its first and its last value. */
  lemma CurveRises(xs: seq<real>, ys: seq<real>, i: nat, j: nat, x: real, y: real)
    requires Ascending(xs) && Rising(ys) && |xs| == |ys| && i <= j && j + 1 < |xs|
    requires xs[i] <= x <= xs[i + 1] && xs[j] <= y <= xs[j + 1] && x <= y
    ensures ys[0] <= Value(Segment(xs, ys, i), x) <= Value(Segment(xs, ys, j), y) <= ys[|ys| - 1]
  {
    SegmentMeetsKnots(xs, ys, i);
    SegmentMeetsKnots(xs, ys, j);
    SegmentRises(xs, ys, i, xs[i], x);
    SegmentRises(xs, ys, i, x, xs[i + 1]);
    SegmentRises(xs, ys, j, xs[j], y);
    SegmentRises(xs, ys, j, y, xs[j + 1]);
    if i == j { SegmentRises(xs, ys, i, x, y); } else { YsRise(ys, i + 1, j); }
    YsRise(ys, 0, i);
    YsRise(ys, j + 1, |ys| - 1);
  }

  /** The density at the ends of a segment is the slope of its knots. */
  lemma DensityAtKnots(xs: seq<real>, ys: seq<real>, i: nat)
    requires Ascending(xs) && Rising(ys) && |xs| == |ys| && i + 1 < |xs|
    ensures Density(xs, ys, i, xs[i]) == if Flat(ys, i) then 0.0 else Slope(xs, ys, i)
    ensures Density(xs, ys, i, xs[i + 1]) == if Flat(ys, i) then 0.0 else Slope(xs, ys, i + 1)
  {
    DensityOf(xs, ys, i, xs[i]);
    DensityOf(xs, ys, i, xs[i + 1]);
    if !Flat(ys, i) { NormalisedDensityAtKnots(xs, ys, i); }
  }

  lemma IntoAndOutOf(n: Axes, m: real)
    requires n.dx > 0.0 && n.dy > 0.0
    ensures n.SlopeOutOf(n.SlopeInto(m)) == m
  {
    SlopeScales(n, m);
    SlopeScales(n, n.SlopeInto(m));
  }

  lemma DensityAtEnds(n: Axes, a: real, b: real)
    requires n.dx > 0.0 && n.dy > 0.0
    ensures var c := DerivCoef(QuintCoef(n.SlopeInto(a), n.SlopeInto(b)));
            && n.SlopeOutOf(PolyValue(c, n.XInto(n.x))) == a && n.SlopeOutOf(PolyValue(c, n.XInto(n.x + n.dx))) == b
  {
    KnotsInto(n);
    QuintEndSlopes(n.SlopeInto(a), n.SlopeInto(b));
    IntoAndOutOf(n, a);
    IntoAndOutOf(n, b);
  }

  lemma NormalisedDensityAtKnots(xs: seq<real>, ys: seq<real>, i: nat)
    requires Ascending(xs) && Rising(ys) && |xs| == |ys| && i + 1 < |xs| && !Flat(ys, i)
    ensures var n, c := AxesOf(xs, ys, i), DerivCoef(QuintCoef(Ends(xs, ys, i).0, Ends(xs, ys, i).1));
            && n.SlopeOutOf(PolyValue(c, n.XInto(xs[i]))) == Slope(xs, ys, i)
            && n.SlopeOutOf(PolyValue(c, n.XInto(xs[i + 1]))) == Slope(xs, ys, i + 1)
  {
    var n := AxesOf(xs, ys, i);
    RiseOf(xs, ys, i);
    DensityAtEnds(n, Slope(xs, ys, i), Slope(xs, ys, i + 1));
    assert n.x + n.dx == xs[i + 1];
  }

  lemma SlopesAgree(xs: seq<real>, ys: seq<real>, i: nat)
    requires Ascending(xs) && Rising(ys) && |xs| == |ys| && 0 < i && i + 1 < |xs|
    ensures (if Flat(ys, i - 1) then 0.0 else Slope(xs, ys, i)) == (if Flat(ys, i) then 0.0 else Slope(xs, ys, i)) <==>
              !(i == |xs| - 2 && Flat(ys, i)) || Left(xs, ys, i) == 0.0
  {
    SlopesFit(xs, ys, i - 1);
    SlopesFit(xs, ys, i);
    RiseOf(xs, ys, i - 1);
    LeftNotNegative(xs, ys, i - 1);
  }

  /** The density is continuous at every interior knot but one: before a flat last segment it drops to zero,
      unless the segment before rises at most half of the slope with which the first pass enters it. */
  lemma DensityIsContinuous(xs: seq<real>, ys: seq<real>, i: nat)
    requires Ascending(xs) && Rising(ys) && |xs| == |ys| && 0 < i && i + 1 < |xs|
    ensures Density(xs, ys, i - 1, xs[i]) == Density(xs, ys, i, xs[i]) <==>
              !(i == |xs| - 2 && Flat(ys, i)) || 2.0 * Rise(xs, ys, i - 1) <= Left(xs, ys, i - 1)
  {
    DensityAtKnots(xs, ys, i - 1);
    DensityAtKnots(xs, ys, i);
    SlopesAgree(xs, ys, i);
  }

  /** So it always jumps there when the segment before the flat one rises, and more than the one before it. */
  lemma DensityJumpsAfterSteepening(xs: seq<real>, ys: seq<real>, i: nat)
    requires Ascending(xs) && Rising(ys) && |xs| == |ys| && 0 < i == |xs| - 2 && Flat(ys, i)
    requires Rise(xs, ys, i - 1) > if i == 1 then 0.0 else Rise(xs, ys, i - 2)
    ensures Density(xs, ys, i - 1, xs[i]) > 0.0 == Density(xs, ys, i, xs[i])
  {
    DensityAtKnots(xs, ys, i - 1);
    DensityAtKnots(xs, ys, i);
    RiseOf(xs, ys, i - 1);
    if i > 1 {
      LeftNotNegative(xs, ys, i - 2);
      RiseOf(xs, ys, i - 2);
      assert Left(xs, ys, i - 1) <= 2.0 * Rise(xs, ys, i - 2);
    }
    assert Left(xs, ys, i) > 0.0;
  }

  lemma FlatEndDrops(xs: seq<real>, ys: seq<real>)
    requires Ascending(xs) && Rising(ys) && |xs| == |ys| == 3 && Flat(ys, 1) && xs[1] - xs[0] == 1.0
             && ys[1] - ys[0] == 1.0
    ensures Density(xs, ys, 0, xs[1]) == 2.0 && Density(xs, ys, 1, xs[1]) == 0.0
  {
    DensityAtKnots(xs, ys, 0);
    DensityAtKnots(xs, ys, 1);
    RiseOfUnit(xs, ys);
  }

  lemma RiseOfUnit(xs: seq<real>, ys: seq<real>)
    requires Ascending(xs) && |xs| == |ys| == 3 && Flat(ys, 1) && xs[1] - xs[0] == 1.0 && ys[1] - ys[0] == 1.0
    ensures Slope(xs, ys, 1) == 2.0
  {
    assert Rise(xs, ys, 0) == 1.0 && Left(xs, ys, 0) == 0.0;
  }

  lemma DensityDropsBeforeFlatEnd()
    ensures var xs, ys := [0.0, 1.0, 2.0], [0.0, 1.0, 1.0];
            Ascending(xs) && Rising(ys) && Density(xs, ys, 0, 1.0) == 2.0 && Density(xs, ys, 1, 1.0) == 0.0
  {
    FlatEndDrops([0.0, 1.0, 2.0], [0.0, 1.0, 1.0]);
  }
}
