/** The delay before a failed window is tried again, over the reals. */
module Backoff {
  import opened Funcs

  const SECOND := 1_000_000_000
  const MAX_DELAY := 3600 * SECOND

  /** Zero fields take their defaults. */
  datatype Policy = Policy(initial: int, multiplier: real, max: int) {
    function Initial(): (r: int)
      ensures r > 0
    {
      if initial <= 0 then SECOND else initial
    }

    function Multiplier(): (r: real)
      ensures r > 0.0
    {
      if multiplier <= 0.0 then 2.0 else multiplier
    }

    /** An hour, the configured maximum or the interval, whichever is least. */
    function Cap(interval: int): (r: int)
      ensures 0 < r <= MAX_DELAY && (interval > 0 ==> r <= interval) && (max > 0 ==> r <= max)
      ensures r in {MAX_DELAY, max, interval}
    {
      var m := if max <= 0 || max > MAX_DELAY then MAX_DELAY else max;
      if interval > 0 && interval < m then interval else m
    }

    function Delay(interval: int, attempt: int): int {
      if attempt <= 1 then
        if Initial() > Cap(interval) then Cap(interval) else Initial()
      else
        Capped(Initial() as real * Pow(Multiplier(), attempt - 1), Cap(interval))
    }
  }

  function Capped(delay: real, cap: int): int {
    if delay >= cap as real then cap else delay.Floor
  }

  lemma CappedGrows(a: real, b: real, cap: int)
    ensures a <= b ==> Capped(a, cap) <= Capped(b, cap)
    ensures a >= 0.0 && cap >= 0 ==> 0 <= Capped(a, cap) <= cap
  {
  }

  /** The delay before it is capped. */
  function Raw(p: Policy, attempt: int): real {
    p.Initial() as real * Pow(p.Multiplier(), if attempt <= 1 then 0 else attempt - 1)
  }

  lemma DelayIsCapped(p: Policy, interval: int, attempt: int)
    ensures p.Delay(interval, attempt) == Capped(Raw(p, attempt), p.Cap(interval))
  {
  }

  lemma OneMoreFactor(x: real, m: real, k: nat)
    ensures x * Pow(m, k + 1) == x * Pow(m, k) * m
  {
    var p := Pow(m, k);
    assert x * (m * p) == x * p * m;
  }

  /** The first delay is the initial one, a second by default, and each further one is multiplied, by two by
      default. */
  lemma DelaysMultiply(p: Policy, attempt: int)
    requires attempt >= 1
    ensures Raw(p, 1) == (if p.initial > 0 then p.initial else 1_000_000_000) as real
    ensures Raw(p, attempt + 1) == Raw(p, attempt) * if p.multiplier > 0.0 then p.multiplier else 2.0
  {
    OneMoreFactor(p.Initial() as real, p.Multiplier(), attempt - 1);
  }

  /** The cap is an hour, or the maximum or the interval where one is set and shorter; below it a delay is cut to
      whole nanoseconds. */
  lemma DelayIsLeast(p: Policy, interval: int, attempt: int)
    ensures var hour := 3_600_000_000_000;
            var longest := if 0 < p.max < hour then p.max else hour;
            var cap := if 0 < interval < longest then interval else longest;
            p.Delay(interval, attempt) == if Raw(p, attempt) >= cap as real then cap else Raw(p, attempt).Floor
  {
    DelayIsCapped(p, interval, attempt);
  }

  lemma {:induction false} PowPositive(x: real, k: nat)
    requires x > 0.0
    ensures Pow(x, k) > 0.0
  {
    if k > 0 { PowPositive(x, k - 1); }
  }

  lemma {:induction false} PowGrows(x: real, j: nat, k: nat)
    requires x >= 1.0 && j <= k
    ensures 1.0 <= Pow(x, j) <= Pow(x, k)
    decreases j + k
  {
    if k > 0 {
      PowGrows(x, if j < k then j else j - 1, k - 1);
      Product(x - 1.0, Pow(x, k - 1));
    }
  }

  /** (1 + y)^k is at least 1 + k y. */
  lemma {:induction false} Bernoulli(y: real, k: nat)
    requires y >= 0.0
    ensures Pow(1.0 + y, k) >= 1.0 + k as real * y
  {
    if k > 0 {
      Bernoulli(y, k - 1);
      var p, n := Pow(1.0 + y, k - 1), (k - 1) as real;
      Product(p - 1.0 - n * y, 1.0 + y);
      Product(n, y);
      Product(n * y, y);
      assert (p - 1.0 - n * y) * (1.0 + y) == p * (1.0 + y) - 1.0 - y - n * y - n * y * y;
      OneMoreTime(k - 1, y);
    }
  }

  lemma ScaledBy(a: real, b: real, c: real)
    requires a > 0.0
    ensures b <= c ==> a * b <= a * c
    ensures b > 0.0 ==> a * b > 0.0
  {
  }

  /** No delay is negative, or longer than an hour, the interval or the configured maximum. */
  lemma DelayIsBounded(p: Policy, interval: int, attempt: int)
    ensures 0 <= p.Delay(interval, attempt) <= p.Cap(interval)
  {
    var k := if attempt <= 1 then 0 else attempt - 1;
    PowPositive(p.Multiplier(), k);
    ScaledBy(p.Initial() as real, Pow(p.Multiplier(), k), 0.0);
    DelayIsCapped(p, interval, attempt);
    CappedGrows(Raw(p, attempt), 0.0, p.Cap(interval));
  }

  lemma RawGrows(p: Policy, i: int, j: int)
    requires i <= j && p.Multiplier() >= 1.0
    ensures Raw(p, i) <= Raw(p, j)
  {
    var k, l := if i <= 1 then 0 else i - 1, if j <= 1 then 0 else j - 1;
    PowGrows(p.Multiplier(), k, l);
    ScaledBy(p.Initial() as real, Pow(p.Multiplier(), k), Pow(p.Multiplier(), l));
  }

  /** With a multiplier of at least one the delays never shrink from one attempt to the next. */
  lemma DelaysGrow(p: Policy, interval: int, i: int, j: int)
    requires i <= j && p.Multiplier() >= 1.0
    ensures p.Delay(interval, i) <= p.Delay(interval, j)
  {
    RawGrows(p, i, j);
    DelayIsCapped(p, interval, i);
    DelayIsCapped(p, interval, j);
    CappedGrows(Raw(p, i), Raw(p, j), p.Cap(interval));
  }

  lemma PowExceeds(m: real, bound: real) returns (k: nat)
    requires m > 1.0 && bound > 0.0
    ensures k > 0 && Pow(m, k) >= bound
  {
    var y := m - 1.0;
    var q := bound / y;
    assert q * y == bound;
    k := q.Floor + 1;
    ScaledBy(y, q, k as real);
    Bernoulli(y, k);
  }

  lemma RawExceeds(p: Policy, bound: real) returns (n: nat)
    requires p.Multiplier() > 1.0 && bound > 0.0
    ensures Raw(p, n) >= bound
  {
    var k := PowExceeds(p.Multiplier(), bound);
    n := k + 1;
    ScaledBy(Pow(p.Multiplier(), k), 1.0, p.Initial() as real);
  }

  /** With a multiplier above one they reach the cap, and stay there. */
  lemma DelaysReachCap(p: Policy, interval: int) returns (n: nat)
    requires p.Multiplier() > 1.0
    ensures forall attempt :: attempt >= n ==> p.Delay(interval, attempt) == p.Cap(interval)
  {
    n := RawExceeds(p, p.Cap(interval) as real);
    forall attempt | attempt >= n
      ensures p.Delay(interval, attempt) == p.Cap(interval)
    {
      RawGrows(p, n, attempt);
      DelayIsCapped(p, interval, attempt);
    }
  }
}
