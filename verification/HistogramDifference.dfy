/**
The increase of a cumulative histogram over a query, bucket by bucket.

Bucket counts are already rounded to unsigned 64-bit integers, and their additions wrap
around.
*/
module HistogramDifference {
  import opened Options
  import S = Samples

  const WORD: nat := S.WORD

  /** An upper bound as the query returns it. */
  datatype Upper = Finite(value: real) | PosInf | NegInf | NaN

  datatype Bucket = Bucket(upper: Upper, count: S.Word)

  datatype Outcome = Ok(samples: seq<S.Sample>) | TooFew(histograms: nat) | InvalidBound

  predicate Valid(b: Upper) { b.Finite? || b.PosInf? }

  predicate Below(a: Upper, b: Upper) {
    (a.Finite? && b.Finite? && a.value < b.value) || (a.Finite? && b.PosInf?)
  }

  ghost predicate Ascending(s: seq<Bucket>) {
    && (forall i :: 0 <= i < |s| ==> Valid(s[i].upper))
    && forall i, j :: 0 <= i < j < |s| ==> Below(s[i].upper, s[j].upper)
  }

  predicate Has(s: seq<Bucket>, b: Upper) {
    exists i :: 0 <= i < |s| && s[i].upper == b
  }

  function CountAt(s: seq<Bucket>, b: Upper): S.Word {
    if s == [] then 0 else if s[|s| - 1].upper == b then s[|s| - 1].count else CountAt(s[..|s| - 1], b)
  }

  lemma {:induction false} CountAtIndex(s: seq<Bucket>, i: nat)
    requires Ascending(s) && i < |s|
    ensures CountAt(s, s[i].upper) == s[i].count
  {
    if i < |s| - 1 {
      assert Below(s[i].upper, s[|s| - 1].upper);
      CountAtIndex(s[..|s| - 1], i);
    }
  }

  lemma {:induction false} CountAtNone(s: seq<Bucket>, b: Upper)
    requires !Has(s, b)
    ensures CountAt(s, b) == 0
  {
    if s != [] {
      assert s[|s| - 1].upper != b;
      assert forall i :: 0 <= i < |s| - 1 ==> s[..|s| - 1][i] == s[i];
      CountAtNone(s[..|s| - 1], b);
    }
  }

  /** What one histogram adds to the one before it; a bucket that was reset, or that only one of
      them has, adds nothing. */
  function Increase(last: seq<Bucket>, current: seq<Bucket>, b: Upper): nat {
    if Has(last, b) && Has(current, b) && CountAt(current, b) > CountAt(last, b)
      then CountAt(current, b) - CountAt(last, b) else 0
  }

  function TotalIncrease(hs: seq<seq<Bucket>>, b: Upper): nat {
    if |hs| < 2 then 0 else TotalIncrease(hs[..|hs| - 1], b) + Increase(hs[|hs| - 2], hs[|hs| - 1], b)
  }

  // ---------------------------------------------------------------- totals

  /** The total with an increase put at its place. */
  function Raised(total: seq<Bucket>, t: nat, b: Upper, increase: S.Word): seq<Bucket>
    requires t <= |total|
  {
    if t < |total| && total[t].upper == b then total[t := Bucket(b, (total[t].count + increase) % WORD)]
    else total[..t] + [Bucket(b, increase)] + total[t..]
  }

  ghost predicate Belongs(total: seq<Bucket>, t: nat, b: Upper) {
    && t <= |total| && Valid(b)
    && (forall k :: 0 <= k < t ==> Below(total[k].upper, b))
    && (t < |total| ==> !Below(total[t].upper, b))
  }

  lemma RaisedInOrder(total: seq<Bucket>, t: nat, b: Upper, increase: S.Word)
    requires Ascending(total) && Belongs(total, t, b)
    ensures Ascending(Raised(total, t, b, increase)) && Raised(total, t, b, increase)[t].upper == b
    ensures forall k :: 0 <= k < t ==> Raised(total, t, b, increase)[k] == total[k]
  {
    var r := Raised(total, t, b, increase);
    if !(t < |total| && total[t].upper == b) {
      assert forall k :: 0 <= k < |r| ==>
            r[k] == if k < t then total[k] else if k == t then Bucket(b, increase) else total[k - 1];
      if t < |total| { assert Below(b, total[t].upper); }
    }
  }

  lemma RaisedOther(total: seq<Bucket>, t: nat, b: Upper, increase: S.Word, c: Upper)
    requires Ascending(total) && Belongs(total, t, b) && c != b
    ensures CountAt(Raised(total, t, b, increase), c) == CountAt(total, c)
  {
    var r := Raised(total, t, b, increase);
    RaisedInOrder(total, t, b, increase);
    var inserted := !(t < |total| && total[t].upper == b);
    if Has(total, c) {
      var i :| 0 <= i < |total| && total[i].upper == c;
      var j := if inserted && i >= t then i + 1 else i;
      assert r[j] == total[i];
      CountAtIndex(total, i);
      CountAtIndex(r, j);
    } else {
      forall j | 0 <= j < |r|
        ensures r[j].upper != c
      {
        if j != t { assert r[j] == total[if inserted && j > t then j - 1 else j]; }
      }
      CountAtNone(total, c);
      CountAtNone(r, c);
    }
  }

  lemma BelongsElsewhere(total: seq<Bucket>, t: nat, b: Upper)
    requires Ascending(total) && Belongs(total, t, b) && !(t < |total| && total[t].upper == b)
    ensures !Has(total, b)
  {
    forall k | 0 <= k < |total|
      ensures total[k].upper != b
    {
      if k > t { assert Below(total[t].upper, total[k].upper); }
    }
  }

  lemma RaisedCounts(total: seq<Bucket>, t: nat, b: Upper, increase: S.Word, c: Upper)
    requires Ascending(total) && Belongs(total, t, b)
    ensures CountAt(Raised(total, t, b, increase), c) == (CountAt(total, c) + if c == b then increase else 0) % WORD
  {
    RaisedInOrder(total, t, b, increase);
    if c != b {
      RaisedOther(total, t, b, increase, c);
    } else {
      CountAtIndex(Raised(total, t, b, increase), t);
      if t < |total| && total[t].upper == b {
        CountAtIndex(total, t);
      } else {
        BelongsElsewhere(total, t, b);
        CountAtNone(total, b);
      }
    }
  }

  // ---------------------------------------------------------------- merging two histograms

  lemma OneMoreBucket(s: seq<Bucket>, i: nat, b: Upper)
    requires i < |s|
    ensures Has(s[..i + 1], b) <==> Has(s[..i], b) || s[i].upper == b
    ensures CountAt(s[..i + 1], b) == if s[i].upper == b then s[i].count else CountAt(s[..i], b)
  {
    assert s[..i + 1][..i] == s[..i] && s[..i + 1][i] == s[i];
    assert forall k :: 0 <= k < i ==> s[..i + 1][k] == s[..i][k];
  }

  /** What has been passed in one histogram lies below what comes next in the other. */
  ghost predicate Behind(s: seq<Bucket>, i: nat, other: seq<Bucket>, j: nat) {
    i <= |s| && (j < |other| ==> forall k :: 0 <= k < i ==> Below(s[k].upper, other[j].upper))
  }

  lemma BehindHasNot(s: seq<Bucket>, i: nat, b: Upper)
    requires i <= |s| && forall k :: 0 <= k < i ==> Below(s[k].upper, b)
    ensures !Has(s[..i], b)
  {
  }

  lemma SkippedLast(last: seq<Bucket>, l: nat, current: seq<Bucket>, c: nat, b: Upper)
    requires Ascending(last) && l < |last| && Behind(current, c, last, l)
    ensures Increase(last[..l + 1], current[..c], b) == Increase(last[..l], current[..c], b)
  {
    OneMoreBucket(last, l, b);
    BehindHasNot(current, c, last[l].upper);
  }

  lemma SkippedCurrent(last: seq<Bucket>, l: nat, current: seq<Bucket>, c: nat, b: Upper)
    requires Ascending(current) && c < |current| && Behind(last, l, current, c)
    ensures Increase(last[..l], current[..c + 1], b) == Increase(last[..l], current[..c], b)
  {
    OneMoreBucket(current, c, b);
    BehindHasNot(last, l, current[c].upper);
  }

  lemma MatchedBoth(last: seq<Bucket>, l: nat, current: seq<Bucket>, c: nat, b: Upper)
    requires l < |last| && c < |current| && last[l].upper == current[c].upper
    requires Behind(last, l, current, c) && Behind(current, c, last, l)
    ensures Increase(last[..l + 1], current[..c + 1], b) == Increase(last[..l], current[..c], b)
                  + if b == last[l].upper && current[c].count > last[l].count then current[c].count - last[l].count
                    else 0
  {
    OneMoreBucket(last, l, b);
    OneMoreBucket(current, c, b);
    BehindHasNot(last, l, last[l].upper);
  }

  ghost predicate Accumulates(start: seq<Bucket>, total: seq<Bucket>, last: seq<Bucket>, current: seq<Bucket>) {
    && Ascending(total)
    && forall b :: CountAt(total, b) == (CountAt(start, b) + Increase(last, current, b)) % WORD
  }

  lemma Reduced(a: nat, x: nat, y: nat)
    ensures ((a + x) % WORD + y) % WORD == (a + (x + y)) % WORD
  {
  }

  lemma RaisedAccumulates(start: seq<Bucket>, total: seq<Bucket>, last: seq<Bucket>, l: nat, current: seq<Bucket>,
                          c: nat, t: nat)
    requires l < |last| && c < |current| && last[l].upper == current[c].upper && current[c].count > last[l].count
    requires Behind(last, l, current, c) && Behind(current, c, last, l)
    requires Accumulates(start, total, last[..l], current[..c]) && Belongs(total, t, current[c].upper)
    ensures Accumulates(start, Raised(total, t, current[c].upper, current[c].count - last[l].count), last[..l + 1],
                        current[..c + 1])
  {
    var u, increase := current[c].upper, current[c].count - last[l].count;
    RaisedInOrder(total, t, u, increase);
    forall b
      ensures CountAt(Raised(total, t, u, increase), b) ==
              (CountAt(start, b) + Increase(last[..l + 1], current[..c + 1], b)) % WORD
    {
      RaisedCounts(total, t, u, increase, b);
      MatchedBoth(last, l, current, c, b);
      Reduced(CountAt(start, b), Increase(last[..l], current[..c], b), if b == u then increase else 0);
    }
  }

  /** At the end of either histogram the rest of the other adds nothing. */
  lemma {:induction false} RestAddsNothing(last: seq<Bucket>, l: nat, current: seq<Bucket>, c: nat, b: Upper)
    requires Ascending(last) && Ascending(current) && l <= |last| && c <= |current| && (l == |last| || c == |current|)
    requires Behind(last, l, current, c) && Behind(current, c, last, l)
    ensures Increase(last, current, b) == Increase(last[..l], current[..c], b)
    decreases |last| - l + |current| - c
  {
    if l < |last| {
      SkippedLast(last, l, current, c, b);
      assert l + 1 < |last| ==> Below(last[l].upper, last[l + 1].upper);
      assert forall k :: 0 <= k < c ==> Below(current[k].upper, last[l].upper);
      RestAddsNothing(last, l + 1, current, c, b);
    } else if c < |current| {
      SkippedCurrent(last, l, current, c, b);
      assert c + 1 < |current| ==> Below(current[c].upper, current[c + 1].upper);
      RestAddsNothing(last, l, current, c + 1, b);
    } else {
      assert last[..l] == last && current[..c] == current;
    }
  }

  /** The state of the merge: three positions, with everything before them accounted for. */
  ghost predicate Merged(start: seq<Bucket>, total: seq<Bucket>, last: seq<Bucket>, current: seq<Bucket>, l: nat,
                         c: nat, t: nat) {
    && l <= |last| && c <= |current| && Behind(last, l, current, c) && Behind(current, c, last, l)
    && Behind(total, t, current, c)
    && Accumulates(start, total, last[..l], current[..c])
  }

  lemma NextLast(start: seq<Bucket>, total: seq<Bucket>, last: seq<Bucket>, current: seq<Bucket>, l: nat, c: nat,
                 t: nat)
    requires Ascending(last) && Merged(start, total, last, current, l, c, t) && l < |last| && c < |current|
    requires Below(last[l].upper, current[c].upper)
    ensures Merged(start, total, last, current, l + 1, c, t)
  {
    forall b
      ensures Increase(last[..l + 1], current[..c], b) == Increase(last[..l], current[..c], b)
    {
      SkippedLast(last, l, current, c, b);
    }
  }

  lemma NextCurrent(start: seq<Bucket>, total: seq<Bucket>, last: seq<Bucket>, current: seq<Bucket>, l: nat, c: nat,
                    t: nat)
    requires Ascending(current) && Merged(start, total, last, current, l, c, t) && l < |last| && c < |current|
    requires Below(current[c].upper, last[l].upper)
    ensures Merged(start, total, last, current, l, c + 1, t)
  {
    assert c + 1 < |current| ==> Below(current[c].upper, current[c + 1].upper);
    forall b
      ensures Increase(last[..l], current[..c + 1], b) == Increase(last[..l], current[..c], b)
    {
      SkippedCurrent(last, l, current, c, b);
    }
  }

  lemma NextBoth(start: seq<Bucket>, total: seq<Bucket>, last: seq<Bucket>, current: seq<Bucket>, l: nat, c: nat,
                 t: nat)
    requires Ascending(last) && Ascending(current) && Merged(start, total, last, current, l, c, t) && l < |last|
             && c < |current|
    requires last[l].upper == current[c].upper && current[c].count <= last[l].count
    ensures Merged(start, total, last, current, l + 1, c + 1, t)
  {
    assert c + 1 < |current| ==> Below(current[c].upper, current[c + 1].upper);
    assert l + 1 < |last| ==> Below(last[l].upper, last[l + 1].upper);
    forall b
      ensures Increase(last[..l + 1], current[..c + 1], b) == Increase(last[..l], current[..c], b)
    {
      MatchedBoth(last, l, current, c, b);
    }
  }

  lemma NextRaised(start: seq<Bucket>, total: seq<Bucket>, last: seq<Bucket>, current: seq<Bucket>, l: nat, c: nat,
                   t: nat)
    requires Ascending(last) && Ascending(current) && l < |last| && c < |current|
    requires Behind(last, l, current, c) && Behind(current, c, last, l)
             && Accumulates(start, total, last[..l], current[..c])
    requires Belongs(total, t, current[c].upper) && last[l].upper == current[c].upper
             && current[c].count > last[l].count
    ensures Merged(start, Raised(total, t, current[c].upper, current[c].count - last[l].count), last, current, l + 1,
                   c + 1, t + 1)
  {
    assert c + 1 < |current| ==> Below(current[c].upper, current[c + 1].upper);
    assert l + 1 < |last| ==> Below(last[l].upper, last[l + 1].upper);
    RaisedAccumulates(start, total, last, l, current, c, t);
    RaisedInOrder(total, t, current[c].upper, current[c].count - last[l].count);
  }

  lemma MergedIsDone(start: seq<Bucket>, total: seq<Bucket>, last: seq<Bucket>, current: seq<Bucket>, l: nat, c: nat,
                     t: nat)
    requires Ascending(last) && Ascending(current) && Merged(start, total, last, current, l, c, t)
             && (l == |last| || c == |current|)
    ensures Accumulates(start, total, last, current)
  {
    forall b
      ensures Increase(last, current, b) == Increase(last[..l], current[..c], b)
    {
      RestAddsNothing(last, l, current, c, b);
    }
  }

  ghost predicate Bounded(s: seq<Bucket>) {
    forall i :: 0 <= i < |s| ==> Valid(s[i].upper)
  }

  lemma RaisedIsBounded(total: seq<Bucket>, t: nat, b: Upper, increase: S.Word)
    requires t <= |total| && Bounded(total) && Valid(b)
    ensures Bounded(Raised(total, t, b, increase))
  {
    var r := Raised(total, t, b, increase);
    if !(t < |total| && total[t].upper == b) {
      assert forall k :: 0 <= k < |r| ==>
            r[k] == if k < t then total[k] else if k == t then Bucket(b, increase) else total[k - 1];
    }
  }

  /** Moves on to the place of a bound and raises its count there. */
  method Raise(total: seq<Bucket>, start: nat, upper: Upper, increase: S.Word) returns (r: seq<Bucket>, t: nat)
    requires start <= |total|
    ensures t <= |total| && t < |r| && r == Raised(total, t, upper, increase)
    ensures Valid(upper) && (forall k :: 0 <= k < start ==> Below(total[k].upper, upper)) ==> Belongs(total, t, upper)
  {
    t := start;
    while t < |total| && Below(total[t].upper, upper)
      invariant t <= |total|
      invariant (forall k :: 0 <= k < start ==> Below(total[k].upper, upper)) ==> forall k :: 0 <= k < t ==>
                  Below(total[k].upper, upper)
    {
      t := t + 1;
    }
    if t < |total| && total[t].upper == upper {
      r := total[t := Bucket(upper, (total[t].count + increase) % WORD)];
    } else {
      r := total[..t] + [Bucket(upper, increase)] + total[t..];
    }
  }

  /** Every bound of both histograms is raised by what it rose, modulo 2^64, and no other count changes. */
  ghost predicate RisesWhereShared(start: seq<Bucket>, total: seq<Bucket>, last: seq<Bucket>, current: seq<Bucket>) {
    && (forall i, j :: 0 <= i < |last| && 0 <= j < |current| && last[i].upper == current[j].upper ==>
          CountAt(total, current[j].upper) ==
            (CountAt(start, current[j].upper)
             + if current[j].count > last[i].count then current[j].count - last[i].count else 0) % WORD)
    && (forall b :: (forall i :: 0 <= i < |last| ==> last[i].upper != b) ==> CountAt(total, b) == CountAt(start, b))
    && (forall b :: (forall j :: 0 <= j < |current| ==> current[j].upper != b) ==>
          CountAt(total, b) == CountAt(start, b))
  }

  lemma AccumulatingRises(start: seq<Bucket>, total: seq<Bucket>, last: seq<Bucket>, current: seq<Bucket>)
    requires Ascending(last) && Ascending(current) && Accumulates(start, total, last, current)
    ensures RisesWhereShared(start, total, last, current)
  {
    forall i, j | 0 <= i < |last| && 0 <= j < |current| && last[i].upper == current[j].upper
      ensures CountAt(total, current[j].upper) ==
              (CountAt(start, current[j].upper)
               + if current[j].count > last[i].count then current[j].count - last[i].count else 0) % WORD
    {
      IncreaseIsRise(last, current, current[j].upper);
    }
    forall b | !(Has(last, b) && Has(current, b))
      ensures CountAt(total, b) == CountAt(start, b)
    {
      IncreaseIsRise(last, current, b);
    }
  }

  /** All three lists are in order, and the merge has come this far. */
  ghost predicate InStep(start: seq<Bucket>, total: seq<Bucket>, last: seq<Bucket>, current: seq<Bucket>, l: nat,
                         c: nat, t: nat) {
    Ascending(last) && Ascending(current) && Merged(start, total, last, current, l, c, t)
  }

  /** Two buckets with the same bound. */
  method Match(ghost start: seq<Bucket>, total: seq<Bucket>, last: seq<Bucket>, current: seq<Bucket>, l: nat, c: nat,
               t: nat)
    returns (after: seq<Bucket>, next: nat)
    requires l < |last| && c < |current| && t <= |total| && last[l].upper == current[c].upper
    requires Bounded(total) && Bounded(current)
    ensures next <= |after| && Bounded(after)
    ensures InStep(start, total, last, current, l, c, t) ==> InStep(start, after, last, current, l + 1, c + 1, next)
  {
    if current[c].count > last[l].count {
      after, next := Raise(total, t, current[c].upper, current[c].count - last[l].count);
      RaisedIsBounded(total, next, current[c].upper, current[c].count - last[l].count);
      if InStep(start, total, last, current, l, c, t) { NextRaised(start, total, last, current, l, c, next); }
      next := next + 1;
    } else {
      if InStep(start, total, last, current, l, c, t) { NextBoth(start, total, last, current, l, c, t); }
      after, next := total, t;
    }
  }

  lemma SameBound(a: Upper, b: Upper)
    requires Valid(a) && Valid(b) && !Below(a, b) && !Below(b, a)
    ensures a == b
  {
  }

  /** One turn of the merge where the bounds differ. */
  lemma NextOne(start: seq<Bucket>, total: seq<Bucket>, last: seq<Bucket>, current: seq<Bucket>, l: nat, c: nat, t: nat)
    requires InStep(start, total, last, current, l, c, t) && l < |last| && c < |current|
    ensures Below(last[l].upper, current[c].upper) ==> InStep(start, total, last, current, l + 1, c, t)
    ensures Below(current[c].upper, last[l].upper) ==> InStep(start, total, last, current, l, c + 1, t)
  {
    if Below(last[l].upper, current[c].upper) {
      NextLast(start, total, last, current, l, c, t);
    } else if Below(current[c].upper, last[l].upper) {
      NextCurrent(start, total, last, current, l, c, t);
    }
  }

  /** A bound that both histograms have adds what it rose by, and nothing after a reset; any other bound adds
      nothing. */
  lemma IncreaseIsRise(last: seq<Bucket>, current: seq<Bucket>, b: Upper)
    requires Ascending(last) && Ascending(current)
    ensures forall i, j :: 0 <= i < |last| && 0 <= j < |current| && last[i].upper == b && current[j].upper == b ==>
              Increase(last, current, b) ==
                if current[j].count > last[i].count then current[j].count - last[i].count else 0
    ensures !(Has(last, b) && Has(current, b)) ==> Increase(last, current, b) == 0
  {
    forall i, j | 0 <= i < |last| && 0 <= j < |current| && last[i].upper == b && current[j].upper == b
      ensures Increase(last, current, b) ==
              if current[j].count > last[i].count then current[j].count - last[i].count else 0
    {
      CountAtIndex(last, i);
      CountAtIndex(current, j);
    }
  }

  method Accumulate(start: seq<Bucket>, last: seq<Bucket>, current: seq<Bucket>) returns (total: seq<Bucket>)
    requires Bounded(start) && Bounded(last) && Bounded(current)
    ensures Bounded(total)
    ensures Ascending(start) && Ascending(last) && Ascending(current) ==>
              Accumulates(start, total, last, current) && RisesWhereShared(start, total, last, current)
  {
    total := start;
    var l: nat, c: nat, t: nat := 0, 0, 0;
    ghost var ordered := Ascending(start) && Ascending(last) && Ascending(current);
    while l < |last| && c < |current|
      invariant l <= |last| && c <= |current| && t <= |total| && Bounded(total)
      invariant ordered ==> InStep(start, total, last, current, l, c, t)
      decreases |last| - l + |current| - c
    {
      if ordered { NextOne(start, total, last, current, l, c, t); }
      if Below(last[l].upper, current[c].upper) {
        l := l + 1;
      } else if Below(current[c].upper, last[l].upper) {
        c := c + 1;
      } else {
        SameBound(last[l].upper, current[c].upper);
        total, t := Match(start, total, last, current, l, c, t);
        l, c := l + 1, c + 1;
      }
    }
    if ordered {
      MergedIsDone(start, total, last, current, l, c, t);
      AccumulatingRises(start, total, last, current);
    }
  }

  // ---------------------------------------------------------------- the query result

  ghost predicate InOrder(h: seq<Bucket>) {
    forall i, j :: 0 <= i < j < |h| && Valid(h[i].upper) && Valid(h[j].upper) ==> Below(h[i].upper, h[j].upper)
  }

  method BucketCounts(h: seq<Bucket>) returns (r: Option<seq<Bucket>>)
    ensures r == if forall i :: 0 <= i < |h| ==> Valid(h[i].upper) then Some(h) else None
  {
    var out: seq<Bucket> := [];
    for i := 0 to |h|
      invariant out == h[..i] && forall k :: 0 <= k < i ==> Valid(h[k].upper)
    {
      var upper := h[i].upper;
      if upper.NaN? || upper.NegInf? { return None; }
      out := out + [Bucket(upper, h[i].count)];
    }
    assert h[..|h|] == h;
    return Some(out);
  }

  ghost predicate AllValid(hs: seq<seq<Bucket>>) {
    forall h, i :: 0 <= h < |hs| && 0 <= i < |hs[h]| ==> Valid(hs[h][i].upper)
  }

  lemma PairAdds(hs: seq<seq<Bucket>>, k: nat, b: Upper)
    requires 1 <= k < |hs|
    ensures TotalIncrease(hs[..k + 1], b) == TotalIncrease(hs[..k], b) + Increase(hs[k - 1], hs[k], b)
  {
    assert hs[..k + 1][..k] == hs[..k];
  }

  lemma AccumulatesPair(hs: seq<seq<Bucket>>, k: nat, start: seq<Bucket>, total: seq<Bucket>)
    requires 1 <= k < |hs| && Accumulates(start, total, hs[k - 1], hs[k])
    requires forall b :: CountAt(start, b) == TotalIncrease(hs[..k], b) % WORD
    ensures forall b :: CountAt(total, b) == TotalIncrease(hs[..k + 1], b) % WORD
  {
    forall b
      ensures CountAt(total, b) == TotalIncrease(hs[..k + 1], b) % WORD
    {
      PairAdds(hs, k, b);
      Reduced(0, TotalIncrease(hs[..k], b), Increase(hs[k - 1], hs[k], b));
    }
  }

  function WithKept(samples: seq<S.Sample>, b: Bucket): seq<S.Sample> {
    if b.count > 0 && b.upper.Finite? then samples + [S.Sample(b.upper.value, b.count)] else samples
  }

  lemma KeptCounts(samples: seq<S.Sample>, total: seq<Bucket>, k: nat, v: real)
    requires k < |total| && S.CountOf(samples, v) == CountAt(total[..k], Finite(v)) && Ascending(total)
    ensures S.CountOf(WithKept(samples, total[k]), v) == CountAt(total[..k + 1], Finite(v))
  {
    OneMoreBucket(total, k, Finite(v));
    var b := total[k];
    if b.upper.Finite? {
      assert (samples + [S.Sample(b.upper.value, b.count)])[..|samples|] == samples;
      if b.upper.value == v {
        BehindHasNot(total, k, b.upper);
        CountAtNone(total[..k], b.upper);
      }
    }
  }

  ghost predicate Kept(samples: seq<S.Sample>, total: seq<Bucket>, k: nat)
    requires k <= |total|
  {
    && S.Canonical(samples)
    && (forall j :: 0 <= j < |samples| && k < |total| ==> Below(Finite(samples[j].value), total[k].upper))
    && forall v :: S.CountOf(samples, v) == CountAt(total[..k], Finite(v))
  }

  lemma KeptInOrder(samples: seq<S.Sample>, total: seq<Bucket>, k: nat)
    requires k < |total| && Ascending(total) && S.Canonical(samples)
    requires forall j :: 0 <= j < |samples| ==> Below(Finite(samples[j].value), total[k].upper)
    ensures S.Canonical(WithKept(samples, total[k]))
    ensures forall j :: 0 <= j < |WithKept(samples, total[k])| && k + 1 < |total| ==>
              Below(Finite(WithKept(samples, total[k])[j].value), total[k + 1].upper)
  {
    assert k + 1 < |total| ==> Below(total[k].upper, total[k + 1].upper);
  }

  lemma KeptOneMore(samples: seq<S.Sample>, total: seq<Bucket>, k: nat)
    requires k < |total| && Ascending(total) && Kept(samples, total, k)
    ensures Kept(WithKept(samples, total[k]), total, k + 1)
  {
    KeptInOrder(samples, total, k);
    forall v
      ensures S.CountOf(WithKept(samples, total[k]), v) == CountAt(total[..k + 1], Finite(v))
    {
      KeptCounts(samples, total, k, v);
    }
  }

  /** The finite buckets that rose; the overflow bucket is dropped. */
  method Keep(total: seq<Bucket>) returns (samples: seq<S.Sample>)
    requires Bounded(total)
    ensures Ascending(total) ==> S.Canonical(samples) && forall v :: S.CountOf(samples, v) == CountAt(total, Finite(v))
  {
    samples := [];
    for k := 0 to |total|
      invariant Ascending(total) ==> Kept(samples, total, k)
    {
      if Ascending(total) { KeptOneMore(samples, total, k); }
      if total[k].count > 0 {
        if total[k].upper.PosInf? { continue; }
        samples := samples + [S.Sample(total[k].upper.value, total[k].count)];
      }
    }
    assert total[..|total|] == total;
  }

  ghost predicate AllInOrder(hs: seq<seq<Bucket>>) {
    forall h :: 0 <= h < |hs| ==> InOrder(hs[h])
  }

  /** Fails for fewer than two histograms and for an invalid bound. Where each histogram has its buckets in
      order, as the code assumes: strictly ascending values with positive counts, each the sum of the
      increases of its bucket, modulo 2^64. */
  method SamplesFromHistograms(hs: seq<seq<Bucket>>) returns (r: Outcome)
    ensures r.TooFew? <==> |hs| < 2
    ensures r.InvalidBound? <==> |hs| >= 2 && !AllValid(hs)
    ensures r.Ok? && AllInOrder(hs) ==>
              S.Canonical(r.samples) && forall v :: S.CountOf(r.samples, v) == TotalIncrease(hs, Finite(v)) % WORD
  {
    var n := |hs|;
    if n < 2 { return TooFew(n); }
    var first := BucketCounts(hs[0]);
    if first.None? { return InvalidBound; }
    var last, total: seq<Bucket> := first.value, [];
    for k := 1 to n
      invariant last == hs[k - 1] && AllValid(hs[..k]) && Bounded(last) && Bounded(total)
      invariant AllInOrder(hs) ==> Ascending(total) && forall b :: CountAt(total, b) == TotalIncrease(hs[..k], b) % WORD
    {
      var current := BucketCounts(hs[k]);
      if current.None? { return InvalidBound; }
      ghost var before := total;
      assert AllInOrder(hs) ==> Ascending(hs[k - 1]) && Ascending(hs[k]);
      total := Accumulate(total, last, current.value);
      if AllInOrder(hs) { AccumulatesPair(hs, k, before, total); }
      last := current.value;
    }
    assert hs[..n] == hs;
    var samples := Keep(total);
    return Ok(samples);
  }

  /** A counter that is never reset keeps everything: its increases sum to the last count less the
      first, which fits into 64 bits. */
  lemma {:induction false} IncreasesTelescope(hs: seq<seq<Bucket>>, b: Upper)
    requires |hs| >= 1 && forall h :: 0 <= h < |hs| ==> Has(hs[h], b)
    requires forall h :: 0 <= h < |hs| - 1 ==> CountAt(hs[h], b) <= CountAt(hs[h + 1], b)
    ensures TotalIncrease(hs, b) == CountAt(hs[|hs| - 1], b) - CountAt(hs[0], b) < WORD
  {
    if |hs| >= 2 {
      var rest := hs[..|hs| - 1];
      assert forall h :: 0 <= h < |rest| ==> rest[h] == hs[h];
      IncreasesTelescope(rest, b);
      assert CountAt(hs[|hs| - 2], b) <= CountAt(hs[|hs| - 2 + 1], b);
    }
  }
}
