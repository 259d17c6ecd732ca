/**
The one-sample Kolmogorov-Smirnov statistic, over the reals.

Counts are unsigned 64-bit integers and their sums wrap around; the p-value is not part
of this model.
*/
module KolmogorovSmirnov {
  import opened Options
  import opened Samples
  import opened Sorting

  function Plus(a: Word, b: int): Word {
    (a + b) % WORD
  }

  function Total(s: seq<Sample>): nat {
    if s == [] then 0 else Total(s[..|s| - 1]) + s[|s| - 1].count
  }

  function Abs(x: real): real { if x < 0.0 then -x else x }
  function Max(a: real, b: real): real { if a >= b then a else b }

  ghost predicate Sorted(s: seq<Sample>) {
    SortedBy(s, ByValue)
  }

  // ---------------------------------------------------------------- the statistic

  /** The two differences at a sample: below it with all but one of its counts, and at it. */
  function Below(F: real -> real, v: real, total: nat, n: real): real
    requires n > 0.0
  {
    Abs(F(v) - (total - 1) as real / n)
  }

  function At(F: real -> real, v: real, total: nat, n: real): real
    requires n > 0.0
  {
    Abs(total as real / n - F(v))
  }

  function Statistic(F: real -> real, s: seq<Sample>, n: real): real
    requires n > 0.0
  {
    if s == [] then 0.0
    else
      var rest, last := Statistic(F, s[..|s| - 1], n), s[|s| - 1];
      if last.count == 0 then rest
        else Max(Max(rest, Below(F, last.value, Total(s), n)), At(F, last.value, Total(s), n))
  }

  // ---------------------------------------------------------------- the test

  lemma {:induction false} InsertKeepsTotal(s: seq<Sample>, x: Sample)
    ensures Total(InsertBy(s, x, ByValue)) == Total(s) + x.count
  {
    if s == [] || ByValue(s[|s| - 1]) <= ByValue(x) {
      assert (s + [x])[..|s|] == s;
    } else {
      var rest, last := s[..|s| - 1], s[|s| - 1];
      InsertKeepsTotal(rest, x);
      var r := InsertBy(rest, x, ByValue);
      assert (r + [last])[..|r|] == r;
    }
  }

  lemma {:induction false} SortKeepsTotal(s: seq<Sample>)
    ensures Total(SortBy(s, ByValue)) == Total(s)
  {
    if s != [] {
      SortKeepsTotal(s[..|s| - 1]);
      InsertKeepsTotal(SortBy(s[..|s| - 1], ByValue), s[|s| - 1]);
    }
  }

  lemma {:induction false} TotalOfPrefix(s: seq<Sample>, k: nat)
    requires k <= |s|
    ensures Total(s[..k]) <= Total(s)
  {
    if k < |s| {
      assert s[..|s| - 1][..k] == s[..k];
      TotalOfPrefix(s[..|s| - 1], k);
    } else {
      assert s[..k] == s;
    }
  }

  /** The sum of the counts, and whether the values are already in order. */
  method Scan(samples: array<Sample>) returns (sum: Word, sorted: bool)
    requires samples.Length > 0
    ensures sum == Total(samples[..]) % WORD && (sorted <==> Sorted(samples[..]))
  {
    ghost var s := samples[..];
    sum := samples[0].count;
    var last := samples[0].value;
    sorted := true;
    assert s[..1] == [s[0]] && Total(s[..1]) == Total(s[..1][..0]) + s[0].count;
    for i := 1 to samples.Length
      invariant sum == Total(s[..i]) % WORD && last == s[i - 1].value
      invariant sorted <==> Sorted(s[..i])
    {
      assert s[..i + 1][..i] == s[..i] && s[..i + 1][i] == s[i];
      sorted := sorted && samples[i].value >= last;
      last := samples[i].value;
      sum := Plus(sum, samples[i].count);
    }
    assert s[..samples.Length] == s;
  }

  lemma TotalStep(s: seq<Sample>, k: nat)
    requires k < |s|
    ensures Total(s[..k + 1]) == Total(s[..k]) + s[k].count
  {
    assert s[..k + 1][..k] == s[..k] && s[..k + 1][k] == s[k];
  }

  lemma StatisticStep(F: real -> real, s: seq<Sample>, k: nat, n: real)
    requires n > 0.0 && k < |s|
    ensures Statistic(F, s[..k + 1], n) ==
            if s[k].count == 0 then Statistic(F, s[..k], n)
            else Max(Max(Statistic(F, s[..k], n), Below(F, s[k].value, Total(s[..k + 1]), n)),
                     At(F, s[k].value, Total(s[..k + 1]), n))
  {
    assert s[..k + 1][..k] == s[..k] && s[..k + 1][k] == s[k];
  }

  /** What the loop computes: the same with running sums that wrap around. */
  function Computed(F: real -> real, s: seq<Sample>, n: real): real
    requires n > 0.0
  {
    if s == [] then 0.0
    else
      var rest, last, total := Computed(F, s[..|s| - 1], n), s[|s| - 1], Total(s);
      if last.count == 0 then rest
      else Max(Max(rest, Abs(F(last.value) - ((total - 1) % WORD) as real / n)),
               Abs((total % WORD) as real / n - F(last.value)))
  }

  lemma ComputedStep(F: real -> real, s: seq<Sample>, k: nat, n: real)
    requires n > 0.0 && k < |s| && s[k].count > 0
    ensures Computed(F, s[..k + 1], n) ==
            Max(Max(Computed(F, s[..k], n), Abs(F(s[k].value) - ((Total(s[..k + 1]) - 1) % WORD) as real / n)),
                Abs((Total(s[..k + 1]) % WORD) as real / n - F(s[k].value)))
  {
    assert s[..k + 1][..k] == s[..k] && s[..k + 1][k] == s[k];
  }

  lemma NothingMore(F: real -> real, s: seq<Sample>, k: nat, n: real)
    requires n > 0.0 && k < |s| && s[k].count == 0
    ensures Computed(F, s[..k + 1], n) == Computed(F, s[..k], n) && Total(s[..k + 1]) == Total(s[..k])
  {
    assert s[..k + 1][..k] == s[..k] && s[..k + 1][k] == s[k];
  }

  lemma PlusWraps(total: nat, c: int)
    ensures Plus(total % WORD, c) == (total + c) % WORD
  {
    assert (total % WORD + c) % WORD == (total + c) % WORD;
  }

  /** The running sums around one sample. */
  method Seen(ghost s: seq<Sample>, k: nat, seen: Word, count: Word) returns (below: Word, at: Word)
    requires k < |s| && count == s[k].count > 0 && seen == Total(s[..k]) % WORD
    ensures Total(s[..k + 1]) > 0 && below == (Total(s[..k + 1]) - 1) % WORD && at == Total(s[..k + 1]) % WORD
  {
    TotalStep(s, k);
    PlusWraps(Total(s[..k]), count - 1);
    below := Plus(seen, count - 1);
    PlusWraps(Total(s[..k]) + count - 1, 1);
    at := Plus(below, 1);
  }

  method LargestDifference(F: real -> real, samples: array<Sample>, sum: Word) returns (statistic: real)
    requires sum > 0
    ensures statistic == Computed(F, samples[..], sum as real)
  {
    ghost var s := samples[..];
    var n := sum as real;
    statistic := 0.0;
    var seen: Word, below: Word := 0, 0;
    for i := 0 to samples.Length
      invariant seen == Total(s[..i]) % WORD && statistic == Computed(F, s[..i], n)
    {
      if samples[i].count == 0 {
        NothingMore(F, s, i, n);
        continue;
      }
      ComputedStep(F, s, i, n);
      var expected := F(samples[i].value);
      below, seen := Seen(s, i, seen, samples[i].count);
      statistic := Max(statistic, Abs(expected - below as real / n));
      statistic := Max(statistic, Abs(seen as real / n - expected));
    }
    assert s[..samples.Length] == s;
  }

  method SortSamples(samples: array<Sample>)
    modifies samples
    ensures samples[..] == SortBy(old(samples[..]), ByValue)
    ensures Sorted(samples[..]) && multiset(samples[..]) == multiset(old(samples[..]))
            && Total(samples[..]) == Total(old(samples[..]))
  {
    SortKeepsTotal(samples[..]);
    SortSorts(samples[..], ByValue);
    SortInPlace(samples, ByValue);
  }

  function Outcome(F: real -> real, s: seq<Sample>): Option<real> {
    if Total(s) == 0 then Some(0.0) else if Total(s) % WORD == 0 then None
      else Some(Computed(F, s, (Total(s) % WORD) as real))
  }

  /** The same loop when the sum is zero: the first counted sample divides by it. */
  method DividesByZero(samples: array<Sample>) returns (divides: bool)
    ensures divides <==> Total(samples[..]) > 0
  {
    ghost var s := samples[..];
    for i := 0 to samples.Length
      invariant Total(s[..i]) == 0
    {
      TotalStep(s, i);
      TotalOfPrefix(s, i + 1);
      if samples[i].count != 0 { return true; }
    }
    assert s[..samples.Length] == s;
    return false;
  }

  /** The statistic of the sample, which is sorted in place if it was out of order; none where the
      code divides by zero, which takes counts whose sum wraps around to it. */
  method OneSample(F: real -> real, samples: array<Sample>) returns (r: Option<real>)
    modifies samples
    ensures samples[..] == if Sorted(old(samples[..])) then old(samples[..]) else SortBy(old(samples[..]), ByValue)
    ensures Sorted(samples[..]) && multiset(samples[..]) == multiset(old(samples[..]))
    ensures r == Outcome(F, samples[..])
  {
    if samples.Length == 0 { return Some(0.0); }
    var sum, sorted := Scan(samples);
    if !sorted {
      SortSamples(samples);
    }
    r := Compare(F, samples, sum);
  }

  method Compare(F: real -> real, samples: array<Sample>, sum: Word) returns (r: Option<real>)
    requires sum == Total(samples[..]) % WORD
    ensures r == Outcome(F, samples[..])
  {
    if sum == 0 {
      var divides := DividesByZero(samples);
      return if divides then None else Some(0.0);
    }
    var statistic := LargestDifference(F, samples, sum);
    r := Some(statistic);
  }

  lemma NoWrap(total: nat)
    requires total < WORD
    ensures total % WORD == total
  {
  }

  lemma {:induction false} ComputedIsStatistic(F: real -> real, s: seq<Sample>, n: real)
    requires n > 0.0 && Total(s) < WORD
    ensures Computed(F, s, n) == Statistic(F, s, n)
  {
    if s != [] {
      ComputedIsStatistic(F, s[..|s| - 1], n);
      NoWrap(Total(s));
      if s[|s| - 1].count > 0 { NoWrap(Total(s) - 1); }
    }
  }

  /** As long as the counts fit the result is the statistic. */
  lemma OutcomeIsStatistic(F: real -> real, s: seq<Sample>)
    requires 0 < Total(s) < WORD
    ensures Outcome(F, s) == Some(Statistic(F, s, Total(s) as real))
  {
    NoWrap(Total(s));
    ComputedIsStatistic(F, s, Total(s) as real);
  }

  // ---------------------------------------------------------------- what the statistic bounds

  /** A distribution function: it never falls, and stays between zero and one. */
  ghost predicate IsCdf(F: real -> real) {
    && (forall x, y :: x <= y ==> F(x) <= F(y))
    && forall x :: 0.0 <= F(x) <= 1.0
  }

  /** How many observations are at most x. */
  function AtMost(s: seq<Sample>, x: real): nat {
    if s == [] then 0 else AtMost(s[..|s| - 1], x) + if s[|s| - 1].value <= x then s[|s| - 1].count else 0
  }

  /** The empirical distribution function. */
  function Empirical(s: seq<Sample>, x: real): real
    requires Total(s) > 0
  {
    AtMost(s, x) as real / Total(s) as real
  }

  lemma {:induction false} StatisticCovers(F: real -> real, s: seq<Sample>, n: real, k: nat)
    requires n > 0.0 && k < |s| && s[k].count > 0
    ensures Below(F, s[k].value, Total(s[..k + 1]), n) <= Statistic(F, s, n)
    ensures At(F, s[k].value, Total(s[..k + 1]), n) <= Statistic(F, s, n)
  {
    if k < |s| - 1 {
      StatisticCovers(F, s[..|s| - 1], n, k);
      assert s[..|s| - 1][..k + 1] == s[..k + 1];
    } else {
      assert s[..k + 1] == s;
    }
  }

  /** The statistic is one of the differences it is the largest of. */
  lemma {:induction false} StatisticIsADifference(F: real -> real, s: seq<Sample>, n: real) returns (k: nat)
    requires n > 0.0 && Total(s) > 0
    ensures k < |s| && s[k].count > 0
    ensures Statistic(F, s, n) == Below(F, s[k].value, Total(s[..k + 1]), n)
            || Statistic(F, s, n) == At(F, s[k].value, Total(s[..k + 1]), n)
  {
    var m := |s| - 1;
    assert s[..m + 1] == s;
    if Total(s[..m]) == 0 {
      NothingCounts(F, s[..m], n);
      k := m;
    } else {
      k := StatisticIsADifference(F, s[..m], n);
      assert s[..m][..k + 1] == s[..k + 1];
      if s[m].count > 0 && Statistic(F, s, n) != Statistic(F, s[..m], n) { k := m; }
    }
  }

  lemma {:induction false} NothingCounts(F: real -> real, s: seq<Sample>, n: real)
    requires n > 0.0 && Total(s) == 0
    ensures Statistic(F, s, n) == 0.0
  {
    if s != [] { NothingCounts(F, s[..|s| - 1], n); }
  }

  lemma {:induction false} StatisticNotNegative(F: real -> real, s: seq<Sample>, n: real)
    requires n > 0.0
    ensures Statistic(F, s, n) >= 0.0
  {
    if s != [] { StatisticNotNegative(F, s[..|s| - 1], n); }
  }

  ghost predicate SplitsAt(s: seq<Sample>, k: nat, x: real) {
    k <= |s| && (forall i :: 0 <= i < k ==> s[i].value <= x) && forall i :: k <= i < |s| ==> x < s[i].value
  }

  lemma {:induction false} SplitCounts(s: seq<Sample>, k: nat, x: real)
    requires SplitsAt(s, k, x)
    ensures AtMost(s, x) == Total(s[..k])
  {
    if s == [] {
    } else if k == |s| {
      assert s[..k] == s && s[..|s| - 1][..|s| - 1] == s[..|s| - 1];
      SplitCounts(s[..|s| - 1], |s| - 1, x);
    } else {
      assert s[..|s| - 1][..k] == s[..k];
      SplitCounts(s[..|s| - 1], k, x);
    }
  }

  lemma {:induction false} SplitPoint(s: seq<Sample>, x: real) returns (k: nat)
    requires Sorted(s)
    ensures SplitsAt(s, k, x)
  {
    if s == [] || s[|s| - 1].value <= x { k := |s|; } else { k := SplitPoint(s[..|s| - 1], x); }
  }

  lemma {:induction false} LastCounted(s: seq<Sample>, k: nat) returns (j: nat)
    requires k <= |s| && Total(s[..k]) > 0
    ensures j < k && s[j].count > 0 && Total(s[..j + 1]) == Total(s[..k])
  {
    assert s[..k][..k - 1] == s[..k - 1];
    if s[k - 1].count > 0 { j := k - 1; } else { j := LastCounted(s, k - 1); }
  }

  lemma {:induction false} FirstCounted(s: seq<Sample>, k: nat) returns (j: nat)
    requires k <= |s| && Total(s[..k]) < Total(s)
    ensures k <= j < |s| && s[j].count > 0 && Total(s[..j + 1]) == Total(s[..k]) + s[j].count
    decreases |s| - k
  {
    assert s[..|s|] == s;
    assert s[..k + 1][..k] == s[..k];
    if s[k].count > 0 { j := k; } else { j := FirstCounted(s, k + 1); }
  }

  lemma Ratio(a: int, b: int, n: real)
    requires n > 0.0
    ensures (a + b) as real / n == a as real / n + b as real / n
    ensures b >= 0 ==> b as real / n >= 0.0
  {
  }

  lemma Whole(n: nat)
    requires n > 0
    ensures n as real / n as real == 1.0
  {
  }

  /** Nowhere does the sample run ahead of the reference by more than the statistic. */
  lemma StatisticBoundsLead(F: real -> real, s: seq<Sample>, x: real)
    requires IsCdf(F) && Sorted(s) && Total(s) > 0
    ensures Empirical(s, x) - F(x) <= Statistic(F, s, Total(s) as real)
  {
    var n := Total(s) as real;
    var k := SplitPoint(s, x);
    SplitCounts(s, k, x);
    StatisticNotNegative(F, s, n);
    if Total(s[..k]) > 0 {
      var j := LastCounted(s, k);
      StatisticCovers(F, s, n, j);
      assert F(s[j].value) <= F(x);
    } else {
      Ratio(0, 0, n);
    }
  }

  lemma Lag(f: real, next: real, total: int, c: int, most: int, n: real, d: real)
    requires n > 0.0 && c <= most && f <= next && Abs(next - (total + c) as real / n) <= d
    ensures f - total as real / n <= d + most as real / n
  {
    Ratio(total, c, n);
    Ratio(c, most - c, n);
  }

  lemma LagBelow(f: real, F: real -> real, v: real, total: nat, c: nat, most: nat, n: real, d: real)
    requires n > 0.0 && 1 <= c <= most && f <= F(v) && Below(F, v, total + c, n) <= d
    ensures f - total as real / n <= d + (most - 1) as real / n
  {
    assert total + c - 1 == total + (c - 1);
    Lag(f, F(v), total, c - 1, most - 1, n, d);
  }

  lemma LagAtNext(F: real -> real, s: seq<Sample>, k: nat, j: nat, x: real, most: nat)
    requires IsCdf(F) && Total(s) > 0 && k <= j < |s| && x < s[j].value && 1 <= s[j].count <= most
    requires Total(s[..j + 1]) == Total(s[..k]) + s[j].count
    ensures var n := Total(s) as real; F(x) - Total(s[..k]) as real / n <= Statistic(F, s, n) + (most - 1) as real / n
  {
    StatisticCovers(F, s, Total(s) as real, j);
    LagBelow(F(x), F, s[j].value, Total(s[..k]), s[j].count, most, Total(s) as real, Statistic(F, s, Total(s) as real));
  }

  /** Nor does it lag behind by more than the statistic and the share of all but one count of a sample. */
  lemma StatisticBoundsLag(F: real -> real, s: seq<Sample>, x: real, most: nat)
    requires IsCdf(F) && Sorted(s) && Total(s) > 0 && most >= 1 && forall i :: 0 <= i < |s| ==> s[i].count <= most
    ensures F(x) - Empirical(s, x) <= Statistic(F, s, Total(s) as real) + (most - 1) as real / Total(s) as real
  {
    var n := Total(s) as real;
    var k := SplitPoint(s, x);
    SplitCounts(s, k, x);
    StatisticNotNegative(F, s, n);
    Ratio(0, most - 1, n);
    TotalOfPrefix(s, k);
    if Total(s[..k]) < Total(s) {
      var j := FirstCounted(s, k);
      LagAtNext(F, s, k, j, x, most);
    } else {
      Whole(Total(s));
      assert F(x) <= 1.0;
    }
  }

  /** For single observations the finite maximum bounds the difference everywhere. */
  lemma StatisticDominates(F: real -> real, s: seq<Sample>, x: real)
    requires IsCdf(F) && Sorted(s) && Total(s) > 0 && forall i :: 0 <= i < |s| ==> s[i].count <= 1
    ensures Abs(Empirical(s, x) - F(x)) <= Statistic(F, s, Total(s) as real)
  {
    StatisticBoundsLead(F, s, x);
    StatisticBoundsLag(F, s, x, 1);
    Ratio(0, 0, Total(s) as real);
  }

  // ---------------------------------------------------------------- larger counts

  ghost predicate Dominates(F: real -> real, s: seq<Sample>)
    requires Total(s) > 0
  {
    forall x :: Abs(Empirical(s, x) - F(x)) <= Statistic(F, s, Total(s) as real)
  }

  /** The first counted sample from j on that is not below x, or the end. */
  function NextCounted(s: seq<Sample>, j: nat, x: real): (k: nat)
    requires j <= |s|
    ensures j <= k <= |s| && (k < |s| ==> s[k].count > 0 && x <= s[k].value)
    ensures forall i :: j <= i < k ==> s[i].count == 0 || s[i].value < x
    decreases |s| - j
  {
    if j == |s| || (s[j].count > 0 && x <= s[j].value) then j else NextCounted(s, j + 1, x)
  }

  /** Half a count less than a total, as a share. */
  function Less(total: int, n: real): real
    requires n > 0.0
  {
    (total as real - 0.5) / n
  }

  /** The reference that runs half a count behind the sample at each value, and ahead of it just below. */
  function Stairs(s: seq<Sample>, x: real): real
    requires Total(s) > 0
  {
    var k := NextCounted(s, 0, x);
    if k == |s| then 1.0 else Less(Total(s[..k + 1]), Total(s) as real)
  }

  lemma QuotientOrder(a: real, b: real, n: real)
    requires n > 0.0 && a <= b
    ensures a / n <= b / n && (a < b ==> a / n < b / n)
  {
    assert (b - a) / n == b / n - a / n;
  }

  lemma LessOrder(a: int, b: int, n: nat)
    requires 1 <= a <= b <= n
    ensures 0.0 <= Less(a, n as real) <= Less(b, n as real) <= 1.0
  {
    QuotientOrder(0.0, a as real - 0.5, n as real);
    QuotientOrder(a as real - 0.5, b as real - 0.5, n as real);
    QuotientOrder(b as real - 0.5, n as real, n as real);
    Whole(n);
  }

  lemma {:induction false} TotalRises(s: seq<Sample>, k: nat, l: nat)
    requires k <= l <= |s|
    ensures Total(s[..k]) <= Total(s[..l])
  {
    if k < l {
      TotalRises(s, k, l - 1);
      assert s[..l][..l - 1] == s[..l - 1];
    }
  }

  lemma TotalStarts(s: seq<Sample>, k: nat)
    requires k < |s| && s[k].count > 0
    ensures Total(s[..k + 1]) >= 1
  {
    TotalStep(s, k);
  }

  lemma PrefixTotals(s: seq<Sample>, k: nat, l: nat)
    requires k <= l < |s| && s[k].count > 0
    ensures 1 <= Total(s[..k + 1]) <= Total(s[..l + 1])
  {
    TotalStarts(s, k);
    TotalRises(s, k + 1, l + 1);
  }

  lemma StairsRise(s: seq<Sample>, x: real, y: real)
    requires Total(s) > 0 && x <= y
    ensures 0.0 <= Stairs(s, x) <= Stairs(s, y) <= 1.0
  {
    var k, l := NextCounted(s, 0, x), NextCounted(s, 0, y);
    assert k <= l;
    if k < |s| {
      var m := if l < |s| then l else k;
      PrefixTotals(s, k, m);
      TotalOfPrefix(s, m + 1);
      LessOrder(Total(s[..k + 1]), Total(s[..m + 1]), Total(s));
    }
  }

  lemma StairsAreCdf(s: seq<Sample>)
    requires Total(s) > 0
    ensures IsCdf(x => Stairs(s, x))
  {
    forall x, y | x <= y
      ensures 0.0 <= Stairs(s, x) <= Stairs(s, y) <= 1.0
    {
      StairsRise(s, x, y);
    }
    assert forall x :: x <= x ==> 0.0 <= Stairs(s, x) <= 1.0;
  }

  lemma HalfCount(F: real -> real, v: real, total: nat, n: real)
    requires n > 0.0 && total > 0 && F(v) == Less(total, n)
    ensures Below(F, v, total, n) == 0.5 / n && At(F, v, total, n) == 0.5 / n
  {
    QuotientOrder(0.0, 0.5, n);
    var t := total as real;
    assert (total - 1) as real == t - 1.0;
    assert (t - 0.5) / n - (t - 1.0) / n == 0.5 / n;
    assert t / n - (t - 0.5) / n == 0.5 / n;
  }

  lemma StairsAt(s: seq<Sample>, k: nat)
    requires Ascending(s) && k < |s| && s[k].count > 0 && Total(s) > 0
    ensures Total(s[..k + 1]) > 0 && Stairs(s, s[k].value) == Less(Total(s[..k + 1]), Total(s) as real)
  {
    TotalStarts(s, k);
    assert NextCounted(s, 0, s[k].value) == k;
  }

  lemma {:induction false} StairsStatistic(s: seq<Sample>, F: real -> real, m: nat, n: real, d: real)
    requires Ascending(s) && Total(s) > 0 && m <= |s| && n == Total(s) as real && d == 0.5 / n >= 0.0
    requires forall x :: F(x) == Stairs(s, x)
    ensures Statistic(F, s[..m], n) <= d
  {
    if m > 0 {
      StairsStatistic(s, F, m - 1, n, d);
      StatisticStep(F, s, m - 1, n);
      if s[m - 1].count > 0 {
        StairsAt(s, m - 1);
        HalfCount(F, s[m - 1].value, Total(s[..m]), n);
      }
    }
  }

  lemma JustBelow(s: seq<Sample>, k: nat) returns (x: real)
    requires Ascending(s) && k < |s|
    ensures x < s[k].value && SplitsAt(s, k, x) && (s[k].count > 0 ==> NextCounted(s, 0, x) == k)
  {
    x := if k == 0 then s[k].value - 1.0 else (s[k - 1].value + s[k].value) / 2.0;
    assert k > 0 ==> s[k - 1].value < x;
  }

  lemma LessLead(total: nat, count: nat, n: real)
    requires n > 0.0 && count >= 2
    ensures Abs(total as real / n - Less(total + count, n)) > 0.5 / n >= 0.0
  {
    var t, c := total as real, count as real;
    QuotientOrder(0.0, 0.5, n);
    QuotientOrder(0.5, c - 0.5, n);
    assert (total + count) as real - 0.5 == t + (c - 0.5);
    assert (t + (c - 0.5)) / n - t / n == (c - 0.5) / n;
  }

  lemma StairsLeadBy(s: seq<Sample>, k: nat, x: real, total: nat, n: nat)
    requires k < |s| && s[k].count >= 2 && NextCounted(s, 0, x) == k && n == Total(s) > 0
    requires AtMost(s, x) == total && Total(s[..k + 1]) == total + s[k].count
    ensures Abs(Empirical(s, x) - Stairs(s, x)) > 0.5 / n as real >= 0.0
  {
    LessLead(total, s[k].count, n as real);
  }

  lemma StairsLead(s: seq<Sample>, k: nat) returns (x: real)
    requires Ascending(s) && Total(s) > 0 && k < |s| && s[k].count >= 2
    ensures Abs(Empirical(s, x) - Stairs(s, x)) > 0.5 / Total(s) as real >= 0.0
  {
    TotalStep(s, k);
    x := JustBelow(s, k);
    SplitCounts(s, k, x);
    StairsLeadBy(s, k, x, Total(s[..k]), Total(s));
  }

  /** Any larger count lets a reference escape just below its sample: the code compares it there with
      all but one of the counts. */
  lemma LargeCountsEscape(s: seq<Sample>, k: nat)
    requires Ascending(s) && Total(s) > 0 && k < |s| && s[k].count >= 2
    ensures IsCdf(x => Stairs(s, x)) && !Dominates(x => Stairs(s, x), s)
  {
    var F, n := x => Stairs(s, x), Total(s) as real;
    StairsAreCdf(s);
    var x := StairsLead(s, k);
    StairsStatistic(s, F, |s|, n, 0.5 / n);
    assert s[..|s|] == s;
    assert Abs(Empirical(s, x) - F(x)) > Statistic(F, s, n);
  }

  /** For different values the statistic bounds the difference to every reference exactly if none of
      them was observed more than once. */
  lemma DominatesExactly(s: seq<Sample>)
    requires Ascending(s) && Total(s) > 0
    ensures (forall F :: IsCdf(F) ==> Dominates(F, s)) <==> (forall k :: 0 <= k < |s| ==> s[k].count <= 1)
  {
    if k :| 0 <= k < |s| && s[k].count > 1 {
      LargeCountsEscape(s, k);
    } else {
      forall F, x | IsCdf(F)
        ensures Abs(Empirical(s, x) - F(x)) <= Statistic(F, s, Total(s) as real)
      {
        StatisticDominates(F, s, x);
      }
    }
  }

  // ---------------------------------------------------------------- the bound is tight

  ghost predicate Near(F: real -> real, v: real, y: real, error: real) {
    y < v && forall z :: y <= z < v ==> F(v) - F(z) < error
  }

  /** Continuity from the left, for one size of error. */
  ghost predicate LeftContinuous(F: real -> real, v: real, error: real) {
    exists y :: Near(F, v, y, error)
  }

  ghost predicate Distinct(s: seq<Sample>) {
    && (forall i, j :: 0 <= i < j < |s| ==> s[i].value < s[j].value)
    && forall i :: 0 <= i < |s| ==> s[i].count == 1
  }

  lemma AttainedAt(F: real -> real, s: seq<Sample>, k: nat)
    requires Distinct(s) && k < |s| && Total(s) > 0
    ensures Abs(Empirical(s, s[k].value) - F(s[k].value)) == At(F, s[k].value, Total(s[..k + 1]), Total(s) as real)
  {
    SplitCounts(s, k + 1, s[k].value);
  }

  lemma AttainedBelow(F: real -> real, s: seq<Sample>, k: nat, error: real) returns (x: real)
    requires IsCdf(F) && Distinct(s) && k < |s| && Total(s) > 0 && LeftContinuous(F, s[k].value, error)
    ensures Abs(Empirical(s, x) - F(x)) > Below(F, s[k].value, Total(s[..k + 1]), Total(s) as real) - error
  {
    var v := s[k].value;
    var y :| Near(F, v, y, error);
    x := if k == 0 || s[k - 1].value <= y then y else s[k - 1].value;
    assert y <= x < v && F(x) <= F(v) && F(v) - F(x) < error;
    SplitCounts(s, k, x);
    assert s[..k + 1][..k] == s[..k];
  }

  /** The statistic of distinct single observations is the least bound there is: with a reference
      that is continuous from the left at them, the difference comes as close to it as one likes. */
  lemma StatisticIsTight(F: real -> real, s: seq<Sample>, error: real) returns (x: real)
    requires IsCdf(F) && Distinct(s) && Total(s) > 0 && error > 0.0
    requires forall k :: 0 <= k < |s| ==> LeftContinuous(F, s[k].value, error)
    ensures Statistic(F, s, Total(s) as real) - error < Abs(Empirical(s, x) - F(x)) <= Statistic(F, s, Total(s) as real)
  {
    var k := StatisticIsADifference(F, s, Total(s) as real);
    if Statistic(F, s, Total(s) as real) == At(F, s[k].value, Total(s[..k + 1]), Total(s) as real) {
      x := s[k].value;
      AttainedAt(F, s, k);
    } else {
      x := AttainedBelow(F, s, k, error);
    }
    StatisticDominates(F, s, x);
  }
}
