/**
Sample lists: values with how often each occurs. Counts are unsigned 64-bit integers,
values are finite numbers.
*/
module Samples {
  import opened Options
  import opened Sorting

  const WORD: nat := 0x1_0000_0000_0000_0000
  type Word = x: int | 0 <= x < 0x1_0000_0000_0000_0000

  datatype Sample = Sample(value: real, count: Word)

  function ByValue(s: Sample): real { s.value }
  function Same(x: real): real { x }

  ghost predicate Ascending(s: seq<Sample>) {
    forall i, j :: 0 <= i < j < |s| ==> s[i].value < s[j].value
  }

  /** How often a value occurs in all samples that name it. */
  function CountOf(s: seq<Sample>, v: real): nat {
    if s == [] then 0 else CountOf(s[..|s| - 1], v) + if s[|s| - 1].value == v then s[|s| - 1].count else 0
  }

  lemma {:induction false} CountOfConcat(a: seq<Sample>, b: seq<Sample>, v: real)
    ensures CountOf(a + b, v) == CountOf(a, v) + CountOf(b, v)
  {
    if b == [] {
      assert a + b == a;
    } else {
      assert (a + b)[..|a + b| - 1] == a + b[..|b| - 1];
      CountOfConcat(a, b[..|b| - 1], v);
    }
  }

  lemma CountOfOne(x: Sample, v: real)
    ensures CountOf([x], v) == if x.value == v then x.count else 0
  {
    assert [x][..0] == [];
  }

  lemma CountOfInserted(s: seq<Sample>, i: nat, x: Sample, v: real)
    requires i <= |s|
    ensures CountOf(s[..i] + [x] + s[i..], v) == CountOf(s, v) + if x.value == v then x.count else 0
  {
    CountOfConcat(s[..i] + [x], s[i..], v);
    CountOfConcat(s[..i], [x], v);
    CountOfOne(x, v);
    assert s == s[..i] + s[i..];
    CountOfConcat(s[..i], s[i..], v);
  }

  lemma CountOfUpdated(s: seq<Sample>, i: nat, x: Sample, v: real)
    requires i < |s| && x.value == s[i].value
    ensures CountOf(s[i := x], v) == CountOf(s, v) + if x.value == v then x.count - s[i].count else 0
  {
    assert s[i := x] == s[..i] + [x] + s[i + 1..] && s == s[..i] + [s[i]] + s[i + 1..];
    CountOfConcat(s[..i] + [x], s[i + 1..], v);
    CountOfConcat(s[..i] + [s[i]], s[i + 1..], v);
    CountOfConcat(s[..i], [x], v);
    CountOfConcat(s[..i], [s[i]], v);
    CountOfOne(x, v);
    CountOfOne(s[i], v);
  }

  lemma {:induction false} CountOfAbsent(s: seq<Sample>, v: real)
    requires forall i :: 0 <= i < |s| ==> s[i].value != v
    ensures CountOf(s, v) == 0
  {
    if s != [] { CountOfAbsent(s[..|s| - 1], v); }
  }

  /** In an ascending list the count of a value is that of its one sample. */
  lemma CountOfPresent(s: seq<Sample>, i: nat)
    requires Ascending(s) && i < |s|
    ensures CountOf(s, s[i].value) == s[i].count
  {
    assert s == s[..i] + [s[i]] + s[i + 1..];
    CountOfConcat(s[..i] + [s[i]], s[i + 1..], s[i].value);
    CountOfConcat(s[..i], [s[i]], s[i].value);
    CountOfOne(s[i], s[i].value);
    CountOfAbsent(s[..i], s[i].value);
    CountOfAbsent(s[i + 1..], s[i].value);
  }

  // ---------------------------------------------------------------- the canonical form

  ghost predicate Canonical(s: seq<Sample>) {
    Ascending(s) && forall i :: 0 <= i < |s| ==> s[i].count > 0
  }

  lemma LastValuesMeet(a: seq<Sample>, b: seq<Sample>)
    requires Canonical(a) && Canonical(b) && a != [] && b != [] && forall v :: CountOf(a, v) == CountOf(b, v)
    ensures a[|a| - 1].value <= b[|b| - 1].value
  {
    var v := a[|a| - 1].value;
    CountOfPresent(a, |a| - 1);
    assert CountOf(b, v) == CountOf(a, v) > 0;
    if forall i :: 0 <= i < |b| ==> b[i].value != v {
      CountOfAbsent(b, v);
    } else {
      var i :| 0 <= i < |b| && b[i].value == v;
      assert i < |b| - 1 ==> b[i].value < b[|b| - 1].value;
    }
  }

  lemma EmptyCounts(a: seq<Sample>)
    requires Canonical(a) && forall v :: CountOf(a, v) == 0
    ensures a == []
  {
    if a != [] { CountOfPresent(a, 0); }
  }

  /** Counts determine the canonical form: whoever counts the same values gets the same list. */
  lemma {:induction false} CanonicalIsUnique(a: seq<Sample>, b: seq<Sample>)
    requires Canonical(a) && Canonical(b) && forall v :: CountOf(a, v) == CountOf(b, v)
    ensures a == b
  {
    if a == [] {
      EmptyCounts(b);
    } else if b == [] {
      EmptyCounts(a);
    } else {
      LastValuesMeet(a, b);
      LastValuesMeet(b, a);
      CountOfPresent(a, |a| - 1);
      CountOfPresent(b, |b| - 1);
      var x, y := a[|a| - 1], b[|b| - 1];
      assert x.value == y.value && CountOf(a, x.value) == CountOf(b, x.value);
      var c, d := a[..|a| - 1], b[..|b| - 1];
      forall v
        ensures CountOf(c, v) == CountOf(d, v)
      {
        assert CountOf(a, v) == CountOf(b, v);
      }
      CanonicalIsUnique(c, d);
      assert a == c + [x] && b == d + [y];
    }
  }

  ghost predicate Counts(s: seq<Sample>, values: seq<real>) {
    Canonical(s) && forall v :: CountOf(s, v) == multiset(values)[v]
  }

  // ---------------------------------------------------------------- counting values

  lemma {:induction false} RunCounts(s: seq<real>, i: nat, j: nat, v: real)
    requires i <= j <= |s| && forall k :: i <= k < j ==> s[k] == v
    ensures multiset(s[..j]) == multiset(s[..i])[v := multiset(s[..i])[v] + j - i]
  {
    if i < j {
      RunCounts(s, i, j - 1, v);
      assert s[..j] == s[..j - 1] + [s[j - 1]];
    }
  }

  /** The runs of a sorted list before position i have been counted. */
  ghost predicate Counted(result: seq<Sample>, s: seq<real>, i: nat)
    requires i < |s|
  {
    && Canonical(result) && (forall k :: 0 <= k < |result| ==> result[k].value < s[i])
    && forall v :: CountOf(result, v) == multiset(s[..i])[v]
  }

  lemma RunIsCounted(result: seq<Sample>, s: seq<real>, i: nat, j: nat)
    requires i < j <= |s| < WORD && Counted(result, s, i) && (forall k :: i <= k < j ==> s[k] == s[i])
    ensures var r := result + [Sample(s[i], j - i)];
            && Canonical(r) && (forall k :: 0 <= k < |r| ==> r[k].value <= s[i])
            && forall v :: CountOf(r, v) == multiset(s[..j])[v]
  {
    RunCounts(s, i, j, s[i]);
    assert (result + [Sample(s[i], j - i)])[..|result|] == result;
  }

  method CountRuns(values: array<real>) returns (result: seq<Sample>)
    requires 0 < values.Length < WORD && SortedBy(values[..], Same)
    ensures Counts(result, values[..])
  {
    ghost var s := values[..];
    var n := values.Length;
    result := [];
    var i := 0;
    var lastValue, lastIndex := values[i], i;
    while i < n
      invariant 0 <= lastIndex <= i <= n && lastIndex < n && lastValue == s[lastIndex]
      invariant forall k :: lastIndex <= k < i ==> s[k] == lastValue
      invariant Counted(result, s, lastIndex)
    {
      var value := values[i];
      if value != lastValue {
        RunIsCounted(result, s, lastIndex, i);
        result := result + [Sample(lastValue, i - lastIndex)];
        assert Same(s[lastIndex]) <= Same(s[i]);
        lastIndex := i;
        lastValue := value;
      }
      i := i + 1;
    }
    RunIsCounted(result, s, lastIndex, n);
    result := result + [Sample(lastValue, n - lastIndex)];
    assert s[..n] == s;
  }

  /** Sorts the values in place and counts each run. */
  method CountSamples(values: array<real>) returns (result: seq<Sample>)
    requires values.Length < WORD
    modifies values
    ensures values[..] == SortBy(old(values[..]), Same)
    ensures Counts(result, old(values[..]))
  {
    if values.Length == 0 { return []; }
    SortSorts(values[..], Same);
    SortInPlace(values, Same);
    result := CountRuns(values);
  }

  // ---------------------------------------------------------------- inserting values

  /** Where a value is, or where it belongs. */
  method Search(s: seq<Sample>, value: real) returns (i: nat, found: bool)
    requires SortedBy(s, ByValue)
    ensures i <= |s| && (forall k :: 0 <= k < i ==> s[k].value < value)
            && (forall k :: i <= k < |s| ==> value <= s[k].value)
    ensures found <==> i < |s| && s[i].value == value
  {
    i := 0;
    var j := |s|;
    while i < j
      invariant 0 <= i <= j <= |s|
      invariant forall k :: 0 <= k < i ==> s[k].value < value
      invariant forall k :: j <= k < |s| ==> value <= s[k].value
    {
      var h := (i + j) / 2;
      assert forall k :: 0 <= k < h ==> ByValue(s[k]) <= ByValue(s[h]);
      assert forall k :: h < k < |s| ==> ByValue(s[h]) <= ByValue(s[k]);
      if s[h].value < value { i := h + 1; } else { j := h; }
    }
    found := i < |s| && s[i].value == value;
  }

  ghost predicate Belongs(s: seq<Sample>, i: nat, value: real) {
    && i <= |s| && (forall k :: 0 <= k < i ==> s[k].value < value) && (forall k :: i <= k < |s| ==> value <= s[k].value)
  }

  /** A sample put where the search says: counted in if the value is there, inserted if not. */
  function Placed(s: seq<Sample>, i: nat, x: Sample): seq<Sample>
    requires i <= |s| && (i < |s| && s[i].value == x.value ==> s[i].count + x.count < WORD)
  {
    if i < |s| && s[i].value == x.value then s[i := Sample(x.value, s[i].count + x.count)] else s[..i] + [x] + s[i..]
  }

  lemma PlacedCounts(s: seq<Sample>, i: nat, x: Sample, v: real)
    requires i <= |s| && (i < |s| && s[i].value == x.value ==> s[i].count + x.count < WORD)
    ensures CountOf(Placed(s, i, x), v) == CountOf(s, v) + if x.value == v then x.count else 0
  {
    if i < |s| && s[i].value == x.value {
      CountOfUpdated(s, i, Sample(x.value, s[i].count + x.count), v);
    } else {
      CountOfInserted(s, i, x, v);
    }
  }

  lemma PlacedInOrder(s: seq<Sample>, i: nat, x: Sample)
    requires Belongs(s, i, x.value) && (i < |s| && s[i].value == x.value ==> s[i].count + x.count < WORD)
    ensures SortedBy(s, ByValue) ==> SortedBy(Placed(s, i, x), ByValue)
    ensures Ascending(s) ==> Ascending(Placed(s, i, x))
    ensures Canonical(s) && x.count > 0 ==> Canonical(Placed(s, i, x))
  {
    if !(i < |s| && s[i].value == x.value) { InsertedInOrder(s, i, x, Placed(s, i, x)); }
  }

  lemma InsertedInOrder(s: seq<Sample>, i: nat, x: Sample, t: seq<Sample>)
    requires Belongs(s, i, x.value) && !(i < |s| && s[i].value == x.value) && t == s[..i] + [x] + s[i..]
    ensures SortedBy(s, ByValue) ==> SortedBy(t, ByValue)
    ensures Ascending(s) ==> Ascending(t)
    ensures Canonical(s) && x.count > 0 ==> Canonical(t)
  {
    forall k | 0 <= k < |t|
      ensures t[k] == InsertedAt(s, i, x, k) && (Canonical(s) && x.count > 0 ==> t[k].count > 0)
    {
    }
    forall j, k | 0 <= j < k < |t|
      ensures SortedBy(s, ByValue) ==> ByValue(t[j]) <= ByValue(t[k])
      ensures Ascending(s) ==> t[j].value < t[k].value
    {
      InsertedPair(s, i, x, j, k);
    }
  }

  function InsertedAt(s: seq<Sample>, i: nat, x: Sample, k: nat): Sample
    requires i <= |s| && k <= |s|
  {
    if k < i then s[k] else if k == i then x else s[k - 1]
  }

  lemma InsertedPair(s: seq<Sample>, i: nat, x: Sample, j: nat, k: nat)
    requires Belongs(s, i, x.value) && !(i < |s| && s[i].value == x.value) && j < k <= |s|
    ensures SortedBy(s, ByValue) ==> ByValue(InsertedAt(s, i, x, j)) <= ByValue(InsertedAt(s, i, x, k))
    ensures Ascending(s) ==> InsertedAt(s, i, x, j).value < InsertedAt(s, i, x, k).value
  {
    if Ascending(s) && i < |s| { assert x.value < s[i].value; }
  }

  /** A value as the query returns it. */
  datatype Number = Finite(value: real) | NaN | Infinite(positive: bool)

  function Finites(values: seq<Number>): seq<real>
    requires forall v :: v in values ==> v.Finite?
  {
    seq(|values|, i requires 0 <= i < |values| => assert values[i] in values; values[i].value)
  }

  lemma AscendingIsSorted(s: seq<Sample>)
    requires Ascending(s)
    ensures SortedBy(s, ByValue)
  {
  }

  method CountValue(samples: seq<Sample>, value: real, ghost seen: seq<real>) returns (r: seq<Sample>)
    requires Counts(samples, seen) && |seen| < WORD - 1
    ensures Counts(r, seen + [value])
  {
    AscendingIsSorted(samples);
    var i, found := Search(samples, value);
    CountsFit(samples, seen, value);
    if found { CountOfPresent(samples, i); }
    PlacedInOrder(samples, i, Sample(value, 1));
    forall v
      ensures CountOf(Placed(samples, i, Sample(value, 1)), v) == multiset(seen + [value])[v]
    {
      PlacedCounts(samples, i, Sample(value, 1), v);
    }
    if found {
      r := samples[i := Sample(value, samples[i].count + 1)];
    } else {
      r := samples[..i] + [Sample(value, 1)] + samples[i..];
    }
  }

  /** Values that are not finite are refused; the others are counted. */
  method SamplesFromValues(values: seq<Number>) returns (r: Option<seq<Sample>>)
    requires |values| < WORD
    ensures r.Some? <==> forall v :: v in values ==> v.Finite?
    ensures r.Some? ==> Counts(r.value, Finites(values))
  {
    var samples: seq<Sample> := [];
    ghost var seen: seq<real> := [];
    for n := 0 to |values|
      invariant Counts(samples, seen) && |seen| == n
      invariant forall k :: 0 <= k < n ==> values[k] == Finite(seen[k])
    {
      if !values[n].Finite? {
        assert values[n] in values;
        return None;
      }
      samples := CountValue(samples, values[n].value, seen);
      seen := seen + [values[n].value];
    }
    assert seen == Finites(values);
    return Some(samples);
  }

  lemma {:induction false} MultisetFits(seen: seq<real>, v: real)
    ensures multiset(seen)[v] <= |seen|
  {
    if seen != [] {
      MultisetFits(seen[..|seen| - 1], v);
      assert seen == seen[..|seen| - 1] + [seen[|seen| - 1]];
    }
  }

  lemma CountsFit(samples: seq<Sample>, seen: seq<real>, v: real)
    requires forall w :: CountOf(samples, w) == multiset(seen)[w]
    ensures CountOf(samples, v) <= |seen|
  {
    MultisetFits(seen, v);
  }

  /** Both ways of counting give the same list for the same values. */
  lemma CountingsAgree(a: seq<Sample>, b: seq<Sample>, values: seq<real>, others: seq<real>)
    requires Counts(a, values) && Counts(b, others) && multiset(values) == multiset(others)
    ensures a == b
  {
    CanonicalIsUnique(a, b);
  }

  // ---------------------------------------------------------------- merging groups

  function CountInGroups(groups: seq<seq<Sample>>, v: real): nat {
    if groups == [] then 0 else CountInGroups(groups[..|groups| - 1], v) + CountOf(groups[|groups| - 1], v)
  }

  lemma {:induction false} SortedCounts(s: seq<Sample>, v: real)
    ensures CountOf(SortBy(s, ByValue), v) == CountOf(s, v)
  {
    if s != [] {
      SortedCounts(s[..|s| - 1], v);
      InsertedCounts(SortBy(s[..|s| - 1], ByValue), s[|s| - 1], v);
    }
  }

  lemma {:induction false} InsertedCounts(s: seq<Sample>, x: Sample, v: real)
    ensures CountOf(InsertBy(s, x, ByValue), v) == CountOf(s, v) + if x.value == v then x.count else 0
  {
    if s == [] || ByValue(s[|s| - 1]) <= ByValue(x) {
      assert (s + [x])[..|s|] == s;
    } else {
      var rest, last := s[..|s| - 1], s[|s| - 1];
      InsertedCounts(rest, x, v);
      var r := InsertBy(rest, x, ByValue);
      assert (r + [last])[..|r|] == r;
    }
  }

  ghost predicate DistinctValues(s: seq<Sample>) {
    forall i, j :: 0 <= i < j < |s| ==> s[i].value != s[j].value
  }

  lemma {:induction false} InsertKeepsDistinct(s: seq<Sample>, x: Sample)
    requires DistinctValues(s) && forall y :: y in s ==> y.value != x.value
    ensures DistinctValues(InsertBy(s, x, ByValue))
  {
    if s != [] && ByValue(s[|s| - 1]) > ByValue(x) {
      var rest, last := s[..|s| - 1], s[|s| - 1];
      InsertKeepsDistinct(rest, x);
      var r := InsertBy(rest, x, ByValue);
      InsertKeepsItems(rest, x, ByValue);
      forall i | 0 <= i < |r|
        ensures r[i].value != last.value
      {
        assert r[i] in multiset(r);
        assert r[i] == x || r[i] in multiset(rest);
      }
    }
  }

  lemma {:induction false} SortKeepsDistinct(s: seq<Sample>)
    requires DistinctValues(s)
    ensures Ascending(SortBy(s, ByValue))
  {
    SortIsDistinct(s);
    SortSorts(s, ByValue);
    var t := SortBy(s, ByValue);
    forall i, j | 0 <= i < j < |t|
      ensures t[i].value < t[j].value
    {
      assert ByValue(t[i]) <= ByValue(t[j]);
    }
  }

  lemma {:induction false} SortIsDistinct(s: seq<Sample>)
    requires DistinctValues(s)
    ensures DistinctValues(SortBy(s, ByValue))
  {
    if s != [] {
      var rest, last := s[..|s| - 1], s[|s| - 1];
      SortIsDistinct(rest);
      SortSorts(rest, ByValue);
      forall y | y in SortBy(rest, ByValue)
        ensures y.value != last.value
      {
        assert y in multiset(rest);
      }
      InsertKeepsDistinct(SortBy(rest, ByValue), last);
    }
  }

  lemma {:induction false} CountIsAtLeast(s: seq<Sample>, i: nat)
    requires i < |s|
    ensures CountOf(s, s[i].value) >= s[i].count
  {
    if i < |s| - 1 { CountIsAtLeast(s[..|s| - 1], i); }
  }

  lemma AscendingFits(s: seq<Sample>, v: real)
    requires Ascending(s)
    ensures CountOf(s, v) < WORD
  {
    if i :| 0 <= i < |s| && s[i].value == v { CountOfPresent(s, i); } else { CountOfAbsent(s, v); }
  }

  lemma PrefixCounts(s: seq<Sample>, k: nat, v: real)
    requires k < |s|
    ensures CountOf(s[..k + 1], v) == CountOf(s[..k], v) + (if s[k].value == v then s[k].count else 0)
    ensures CountOf(s[..k + 1], v) <= CountOf(s, v)
  {
    assert s[..k + 1][..k] == s[..k];
    assert s == s[..k + 1] + s[k + 1..];
    CountOfConcat(s[..k + 1], s[k + 1..], v);
  }

  /** Merges one group into the result, unless a count would overflow. */
  method MergeGroup(result: seq<Sample>, group: seq<Sample>) returns (r: Option<seq<Sample>>)
    requires SortedBy(result, ByValue)
    ensures r.Some? ==>
              SortedBy(r.value, ByValue) && forall v :: CountOf(r.value, v) == CountOf(result, v) + CountOf(group, v)
    ensures r.Some? && Ascending(result) ==> Ascending(r.value)
    ensures r.None? ==> exists v :: CountOf(result, v) + CountOf(group, v) >= WORD
  {
    var merged := result;
    for k := 0 to |group|
      invariant SortedBy(merged, ByValue) && (Ascending(result) ==> Ascending(merged))
      invariant forall v :: CountOf(merged, v) == CountOf(result, v) + CountOf(group[..k], v)
    {
      var x := group[k];
      var i, found := Search(merged, x.value);
      if found && WORD - 1 - merged[i].count < x.count {
        CountIsAtLeast(merged, i);
        PrefixCounts(group, k, x.value);
        return None;
      }
      PlacedInOrder(merged, i, x);
      forall v
        ensures CountOf(Placed(merged, i, x), v) == CountOf(result, v) + CountOf(group[..k + 1], v)
      {
        PlacedCounts(merged, i, x, v);
        PrefixCounts(group, k, v);
      }
      if found {
        merged := merged[i := Sample(x.value, merged[i].count + x.count)];
      } else {
        merged := merged[..i] + [x] + merged[i..];
      }
    }
    assert group[..|group|] == group;
    return Some(merged);
  }

  lemma {:induction false} GroupPrefix(groups: seq<seq<Sample>>, k: nat, v: real)
    requires k <= |groups|
    ensures CountInGroups(groups[..k], v) <= CountInGroups(groups, v)
  {
    if k < |groups| {
      assert groups[..|groups| - 1][..k] == groups[..k];
      GroupPrefix(groups[..|groups| - 1], k, v);
    } else {
      assert groups[..k] == groups;
    }
  }

  lemma FirstGroup(groups: seq<seq<Sample>>)
    requires |groups| >= 1
    ensures var result := SortBy(groups[0], ByValue);
            && SortedBy(result, ByValue) && (DistinctValues(groups[0]) ==> Ascending(result))
            && forall v :: CountOf(result, v) == CountInGroups(groups[..1], v)
  {
    SortSorts(groups[0], ByValue);
    if DistinctValues(groups[0]) { SortKeepsDistinct(groups[0]); }
    assert groups[..1][..0] == [];
    forall v
      ensures CountOf(SortBy(groups[0], ByValue), v) == CountInGroups(groups[..1], v)
    {
      SortedCounts(groups[0], v);
    }
  }

  lemma OneMoreGroup(groups: seq<seq<Sample>>, k: nat)
    requires k < |groups|
    ensures forall v :: CountInGroups(groups[..k + 1], v) == CountInGroups(groups[..k], v) + CountOf(groups[k], v)
  {
    assert groups[..k + 1][..k] == groups[..k];
  }

  lemma PrefixOverflows(groups: seq<seq<Sample>>, k: nat, result: seq<Sample>)
    requires k < |groups| && forall v :: CountOf(result, v) == CountInGroups(groups[..k], v)
    requires exists v :: CountOf(result, v) + CountOf(groups[k], v) >= WORD
    ensures exists v :: CountInGroups(groups, v) >= WORD
  {
    var v :| CountOf(result, v) + CountOf(groups[k], v) >= WORD;
    OneMoreGroup(groups, k);
    GroupPrefix(groups, k + 1, v);
  }

  lemma TotalsFit(groups: seq<seq<Sample>>, result: seq<Sample>)
    requires Ascending(result) && forall v :: CountOf(result, v) == CountInGroups(groups, v)
    ensures forall v :: CountInGroups(groups, v) < WORD
  {
    forall v
      ensures CountInGroups(groups, v) < WORD
    {
      AscendingFits(result, v);
    }
  }

  /** Merges the groups into one sorted list. Counts are conserved for every value; with distinct
      values in the first group it fails exactly when some total does not fit into 64 bits. */
  method AggregateSamples(groups: seq<seq<Sample>>) returns (r: Option<seq<Sample>>)
    ensures |groups| == 0 ==> r == Some([])
    ensures |groups| == 1 ==> r == Some(groups[0])
    ensures |groups| >= 2 && r.Some? ==>
              SortedBy(r.value, ByValue) && forall v :: CountOf(r.value, v) == CountInGroups(groups, v)
    ensures |groups| >= 2 && r.None? ==> exists v :: CountInGroups(groups, v) >= WORD
    ensures |groups| >= 2 && DistinctValues(groups[0]) && r.Some? ==> Ascending(r.value)
    ensures |groups| >= 2 && DistinctValues(groups[0]) && r.Some? ==> forall v :: CountInGroups(groups, v) < WORD
  {
    if |groups| == 0 { return Some([]); }
    if |groups| == 1 { return Some(groups[0]); }
    r := MergeAll(groups);
    if r.Some? && DistinctValues(groups[0]) { TotalsFit(groups, r.value); }
  }

  /** The first k groups are merged. */
  ghost predicate Merges(result: seq<Sample>, groups: seq<seq<Sample>>, k: nat)
    requires 1 <= k <= |groups|
  {
    && SortedBy(result, ByValue) && (DistinctValues(groups[0]) ==> Ascending(result))
    && forall v :: CountOf(result, v) == CountInGroups(groups[..k], v)
  }

  lemma OneMoreMerged(result: seq<Sample>, groups: seq<seq<Sample>>, k: nat, merged: seq<Sample>)
    requires 1 <= k < |groups| && Merges(result, groups, k)
    requires SortedBy(merged, ByValue) && (Ascending(result) ==> Ascending(merged))
    requires forall v :: CountOf(merged, v) == CountOf(result, v) + CountOf(groups[k], v)
    ensures Merges(merged, groups, k + 1)
  {
    OneMoreGroup(groups, k);
  }

  method MergeAll(groups: seq<seq<Sample>>) returns (r: Option<seq<Sample>>)
    requires |groups| >= 2
    ensures r.Some? ==> SortedBy(r.value, ByValue) && forall v :: CountOf(r.value, v) == CountInGroups(groups, v)
    ensures r.Some? && DistinctValues(groups[0]) ==> Ascending(r.value)
    ensures r.None? ==> exists v :: CountInGroups(groups, v) >= WORD
  {
    var result := SortBy(groups[0], ByValue);
    FirstGroup(groups);
    for k := 1 to |groups|
      invariant Merges(result, groups, k)
    {
      var merged := MergeGroup(result, groups[k]);
      if merged.None? {
        PrefixOverflows(groups, k, result);
        return None;
      }
      OneMoreMerged(result, groups, k, merged.value);
      result := merged.value;
    }
    assert groups[..|groups|] == groups;
    return Some(result);
  }
}
