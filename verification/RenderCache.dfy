/**
The render cache: bodies by key, least recently used evicted first, under a byte budget.

The map and the recency list share their entries, whose bodies are replaced in place.
*/
module RenderCache {
  import opened Options

  type byte = x: int | 0 <= x < 256

  /** One entry as a value; a list of them is the cache from the most to the least recently used. */
  datatype Pair = Pair(key: string, body: seq<byte>)

  function Size(s: seq<Pair>): nat {
    if s == [] then 0 else Size(s[..|s| - 1]) + |s[|s| - 1].body|
  }

  function Without(s: seq<Pair>, key: string): seq<Pair> {
    if s == [] then []
    else Without(s[..|s| - 1], key) + if s[|s| - 1].key == key then [] else [s[|s| - 1]]
  }

  function Lookup(s: seq<Pair>, key: string): Option<seq<byte>> {
    if s == [] then None else if s[|s| - 1].key == key then Some(s[|s| - 1].body) else Lookup(s[..|s| - 1], key)
  }

  /** The entries that stay when the oldest are dropped until the rest fits. */
  function Fitting(s: seq<Pair>, budget: nat): seq<Pair> {
    if Size(s) <= budget then s else Fitting(s[..|s| - 1], budget)
  }

  function Touched(s: seq<Pair>, key: string): seq<Pair> {
    match Lookup(s, key)
    case None => s
    case Some(body) => [Pair(key, body)] + Without(s, key)
  }

  function Added(s: seq<Pair>, key: string, body: seq<byte>, maxBytes: int): seq<Pair> {
    if maxBytes <= 0 || |body| > maxBytes then s else Fitting([Pair(key, body)] + Without(s, key), maxBytes)
  }

  ghost predicate DistinctKeys(s: seq<Pair>) {
    forall i, j :: 0 <= i < j < |s| ==> s[i].key != s[j].key
  }

  // ---------------------------------------------------------------- what stays

  lemma {:induction false} PrefixIsSmaller(s: seq<Pair>, k: nat)
    requires k <= |s|
    ensures Size(s[..k]) <= Size(s)
  {
    if k < |s| {
      PrefixIsSmaller(s[..|s| - 1], k);
      assert s[..|s| - 1][..k] == s[..k];
    } else {
      assert s[..k] == s;
    }
  }

  /** The kept entries are the longest prefix of the recency order that fits. */
  lemma {:induction false} FittingIsLongestPrefix(s: seq<Pair>, budget: nat)
    ensures var n := |Fitting(s, budget)|;
            && n <= |s| && Fitting(s, budget) == s[..n] && Size(s[..n]) <= budget
            && forall k :: n < k <= |s| ==> Size(s[..k]) > budget
  {
    if Size(s) <= budget {
      assert s[..|s|] == s;
    } else {
      var rest := s[..|s| - 1];
      FittingIsLongestPrefix(rest, budget);
      forall k | |Fitting(s, budget)| < k <= |s|
        ensures Size(s[..k]) > budget
      {
        if k < |s| { assert s[..k] == rest[..k]; } else { assert s[..k] == s; }
      }
      assert rest[..|Fitting(s, budget)|] == s[..|Fitting(s, budget)|];
    }
  }

  lemma {:induction false} WithoutHasNot(s: seq<Pair>, key: string)
    ensures forall p :: p in Without(s, key) ==> p in s && p.key != key
    ensures DistinctKeys(s) ==> DistinctKeys(Without(s, key))
  {
    if s != [] { WithoutHasNot(s[..|s| - 1], key); }
  }

  /** An accepted entry is kept, in front. */
  lemma AddedIsKept(s: seq<Pair>, key: string, body: seq<byte>, maxBytes: int)
    requires 0 < maxBytes && |body| <= maxBytes
    ensures var after := Added(s, key, body, maxBytes);
            |after| > 0 && after[0] == Pair(key, body) && Size(after) <= maxBytes
  {
    var order := [Pair(key, body)] + Without(s, key);
    FittingIsLongestPrefix(order, maxBytes);
    assert order[..1] == [Pair(key, body)] && [Pair(key, body)][..0] == [];
    assert Size(order[..1]) == |body|;
  }

  lemma {:induction false} LookupIs(s: seq<Pair>, i: nat)
    requires DistinctKeys(s) && i < |s|
    ensures Lookup(s, s[i].key) == Some(s[i].body)
  {
    if i < |s| - 1 { LookupIs(s[..|s| - 1], i); }
  }

  lemma AddedIsFound(s: seq<Pair>, key: string, body: seq<byte>, maxBytes: int)
    requires DistinctKeys(s) && 0 < maxBytes && |body| <= maxBytes
    ensures Lookup(Added(s, key, body, maxBytes), key) == Some(body)
  {
    WithoutHasNot(s, key);
    var order := [Pair(key, body)] + Without(s, key);
    FittingIsLongestPrefix(order, maxBytes);
    AddedIsKept(s, key, body, maxBytes);
    LookupIs(Added(s, key, body, maxBytes), 0);
  }

  // ---------------------------------------------------------------- the order of use

  /** The list with `p` in front, in place of the entry of its key if there is one; the others keep their order. */
  ghost predicate InFront(s: seq<Pair>, p: Pair, order: seq<Pair>) {
    if forall i :: 0 <= i < |s| ==> s[i].key != p.key then order == [p] + s
    else exists i :: 0 <= i < |s| && s[i].key == p.key && order == [p] + s[..i] + s[i + 1..]
  }

  lemma LastStays(s: seq<Pair>, i: nat)
    requires i < |s| - 1
    ensures var rest := s[..|s| - 1]; rest[..i] + rest[i + 1..] + [s[|s| - 1]] == s[..i] + s[i + 1..]
  {
  }

  lemma {:induction false} WithoutAt(s: seq<Pair>, i: nat)
    requires DistinctKeys(s) && i < |s|
    ensures Without(s, s[i].key) == s[..i] + s[i + 1..]
  {
    var rest := s[..|s| - 1];
    if i < |s| - 1 {
      WithoutAt(rest, i);
      LastStays(s, i);
    } else {
      LookupAbsent(rest, s[i].key);
      assert s[i + 1..] == [];
    }
  }

  lemma WithoutLeavesOrder(s: seq<Pair>, p: Pair)
    requires DistinctKeys(s)
    ensures InFront(s, p, [p] + Without(s, p.key))
  {
    if i: nat :| i < |s| && s[i].key == p.key {
      WithoutAt(s, i);
      assert [p] + (s[..i] + s[i + 1..]) == [p] + s[..i] + s[i + 1..];
    } else {
      LookupAbsent(s, p.key);
    }
  }

  /** A found entry comes to the front, and the rest keep their order. */
  lemma FoundComesToFront(s: seq<Pair>, i: nat)
    requires DistinctKeys(s) && i < |s|
    ensures Lookup(s, s[i].key) == Some(s[i].body) && Touched(s, s[i].key) == [s[i]] + (s[..i] + s[i + 1..])
  {
    LookupIs(s, i);
    WithoutAt(s, i);
  }

  lemma HitIsSecond(s: seq<Pair>, i: nat, key: string, body: seq<byte>)
    requires DistinctKeys(s) && i < |s| && key != s[i].key
    ensures var order := [Pair(key, body)] + Without(Touched(s, s[i].key), key); |order| >= 2 && order[1] == s[i]
  {
    LookupIs(s, i);
    WithoutKeepsFirst(Touched(s, s[i].key), key);
  }

  lemma PrefixHolds(order: seq<Pair>, n: nat, other: Pair)
    requires n <= |order| && |order| >= 2 && other in order[..n] && other != order[0]
    ensures order[1] in order[..n]
  {
    assert n >= 2 && order[..n][1] == order[1];
  }

  /** What was just found is the last to go: if any other older entry survives the next one added, so does it. */
  lemma HitOutlivesOthers(s: seq<Pair>, i: nat, key: string, body: seq<byte>, maxBytes: int, other: Pair)
    requires DistinctKeys(s) && i < |s| && key != s[i].key && 0 < maxBytes && |body| <= maxBytes
    requires other in Added(Touched(s, s[i].key), key, body, maxBytes) && other.key != key
    ensures s[i] in Added(Touched(s, s[i].key), key, body, maxBytes)
  {
    var order := [Pair(key, body)] + Without(Touched(s, s[i].key), key);
    HitIsSecond(s, i, key, body);
    FittingIsLongestPrefix(order, maxBytes);
    PrefixHolds(order, |Fitting(order, maxBytes)|, other);
  }

  lemma {:induction false} WithoutKeepsFirst(s: seq<Pair>, key: string)
    requires s != [] && s[0].key != key
    ensures Without(s, key) != [] && Without(s, key)[0] == s[0]
  {
    if |s| > 1 { WithoutKeepsFirst(s[..|s| - 1], key); }
  }

  /** `after` is as much of the list with `p` in front as fits, counted from the front. */
  ghost predicate KeepsWhatFits(s: seq<Pair>, p: Pair, after: seq<Pair>, maxBytes: int) {
    exists order :: InFront(s, p, order) && 0 < |after| <= |order| && after == order[..|after|]
      && Size(after) <= maxBytes && forall k :: |after| < k <= |order| ==> Size(order[..k]) > maxBytes
  }

  lemma FrontFits(s: seq<Pair>, p: Pair, order: seq<Pair>, maxBytes: nat)
    requires InFront(s, p, order) && Fitting(order, maxBytes) != []
    ensures KeepsWhatFits(s, p, Fitting(order, maxBytes), maxBytes)
  {
    FittingIsLongestPrefix(order, maxBytes);
  }

  lemma AddedKeepsWhatFits(s: seq<Pair>, key: string, body: seq<byte>, maxBytes: int)
    requires DistinctKeys(s) && 0 < maxBytes && |body| <= maxBytes
    ensures KeepsWhatFits(s, Pair(key, body), Added(s, key, body, maxBytes), maxBytes)
  {
    WithoutLeavesOrder(s, Pair(key, body));
    AddedIsKept(s, key, body, maxBytes);
    FrontFits(s, Pair(key, body), [Pair(key, body)] + Without(s, key), maxBytes);
  }

  // ---------------------------------------------------------------- the cache

  lemma {:induction false} LookupAbsent(s: seq<Pair>, key: string)
    requires forall p :: p in s ==> p.key != key
    ensures Lookup(s, key) == None && Without(s, key) == s
  {
    if s != [] { LookupAbsent(s[..|s| - 1], key); }
  }

  lemma {:induction false} LookupPresent(s: seq<Pair>, p: Pair)
    requires DistinctKeys(s) && p in s
    ensures Lookup(s, p.key) == Some(p.body)
    ensures Size(s) == Size(Without(s, p.key)) + |p.body|
  {
    var rest, last := s[..|s| - 1], s[|s| - 1];
    if last == p {
      LookupAbsent(rest, p.key);
      assert rest + [] == rest;
    } else {
      assert p in rest && last.key != p.key;
      LookupPresent(rest, p);
      var w := Without(rest, p.key);
      assert (w + [last])[..|w|] == w;
    }
  }

  lemma {:induction false} WithoutKeepsOthers(s: seq<Pair>, key: string)
    requires DistinctKeys(s)
    ensures forall p :: p in Without(s, key) <==> p in s && p.key != key
  {
    if s != [] {
      WithoutKeepsOthers(s[..|s| - 1], key);
      assert s == s[..|s| - 1] + [s[|s| - 1]];
    }
  }

  lemma {:induction false} SizeOfFront(p: Pair, s: seq<Pair>)
    ensures Size([p] + s) == |p.body| + Size(s)
  {
    if s == [] {
      assert [p] + s == [p] && [p][..0] == [];
    } else {
      assert ([p] + s)[..|s|] == [p] + s[..|s| - 1];
      SizeOfFront(p, s[..|s| - 1]);
    }
  }

  /** The map and the list describe the same entries. */
  ghost predicate Agree(entries: map<string, Pair>, recent: seq<Pair>) {
    && DistinctKeys(recent)
    && (forall p :: p in recent ==> p.key in entries && entries[p.key] == p)
    && (forall k :: k in entries ==> entries[k] in recent && entries[k].key == k)
  }

  /** An entry set in the map and moved, or pushed, to the front of the list. */
  lemma FrontAgrees(entries: map<string, Pair>, recent: seq<Pair>, p: Pair)
    requires Agree(entries, recent)
    ensures Agree(entries[p.key := p], [p] + Without(recent, p.key))
  {
    WithoutHasNot(recent, p.key);
    WithoutKeepsOthers(recent, p.key);
    var after, updated := [p] + Without(recent, p.key), entries[p.key := p];
    forall k | k in updated
      ensures updated[k] in after && updated[k].key == k
    {
      if k != p.key {
        assert entries[k] in Without(recent, p.key);
        assert updated[k] in after[1..];
      } else {
        assert after[0] == p;
      }
    }
  }

  lemma FrontSize(recent: seq<Pair>, p: Pair, was: Option<Pair>)
    requires DistinctKeys(recent)
    requires if was.Some? then was.value in recent && was.value.key == p.key
             else forall q :: q in recent ==> q.key != p.key
    ensures Size([p] + Without(recent, p.key)) == Size(recent) + |p.body| - if was.Some? then |was.value.body| else 0
  {
    SizeOfFront(p, Without(recent, p.key));
    if was.Some? { LookupPresent(recent, was.value); } else { LookupAbsent(recent, p.key); }
  }

  class Cache {
    const maxBytes: int
    var bytes: int
    var entries: map<string, Pair>
    var recent: seq<Pair>

    ghost predicate Valid()
      reads this
    {
      Agree(entries, recent) && bytes == Size(recent) && (bytes == 0 || bytes <= maxBytes)
    }

    constructor (maxBytes: int)
      ensures Valid() && recent == [] && this.maxBytes == maxBytes
    {
      this.maxBytes, bytes, entries, recent := maxBytes, 0, map[], [];
    }

    method Get(key: string) returns (body: Option<seq<byte>>)
      requires Valid()
      modifies this`recent
      ensures Valid() && recent == Touched(old(recent), key) && body == Lookup(old(recent), key)
      ensures body.None? <==> forall i :: 0 <= i < |old(recent)| ==> old(recent)[i].key != key
      ensures body.None? ==> recent == old(recent)
      ensures body.Some? ==> recent != [] && recent[0] == Pair(key, body.value) && Pair(key, body.value) in old(recent)
                             && InFront(old(recent), Pair(key, body.value), recent)
    {
      if key !in entries {
        LookupAbsent(recent, key);
        return None;
      }
      var element := entries[key];
      LookupPresent(recent, element);
      WithoutLeavesOrder(recent, element);
      MoveToFront(element);
      return Some(element.body);
    }

    method MoveToFront(p: Pair)
      requires Agree(entries, recent) && bytes == Size(recent) && p in recent
      modifies this`recent
      ensures Agree(entries, recent) && bytes == Size(recent) && recent == [p] + Without(old(recent), p.key)
    {
      FrontAgrees(entries, recent, p);
      FrontSize(recent, p, Some(p));
      assert entries[p.key := p] == entries;
      recent := [p] + Without(recent, p.key);
    }

    /** Bodies over the budget are not cached; any other is, at the cost of the oldest entries. */
    method Add(key: string, body: seq<byte>)
      requires Valid()
      modifies this
      ensures Valid() && recent == Added(old(recent), key, body, maxBytes)
      ensures maxBytes <= 0 || |body| > maxBytes ==> recent == old(recent) && bytes == old(bytes)
      ensures 0 < maxBytes && |body| <= maxBytes ==>
                bytes == Size(recent) && KeepsWhatFits(old(recent), Pair(key, body), recent, maxBytes)
    {
      if maxBytes <= 0 || |body| > maxBytes { return; }
      AddedKeepsWhatFits(recent, key, body, maxBytes);
      if key in entries {
        Replace(entries[key], body);
      } else {
        Push(key, body);
      }
      Evict();
    }

    method Replace(existing: Pair, body: seq<byte>)
      requires Agree(entries, recent) && bytes == Size(recent) && existing in recent
      modifies this
      ensures Agree(entries, recent) && bytes == Size(recent)
      ensures recent == [Pair(existing.key, body)] + Without(old(recent), existing.key)
    {
      var entry := Pair(existing.key, body);
      FrontAgrees(entries, recent, entry);
      FrontSize(recent, entry, Some(existing));
      bytes := bytes - |existing.body|;
      entries := entries[existing.key := entry];
      bytes := bytes + |body|;
      recent := [entry] + Without(recent, existing.key);
    }

    method Push(key: string, body: seq<byte>)
      requires Agree(entries, recent) && bytes == Size(recent) && key !in entries
      modifies this
      ensures Agree(entries, recent) && bytes == Size(recent) && recent == [Pair(key, body)] + Without(old(recent), key)
    {
      var entry := Pair(key, body);
      FrontAgrees(entries, recent, entry);
      FrontSize(recent, entry, None);
      LookupAbsent(recent, key);
      recent := [entry] + recent;
      entries := entries[key := entry];
      bytes := bytes + |body|;
    }

    method Evict()
      requires Agree(entries, recent) && bytes == Size(recent) && maxBytes > 0
      modifies this
      ensures Valid() && recent == Fitting(old(recent), maxBytes)
    {
      while bytes > maxBytes
        invariant Agree(entries, recent) && bytes == Size(recent)
        invariant Fitting(recent, maxBytes) == Fitting(old(recent), maxBytes)
        decreases |recent|
      {
        var oldest := recent[|recent| - 1];
        LastIsDropped(recent);
        entries := entries - {oldest.key};
        bytes := bytes - |oldest.body|;
        recent := recent[..|recent| - 1];
      }
    }
  }

  lemma LastIsDropped(s: seq<Pair>)
    requires DistinctKeys(s) && s != []
    ensures forall p :: p in s[..|s| - 1] <==> p in s && p.key != s[|s| - 1].key
  {
    assert s == s[..|s| - 1] + [s[|s| - 1]];
  }
}
