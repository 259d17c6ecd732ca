/**
The table of published joint ECDFs: what one publication transaction does to it,
and how a reader picks a version.

`builtFrom` is no column. It records the service generation whose chunks the body
was built from, so that the fencing theorem can speak of it. Rows stand in the
order of insertion.
*/
module EcdfTable {
  import opened Options

  datatype Indicator = LoadLatency | TimeOfDay

  datatype Slot = Slot(service: int, indicator: Indicator)

  datatype Row = Row(slot: Slot, version: int, intervalEnd: int, body: seq<int>, size: int, checksum: int,
                     builtFrom: int)

  type Hash = seq<int> -> int

  const RETAINED_VERSIONS := 5

  function Of(rows: seq<Row>, slot: Slot): seq<Row> {
    if rows == [] then []
    else
      var last, rest := rows[|rows| - 1], Of(rows[..|rows| - 1], slot);
      if last.slot == slot then rest + [last] else rest
  }

  function MaxVersion(rows: seq<Row>, slot: Slot): int {
    if rows == [] then 0
    else
      var rest := MaxVersion(rows[..|rows| - 1], slot);
      var last := rows[|rows| - 1];
      if last.slot == slot && last.version > rest then last.version else rest
  }

  function CountNewer(rows: seq<Row>, slot: Slot, version: int): nat {
    if rows == [] then 0
    else
      var last := rows[|rows| - 1];
      CountNewer(rows[..|rows| - 1], slot, version) + if last.slot == slot && last.version > version then 1 else 0
  }

  /** The retention delete: a row of the slot stays if fewer than five are newer. */
  function Retain(rows: seq<Row>, all: seq<Row>, slot: Slot): seq<Row> {
    if rows == [] then []
    else
      var last, rest := rows[|rows| - 1], Retain(rows[..|rows| - 1], all, slot);
      if last.slot != slot || CountNewer(all, slot, last.version) < RETAINED_VERSIONS then rest + [last] else rest
  }

  function NewRow(rows: seq<Row>, slot: Slot, intervalEnd: int, body: seq<int>, hash: Hash, builtFrom: int): Row {
    Row(slot, MaxVersion(rows, slot) + 1, intervalEnd, body, |body|, hash(body), builtFrom)
  }

  function Published(rows: seq<Row>, r: Row): seq<Row> {
    Retain(rows + [r], rows + [r], r.slot)
  }

  predicate AlreadyPublished(rows: seq<Row>, slot: Slot, intervalEnd: int) {
    exists r :: r in rows && r.slot == slot && r.intervalEnd == intervalEnd
  }

  function LastFive(s: seq<Row>): seq<Row> {
    if |s| <= 5 then s else s[|s| - 5..]
  }

  // ---------------------------------------------------------------- one slot

  ghost predicate Ascending(s: seq<Row>) {
    forall j, k :: 0 <= j < k < |s| ==> s[j].version < s[k].version
  }

  lemma {:induction false} OfMembers(rows: seq<Row>, slot: Slot)
    ensures forall r :: r in Of(rows, slot) <==> r in rows && r.slot == slot
  {
    if rows != [] {
      var n := |rows| - 1;
      OfMembers(rows[..n], slot);
      assert rows == rows[..n] + [rows[n]];
    }
  }

  lemma {:induction false} RetainMembers(rows: seq<Row>, all: seq<Row>, slot: Slot)
    ensures forall r :: r in Retain(rows, all, slot) ==> r in rows
  {
    if rows != [] {
      var n := |rows| - 1;
      RetainMembers(rows[..n], all, slot);
      assert rows == rows[..n] + [rows[n]];
    }
  }

  lemma {:induction false} MaxVersionBounds(rows: seq<Row>, slot: Slot)
    ensures forall r :: r in rows && r.slot == slot ==> r.version <= MaxVersion(rows, slot)
  {
    if rows != [] {
      var n := |rows| - 1;
      MaxVersionBounds(rows[..n], slot);
      assert rows == rows[..n] + [rows[n]];
    }
  }

  lemma {:induction false} CountNewerOf(rows: seq<Row>, slot: Slot, version: int)
    ensures CountNewer(rows, slot, version) == CountNewer(Of(rows, slot), slot, version)
  {
    if rows != [] {
      var n := |rows| - 1;
      var last := rows[n];
      CountNewerOf(rows[..n], slot, version);
      if last.slot == slot { assert (Of(rows[..n], slot) + [last])[..|Of(rows[..n], slot)|] == Of(rows[..n], slot); }
    }
  }

  /** In an ascending sequence of one slot, the rows newer than the k-th are the later ones. */
  lemma {:induction false} CountNewerIsRank(s: seq<Row>, slot: Slot, k: nat, version: int)
    requires Ascending(s) && k <= |s|
    requires forall j :: 0 <= j < |s| ==> s[j].slot == slot && (s[j].version > version <==> j >= k)
    ensures CountNewer(s, slot, version) == |s| - k
  {
    if |s| > k {
      CountNewerIsRank(s[..|s| - 1], slot, k, version);
    } else if s != [] {
      CountNewerIsRank(s[..|s| - 1], slot, |s| - 1, version);
    }
  }

  lemma {:induction false} OfRetained(rows: seq<Row>, all: seq<Row>, slot: Slot, other: Slot)
    ensures Of(Retain(rows, all, slot), other) ==
            if other == slot then Retain(Of(rows, slot), all, slot) else Of(rows, other)
  {
    if rows != [] {
      var n := |rows| - 1;
      var last := rows[n];
      OfRetained(rows[..n], all, slot, other);
      var kept := Retain(rows[..n], all, slot);
      assert (kept + [last])[..|kept|] == kept;
      var mine := Of(rows[..n], slot);
      assert (mine + [last])[..|mine|] == mine;
    }
  }

  ghost predicate Ranked(s: seq<Row>, all: seq<Row>, slot: Slot) {
    forall k :: 0 <= k < |s| ==> s[k].slot == slot && CountNewer(all, slot, s[k].version) == |s| - 1 - k
  }

  lemma RetainOneMore(s: seq<Row>, n: nat, all: seq<Row>, slot: Slot)
    requires n < |s| && Ranked(s, all, slot)
    ensures Retain(s[..n + 1], all, slot) ==
            Retain(s[..n], all, slot) + if |s| - 1 - n < RETAINED_VERSIONS then [s[n]] else []
  {
    assert s[..n + 1][..n] == s[..n] && s[..n + 1][n] == s[n];
  }

  lemma {:induction false} RetainDropsOldest(s: seq<Row>, n: nat, all: seq<Row>, slot: Slot)
    requires n + RETAINED_VERSIONS <= |s| && Ranked(s, all, slot)
    ensures Retain(s[..n], all, slot) == []
  {
    if n > 0 {
      RetainOneMore(s, n - 1, all, slot);
      RetainDropsOldest(s, n - 1, all, slot);
    }
  }

  /** Retaining by rank keeps a suffix. */
  lemma {:induction false} RetainKeepsSuffix(s: seq<Row>, n: nat, cut: nat, all: seq<Row>, slot: Slot)
    requires cut <= n <= |s| && cut + RETAINED_VERSIONS >= |s| && Ranked(s, all, slot)
             && Retain(s[..cut], all, slot) == []
    ensures Retain(s[..n], all, slot) == s[cut..n]
  {
    if n > cut {
      RetainOneMore(s, n - 1, all, slot);
      RetainKeepsSuffix(s, n - 1, cut, all, slot);
      assert s[cut..n] == s[cut..n - 1] + [s[n - 1]];
    }
  }

  lemma RetainKeepsNewest(s: seq<Row>, all: seq<Row>, slot: Slot)
    requires Ranked(s, all, slot)
    ensures Retain(s, all, slot) == LastFive(s)
  {
    var cut := if |s| <= RETAINED_VERSIONS then 0 else |s| - RETAINED_VERSIONS;
    if cut > 0 { RetainDropsOldest(s, cut, all, slot); }
    RetainKeepsSuffix(s, |s|, cut, all, slot);
    assert s[..|s|] == s;
  }

  lemma OfOneMore(rows: seq<Row>, r: Row)
    ensures Of(rows + [r], r.slot) == Of(rows, r.slot) + [r]
  {
    assert (rows + [r])[..|rows|] == rows;
  }

  lemma NewVersionIsGreatest(rows: seq<Row>, r: Row)
    requires Ascending(Of(rows, r.slot)) && r.version == MaxVersion(rows, r.slot) + 1
    ensures Ascending(Of(rows, r.slot) + [r]) && Of(rows + [r], r.slot) == Of(rows, r.slot) + [r]
    ensures forall k :: 0 <= k <= |Of(rows, r.slot)| ==> (Of(rows, r.slot) + [r])[k].slot == r.slot
  {
    var s := Of(rows, r.slot);
    OfOneMore(rows, r);
    OfMembers(rows, r.slot);
    MaxVersionBounds(rows, r.slot);
    forall k | 0 <= k < |s|
      ensures s[k].version < r.version && s[k].slot == r.slot
    {
      assert s[k] in s;
    }
  }

  lemma RankInSlot(all: seq<Row>, s: seq<Row>, slot: Slot)
    requires s == Of(all, slot) && Ascending(s) && (forall k :: 0 <= k < |s| ==> s[k].slot == slot)
    ensures Ranked(s, all, slot)
  {
    forall k | 0 <= k < |s|
      ensures CountNewer(all, slot, s[k].version) == |s| - 1 - k
    {
      CountNewerOf(all, slot, s[k].version);
      CountNewerIsRank(s, slot, k + 1, s[k].version);
    }
  }

  lemma RetainKeepsLastFive(all: seq<Row>, s: seq<Row>, slot: Slot)
    requires s == Of(all, slot) && Ascending(s) && (forall k :: 0 <= k < |s| ==> s[k].slot == slot)
    ensures Of(Retain(all, all, slot), slot) == LastFive(s)
  {
    OfRetained(all, all, slot, slot);
    RankInSlot(all, s, slot);
    RetainKeepsNewest(s, all, slot);
  }

  /** One publication appends a version above all others of its slot and leaves that
      slot with the five newest; no other slot changes. */
  lemma PublicationKeepsFiveNewest(rows: seq<Row>, r: Row, other: Slot)
    requires Ascending(Of(rows, r.slot)) && r.version == MaxVersion(rows, r.slot) + 1
    ensures Ascending(Of(rows, r.slot) + [r])
    ensures Of(Published(rows, r), other) == if other == r.slot then LastFive(Of(rows, r.slot) + [r])
            else Of(rows, other)
  {
    var all := rows + [r];
    NewVersionIsGreatest(rows, r);
    if other == r.slot {
      RetainKeepsLastFive(all, Of(rows, r.slot) + [r], r.slot);
    } else {
      OfRetained(all, all, r.slot, other);
      assert all[..|rows|] == rows;
    }
  }

  lemma PublishedSlots(rows: seq<Row>, r: Row)
    requires Ascending(Of(rows, r.slot)) && r.version == MaxVersion(rows, r.slot) + 1
    ensures forall other :: Of(Published(rows, r), other) ==
                            if other == r.slot then LastFive(Of(rows, r.slot) + [r]) else Of(rows, other)
  {
    forall other
      ensures Of(Published(rows, r), other) == if other == r.slot then LastFive(Of(rows, r.slot) + [r])
              else Of(rows, other)
    {
      PublicationKeepsFiveNewest(rows, r, other);
    }
  }

  // ---------------------------------------------------------------- publishing

  datatype Publication = Stored(bytes: nat) | Skipped | Refused

  /** The store as one publisher drives it; PublicationFence interleaves its steps with others'. */
  class JointStore {
    var rows: seq<Row>
    var held: set<Slot>

    /** `built` is what the build function writes, or None for its error; the zero time is no interval. */
    method Publish(slot: Slot, intervalEnd: int, built: Option<seq<int>>, hash: Hash, builtFrom: int)
      returns (r: Publication)
      modifies this
      ensures held == old(held)
      ensures var taken := exists r :: r in old(rows) && r.slot == slot && r.intervalEnd == intervalEnd;
              && (r.Stored? <==> intervalEnd != 0 && slot !in held && !taken && built.Some? && built.value != [])
              && (r.Skipped? <==> intervalEnd != 0 && (slot in held || taken))
      ensures r.Stored? ==> r.bytes == |built.value|
      ensures rows == if r.Stored?
              then Published(old(rows), NewRow(old(rows), slot, intervalEnd, built.value, hash, builtFrom))
                      else old(rows)
      ensures r.Stored? && Ascending(Of(old(rows), slot)) ==>
                var row := NewRow(old(rows), slot, intervalEnd, built.value, hash, builtFrom);
                && Of(rows, slot) == LastFive(Of(old(rows), slot) + [row])
                && forall other :: other != slot ==> Of(rows, other) == Of(old(rows), other)
    {
      if intervalEnd == 0 { return Refused; }
      if slot in held { return Skipped; }
      held := held + {slot};
      r := Commit(slot, intervalEnd, built, hash, builtFrom);
      held := held - {slot};
    }

    method Commit(slot: Slot, intervalEnd: int, built: Option<seq<int>>, hash: Hash, builtFrom: int)
      returns (r: Publication)
      modifies this`rows
      ensures var taken := exists r :: r in old(rows) && r.slot == slot && r.intervalEnd == intervalEnd;
              (r.Stored? <==> !taken && built.Some? && built.value != []) && (r.Skipped? <==> taken)
      ensures r.Stored? ==> r.bytes == |built.value|
      ensures rows == if r.Stored?
              then Published(old(rows), NewRow(old(rows), slot, intervalEnd, built.value, hash, builtFrom))
                      else old(rows)
      ensures r.Stored? && Ascending(Of(old(rows), slot)) ==>
                var row := NewRow(old(rows), slot, intervalEnd, built.value, hash, builtFrom);
                && Of(rows, slot) == LastFive(Of(old(rows), slot) + [row])
                && forall other :: other != slot ==> Of(rows, other) == Of(old(rows), other)
    {
      if AlreadyPublished(rows, slot, intervalEnd) { return Skipped; }
      if built.None? || |built.value| == 0 { return Refused; }
      var body := built.value;
      ghost var before := rows;
      InsertAndRetain(slot, intervalEnd, body, hash, builtFrom);
      if Ascending(Of(before, slot)) {
        PublishedSlots(before, NewRow(before, slot, intervalEnd, body, hash, builtFrom));
      }
      return Stored(|body|);
    }

    method InsertAndRetain(slot: Slot, intervalEnd: int, body: seq<int>, hash: Hash, builtFrom: int)
      modifies this`rows
      ensures rows == Published(old(rows), NewRow(old(rows), slot, intervalEnd, body, hash, builtFrom))
    {
      var version := MaxVersion(rows, slot) + 1;
      rows := rows + [Row(slot, version, intervalEnd, body, |body|, hash(body), builtFrom)];
      rows := Retain(rows, rows, slot);
    }
  }

  // ---------------------------------------------------------------- reading

  /** `newest` are the rows that the query returns, newest version first. */
  method ReadCurrent(newest: seq<Row>, hash: Hash) returns (row: Option<Row>)
    ensures row.Some? ==>
              exists k :: 0 <= k < |newest| && row.value == newest[k]
                          && |newest[k].body| == newest[k].size && hash(newest[k].body) == newest[k].checksum
                          && forall j :: 0 <= j < k ==>
                               |newest[j].body| != newest[j].size || hash(newest[j].body) != newest[j].checksum
    ensures row.None? ==>
              forall k :: 0 <= k < |newest| ==>
                |newest[k].body| != newest[k].size || hash(newest[k].body) != newest[k].checksum
  {
    for k := 0 to |newest|
      invariant forall j :: 0 <= j < k ==>
                  |newest[j].body| != newest[j].size || hash(newest[j].body) != newest[j].checksum
    {
      var r := newest[k];
      if |r.body| != r.size { continue; }
      if hash(r.body) != r.checksum { continue; }
      return Some(r);
    }
    return None;
  }

  function NewestFirst(s: seq<Row>): seq<Row> {
    if s == [] then [] else [s[|s| - 1]] + NewestFirst(s[..|s| - 1])
  }

  /** A reader that comes right after a publication gets what was published. */
  method ReadAfterPublish(rows: seq<Row>, slot: Slot, intervalEnd: int, body: seq<int>, hash: Hash, builtFrom: int)
    returns (row: Option<Row>)
    requires Ascending(Of(rows, slot))
    ensures row == Some(Row(slot, MaxVersion(rows, slot) + 1, intervalEnd, body, |body|, hash(body), builtFrom))
  {
    var r := NewRow(rows, slot, intervalEnd, body, hash, builtFrom);
    PublicationKeepsFiveNewest(rows, r, slot);
    var stored := LastFive(Of(Published(rows, r), slot));
    var s := Of(rows, slot) + [r];
    assert LastFive(s)[|LastFive(s)| - 1] == r;
    assert stored == LastFive(s);
    row := ReadCurrent(NewestFirst(stored), hash);
    assert NewestFirst(stored)[0] == r;
  }
}
