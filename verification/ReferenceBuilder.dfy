/** Building the reference distributions of a service, one indicator after the other. */
module ReferenceBuilder {
  import opened Options
  import opened EcdfTable

  datatype BuildResult = Succeeded | Failed

  /** What the builder meets at one indicator: its readiness, the generation it reads again under the
      lock, and what the external build writes; None stands for an error. */
  datatype Circumstances = Circumstances(ready: Option<bool>, active: Option<int>, body: Option<seq<int>>)

  /** The slot is free, and the interval has no distribution yet. */
  ghost predicate Open(rows: seq<Row>, held: set<Slot>, slot: Slot, end: int) {
    slot !in held && !exists r :: r in rows && r.slot == slot && r.intervalEnd == end
  }

  /** A ready indicator whose turn stores a distribution: the generation is still the one read, and a body is built. */
  ghost predicate Stores(rows: seq<Row>, held: set<Slot>, slot: Slot, generation: int, end: int, c: Circumstances) {
    Open(rows, held, slot, end) && c.active == Some(generation) && c.body.Some? && c.body.value != []
  }

  /** A ready indicator whose turn fails: the generation cannot be read again, or is still the one read and nothing
      is built. */
  ghost predicate Fails(rows: seq<Row>, held: set<Slot>, slot: Slot, generation: int, end: int, c: Circumstances) {
    && Open(rows, held, slot, end)
    && (c.active.None? || (c.active == Some(generation) && (c.body.None? || c.body.value == [])))
  }

  /** An indicator that makes the build of its service fail. */
  ghost predicate Troubled(rows: seq<Row>, held: set<Slot>, service: int, i: Indicator, generation: int, end: int,
                           c: Circumstances) {
    c.ready.None? || (c.ready == Some(true) && Fails(rows, held, Slot(service, i), generation, end, c))
  }

  /** publishIndicator: a superseded generation and a lock held elsewhere count as success. */
  method PublishIndicator(store: JointStore, slot: Slot, generation: int, end: int, c: Circumstances, hash: Hash)
    returns (r: BuildResult)
    requires end != 0
    modifies store
    ensures store.held == old(store.held)
    ensures store.rows == if Stores(old(store.rows), store.held, slot, generation, end, c)
                          then Published(old(store.rows),
                                         NewRow(old(store.rows), slot, end, c.body.value, hash, generation))
                          else old(store.rows)
    ensures r == Failed <==> Fails(old(store.rows), store.held, slot, generation, end, c)
  {
    var built := if c.active == Some(generation) then c.body else None;
    var p := store.Publish(slot, end, built, hash, generation);
    var superseded := c.active.Some? && c.active.value != generation;
    if p.Refused? && !superseded { return Failed; }
    return Succeeded;
  }

  lemma NothingIsNewer(rows: seq<Row>, slot: Slot, version: int)
    requires forall r :: r in rows && r.slot == slot ==> r.version <= version
    ensures CountNewer(rows, slot, version) == 0
  {
  }

  lemma {:induction false} RetainKeeps(rows: seq<Row>, all: seq<Row>, slot: Slot, r: Row)
    requires r in rows && (r.slot != slot || CountNewer(all, slot, r.version) < RETAINED_VERSIONS)
    ensures r in Retain(rows, all, slot)
  {
    var n := |rows| - 1;
    if rows[n] != r {
      assert rows == rows[..n] + [rows[n]];
      RetainKeeps(rows[..n], all, slot, r);
    }
  }

  /** The new row is always retained, and rows of other slots are not touched. */
  lemma PublishedIsThere(rows: seq<Row>, r: Row, other: Row)
    requires r.version == MaxVersion(rows, r.slot) + 1
    ensures r in Published(rows, r)
    ensures other in rows && other.slot != r.slot ==> other in Published(rows, r)
    ensures other in Published(rows, r) ==> other in rows || other == r
  {
    var all := rows + [r];
    assert all[|rows|] == r;
    MaxVersionBounds(rows, r.slot);
    NothingIsNewer(all, r.slot, r.version);
    RetainKeeps(all, all, r.slot, r);
    if other in rows && other.slot != r.slot { RetainKeeps(all, all, r.slot, other); }
    RetainMembers(all, all, r.slot);
  }

  /** Rows that this build may have added: of its service, generation and interval, and as built. */
  ghost predicate Honest(row: Row, service: int, generation: int, end: int, at: Indicator -> Circumstances) {
    && row.slot.service == service && row.builtFrom == generation && row.intervalEnd == end
    && at(row.slot.indicator) == Circumstances(Some(true), Some(generation), Some(row.body))
  }

  /** An indicator that was ready, current and free has its distribution for the interval. */
  ghost predicate Done(rows: seq<Row>, held: set<Slot>, service: int, generation: int, end: int, i: Indicator,
                       c: Circumstances) {
    c.ready == Some(true) && c.active == Some(generation) && Slot(service, i) !in held ==>
      exists r :: r in rows && r.slot == Slot(service, i) && r.intervalEnd == end
  }

  /** One indicator's turn: skipped until its reference data are ready. */
  method BuildIndicator(store: JointStore, service: int, generation: int, end: int, i: Indicator, c: Circumstances,
                        hash: Hash)
    returns (r: BuildResult)
    requires end != 0
    modifies store
    ensures store.held == old(store.held)
    ensures r == Succeeded ==> Done(store.rows, store.held, service, generation, end, i, c)
    ensures r == Failed <==> Troubled(old(store.rows), store.held, service, i, generation, end, c)
    ensures r == Failed ==> store.rows == old(store.rows)
    ensures forall row :: row in old(store.rows) && row.slot != Slot(service, i) ==> row in store.rows
    ensures forall row :: row in store.rows && row !in old(store.rows) ==>
              && row.slot == Slot(service, i) && row.builtFrom == generation && row.intervalEnd == end
              && c == Circumstances(Some(true), Some(generation), Some(row.body))
  {
    if c.ready.None? { return Failed; }
    if !c.ready.value { return Succeeded; }
    ghost var before := store.rows;
    r := PublishIndicator(store, Slot(service, i), generation, end, c, hash);
    if Stores(before, store.held, Slot(service, i), generation, end, c) {
      var row := NewRow(before, Slot(service, i), end, c.body.value, hash, generation);
      forall other
        ensures row in store.rows
        ensures other in before && other.slot != row.slot ==> other in store.rows
        ensures other in store.rows ==> other in before || other == row
      {
        PublishedIsThere(before, row, other);
      }
    }
  }

  /** BuildServiceECDFs: the indicators in turn, until one cannot be built. */
  method BuildService(store: JointStore, service: int, generation: int, end: int, at: Indicator -> Circumstances,
                      hash: Hash)
    returns (r: BuildResult)
    modifies store
    ensures store.held == old(store.held)
    ensures forall row :: row in store.rows && row !in old(store.rows) ==> Honest(row, service, generation, end, at)
    ensures forall row :: row in old(store.rows) && row.slot.service != service ==> row in store.rows
    ensures r == Succeeded ==> forall i :: Done(store.rows, store.held, service, generation, end, i, at(i))
    ensures r == Failed <==>
            end == 0 || exists i :: Troubled(old(store.rows), store.held, service, i, generation, end, at(i))
    ensures at(LoadLatency).ready == Some(false) && at(TimeOfDay).ready == Some(true) && end != 0 ==>
              && (r == Failed <==>
                    Fails(old(store.rows), store.held, Slot(service, TimeOfDay), generation, end, at(TimeOfDay)))
              && (Stores(old(store.rows), store.held, Slot(service, TimeOfDay), generation, end, at(TimeOfDay)) ==>
                    exists row :: row in store.rows && row.slot == Slot(service, TimeOfDay) && row.intervalEnd == end)
  {
    if end == 0 { return Failed; }
    var indicators := [LoadLatency, TimeOfDay];
    for k := 0 to |indicators|
      invariant store.held == old(store.held)
      invariant forall row :: row in store.rows && row !in old(store.rows) ==> Honest(row, service, generation, end, at)
      invariant forall j :: 0 <= j < k ==>
                  && Done(store.rows, store.held, service, generation, end, indicators[j], at(indicators[j]))
                  && !Troubled(old(store.rows), store.held, service, indicators[j], generation, end, at(indicators[j]))
      invariant forall row :: row in old(store.rows) && row.slot.service != service ==> row in store.rows
      invariant forall row: Row, j :: k <= j < |indicators| && row.slot == Slot(service, indicators[j]) ==>
                  (row in store.rows <==> row in old(store.rows))
    {
      var result := BuildIndicator(store, service, generation, end, indicators[k], at(indicators[k]), hash);
      if result == Failed { return Failed; }
    }
    forall i
      ensures Done(store.rows, store.held, service, generation, end, i, at(i))
      ensures !Troubled(old(store.rows), store.held, service, i, generation, end, at(i))
    {
      assert i == indicators[0] || i == indicators[1];
    }
    return Succeeded;
  }
}
