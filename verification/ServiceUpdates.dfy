/**
A service update when nobody steps in between: the code's sequence of statements, and
the run of PublicationFence that it is.
*/
module ServiceUpdates {
  import opened Options
  import opened EcdfTable
  import opened PublicationFence

  datatype UpdateError = NotFound | RevisionConflict

  function Outcome(services: map<int, Service>, service: int, expectedRevision: int): Option<UpdateError> {
    if service !in services then Some(NotFound)
    else if services[service].revision != expectedRevision then Some(RevisionConflict)
    else None
  }

  function Revised(s: Service, material: bool): Service {
    Service(if material then s.generation + 1 else s.generation, s.revision + 1)
  }

  function RowsOf(rows: seq<Row>, service: int): set<Row> {
    set r | r in rows && r.slot.service == service
  }

  /** The part of the configuration that the indicators' distributions depend on is changed, or it is not. */
  class ServiceStore {
    var services: map<int, Service>
    var rows: seq<Row>
    var held: set<Slot>

    method UpdateService(service: int, expectedRevision: int, material: bool) returns (err: Option<UpdateError>)
      requires forall i :: Slot(service, i) !in held
      modifies this
      ensures held == old(held)
      ensures err == if service !in old(services) then Some(NotFound)
                     else if old(services)[service].revision != expectedRevision then Some(RevisionConflict) else None
      ensures err.Some? ==> services == old(services) && rows == old(rows)
      ensures err.None? ==>
                && services.Keys == old(services).Keys
                && (forall other :: other in services && other != service ==> services[other] == old(services)[other])
                && services[service].revision == old(services)[service].revision + 1
                && services[service].generation == old(services)[service].generation + if material then 1 else 0
      ensures err.None? && material ==> forall r :: r in rows <==> r in old(rows) && r.slot.service != service
      ensures err.None? ==> rows == if material then Without(old(rows), RowsOf(old(rows), service)) else old(rows)
    {
      if service !in services { return Some(NotFound); }
      var previous := services[service];
      if previous.revision != expectedRevision { return Some(RevisionConflict); }
      var revision, generation := previous.revision + 1, previous.generation;
      if material { generation := generation + 1; }
      services := services[service := Service(generation, revision)];
      if material {
        var taken := {};
        for n := 0 to 2
          invariant taken == (if n >= 1 then {Slot(service, LoadLatency)} else {}) + if n >= 2
                    then {Slot(service, TimeOfDay)} else {}
          invariant held == old(held) + taken && rows == old(rows)
          invariant services == old(services)[service := Revised(old(services)[service], true)]
        {
          held := held + {Slot(service, NextIndicator(n))};
          taken := taken + {Slot(service, NextIndicator(n))};
        }
        WithoutMembers(rows, RowsOf(rows, service));
        rows := Without(rows, RowsOf(rows, service));
        held := held - taken;
      }
      return None;
    }
  }

  // ---------------------------------------------------------------- the same as a run

  function UpdateRun(s: State, u: int, service: int, expectedRevision: int, material: bool): State {
    var locked := DoLockService(s, u, service, expectedRevision, material);
    if !material then DoCommitUpdate(locked, u)
    else DoCommitUpdate(DoDeleteRows(DoLockNextIndicator(DoLockNextIndicator(DoBump(locked, u), u), u), u), u)
  }

  /** Nobody else holds a lock of the service, and the updater starts afresh. */
  ghost predicate Undisturbed(s: State, u: int, service: int) {
    UpdaterAt(s, u).Quiet? && service !in s.rowLocks && forall i :: Slot(service, i) !in s.locks
  }

  lemma LocksAreTaken(s: State, u: int, service: int, expectedRevision: int)
    requires Undisturbed(s, u, service) && Outcome(s.services, service, expectedRevision).None?
    ensures var t := DoLockNextIndicator(DoLockNextIndicator(DoBump(DoLockService(s, u, service, expectedRevision,
        true), u), u), u);
            && t == s.(locks := s.locks[Slot(service, LoadLatency) := ByUpdater(u)][Slot(service,
                TimeOfDay) := ByUpdater(u)],
                       rowLocks := s.rowLocks[service := u], updaters := s.updaters[u := Updater.Bumped(service, 2)])
  {
    var a := DoLockService(s, u, service, expectedRevision, true);
    var b := DoBump(a, u);
    assert b.updaters == s.updaters[u := Updater.Bumped(service, 0)];
    var c := DoLockNextIndicator(b, u);
    assert c.updaters == s.updaters[u := Updater.Bumped(service, 1)];
    var d := DoLockNextIndicator(c, u);
    assert d.updaters == s.updaters[u := Updater.Bumped(service, 2)];
  }

  lemma CommitGivesBack(s: State, d: State, u: int, service: int, doomed: set<Row>)
    requires Undisturbed(s, u, service) && service in s.services
    requires d == s.(locks := s.locks[Slot(service, LoadLatency) := ByUpdater(u)][Slot(service,
        TimeOfDay) := ByUpdater(u)],
                     rowLocks := s.rowLocks[service := u], updaters := s.updaters[u := Cleared(service, doomed)])
    ensures var t := DoCommitUpdate(d, u);
            && t.services == s.services[service := Revised(s.services[service], true)]
            && t.rows == Without(s.rows, doomed) && t.locks == s.locks && t.rowLocks == s.rowLocks
  {
    var t := DoCommitUpdate(d, u);
    assert UpdaterAt(d, u) == Cleared(service, doomed);
    forall slot
      ensures slot in t.locks <==> slot in s.locks
      ensures slot in s.locks ==> t.locks[slot] == s.locks[slot]
    {
      assert slot == Slot(slot.service, slot.indicator);
      assert slot.indicator == LoadLatency || slot.indicator == TimeOfDay;
    }
    assert t.locks == s.locks;
  }

  lemma MaterialRun(s: State, u: int, service: int, expectedRevision: int)
    requires Undisturbed(s, u, service) && Outcome(s.services, service, expectedRevision).None?
    ensures var t := UpdateRun(s, u, service, expectedRevision, true);
            && t.services == s.services[service := Revised(s.services[service], true)]
            && t.rows == Without(s.rows, RowsOf(s.rows, service)) && t.locks == s.locks && t.rowLocks == s.rowLocks
  {
    LocksAreTaken(s, u, service, expectedRevision);
    var c := DoLockNextIndicator(DoLockNextIndicator(DoBump(DoLockService(s, u, service, expectedRevision, true), u),
                                                     u), u);
    var d := DoDeleteRows(c, u);
    assert d.updaters == s.updaters[u := Cleared(service, RowsOf(s.rows, service))];
    CommitGivesBack(s, d, u, service, RowsOf(s.rows, service));
  }

  /** What the update does undisturbed is what its steps do one after the other: it commits, gives back
      every lock, and leaves no distribution of the service if the change was material. */
  lemma UpdateIsARun(s: State, u: int, service: int, expectedRevision: int, material: bool)
    requires Undisturbed(s, u, service)
    ensures var t := UpdateRun(s, u, service, expectedRevision, material);
            && t.locks == s.locks && t.rowLocks == s.rowLocks
            && if service !in s.services || s.services[service].revision != expectedRevision then
                 t.services == s.services && t.rows == s.rows
               else
                 var before := s.services[service];
                 && t.services ==
                    s.services[service := Service(before.generation + if material then 1 else 0, before.revision + 1)]
                 && t.rows == if material then Without(s.rows, RowsOf(s.rows, service)) else s.rows
  {
    if Outcome(s.services, service, expectedRevision).None? {
      if material { MaterialRun(s, u, service, expectedRevision); }
      else {
        var a := DoLockService(s, u, service, expectedRevision, false);
        assert UpdaterAt(a, u) == RowLocked(service, false);
      }
    }
  }
}
