/**
Generation-fenced publication on PostgreSQL: any number of publishers, service
updates and evidence readers, interleaved statement by statement under READ
COMMITTED.

A publisher try-locks its (service, indicator), checks the interval, re-reads the
generation, builds, commits one row and unlocks. A service update locks the
service row, writes the new generation, takes every indicator lock, deletes the
service's rows and commits. What a transaction writes is seen by others only
after its commit, so the state below holds committed data; the pending writes of a
transaction are in its own phase. Anyone may fail, or lose the connection, at any point.
*/
module PublicationFence {
  import opened Options
  import opened EcdfTable

  datatype Service = Service(generation: int, revision: int)

  datatype Owner = ByPublisher(id: int) | ByUpdater(id: int)

  datatype Publisher =
    | Resting
    | Prepared(service: int, generation: int)
    | Locked(slot: Slot, generation: int, intervalEnd: int)
    | Unpublished(slot: Slot, generation: int, intervalEnd: int)
    | Building(slot: Slot, generation: int, intervalEnd: int)
    | Committed(slot: Slot, generation: int)

  /** `locks` counts the indicator locks taken so far, in the order of the code. */
  datatype Updater =
    | Quiet
    | RowLocked(service: int, material: bool)
    | Bumped(service: int, locks: nat)
    | Cleared(service: int, doomed: set<Row>)

  datatype Reader =
    | NotReading
    | CheckedGeneration(slot: Slot, generation: int)
    | HasReference(slot: Slot, generation: int, row: Row)
    | Accepted(slot: Slot, generation: int, row: Row)

  datatype State = State(
    services: map<int, Service>,
    known: set<int>,
    rows: seq<Row>,
    locks: map<Slot, Owner>,
    rowLocks: map<int, int>,
    publishers: map<int, Publisher>,
    updaters: map<int, Updater>,
    readers: map<int, Reader>)

  datatype Action =
    | CreateService(service: int)
    | DeleteService(service: int)
    | Prepare(publisher: int, service: int)
    | TryLock(publisher: int, indicator: Indicator, intervalEnd: int)
    | CheckInterval(publisher: int)
    | RecheckGeneration(publisher: int)
    | CommitRow(publisher: int, body: seq<int>)
    | Unlock(publisher: int)
    | LockService(updater: int, service: int, expectedRevision: int, material: bool)
    | Bump(updater: int)
    | LockNextIndicator(updater: int)
    | DeleteRows(updater: int)
    | CommitUpdate(updater: int)
    | Rollback(updater: int)
    | StartReading(reader: int, slot: Slot)
    | ReadReference(reader: int, row: Row)
    | RereadGeneration(reader: int)

  function PublisherAt(s: State, p: int): Publisher {
    if p in s.publishers then s.publishers[p] else Resting
  }

  function UpdaterAt(s: State, u: int): Updater {
    if u in s.updaters then s.updaters[u] else Quiet
  }

  function ReaderAt(s: State, r: int): Reader {
    if r in s.readers then s.readers[r] else NotReading
  }

  predicate HoldsSlot(p: Publisher) {
    p.Locked? || p.Unpublished? || p.Building? || p.Committed?
  }

  predicate HoldsIndicator(u: Updater, service: int, indicator: Indicator) {
    match u
    case Bumped(v, n) => v == service && (if indicator.LoadLatency? then n >= 1 else n >= 2)
    case Cleared(v, _) => v == service
    case _ => false
  }

  predicate HoldsRow(u: Updater, service: int) {
    !u.Quiet? && u.service == service
  }

  function WithPublisher(s: State, p: int, phase: Publisher): State {
    s.(publishers := s.publishers[p := phase])
  }

  /** Giving up an advisory lock; the transaction, if any, is rolled back first. */
  function Released(s: State, p: int): State
    requires HoldsSlot(PublisherAt(s, p))
  {
    var phase := PublisherAt(s, p);
    WithPublisher(s.(locks := s.locks - {phase.slot}), p, Prepared(phase.slot.service, phase.generation))
  }

  function Ended(s: State, u: int): State
    requires !UpdaterAt(s, u).Quiet?
  {
    var phase := UpdaterAt(s, u);
    s.(locks := map slot | slot in s.locks && !HoldsIndicator(phase, slot.service, slot.indicator) :: s.locks[slot],
       rowLocks := s.rowLocks - {phase.service},
       updaters := s.updaters[u := Quiet])
  }

  function Without(rows: seq<Row>, doomed: set<Row>): seq<Row> {
    if rows == [] then []
    else
      var last, rest := rows[|rows| - 1], Without(rows[..|rows| - 1], doomed);
      if last in doomed then rest else rest + [last]
  }

  function NextIndicator(n: nat): Indicator {
    if n == 0 then LoadLatency else TimeOfDay
  }

  // ---------------------------------------------------------------- publishers

  function DoPrepare(s: State, p: int, service: int): State {
    if HoldsSlot(PublisherAt(s, p)) || service !in s.services then s
    else WithPublisher(s, p, Prepared(service, s.services[service].generation))
  }

  function DoTryLock(s: State, p: int, indicator: Indicator, end: int): State {
    var phase := PublisherAt(s, p);
    if !phase.Prepared? || Slot(phase.service, indicator) in s.locks then s
    else
      var slot := Slot(phase.service, indicator);
      WithPublisher(s.(locks := s.locks[slot := ByPublisher(p)]), p, Locked(slot, phase.generation, end))
  }

  function DoCheckInterval(s: State, p: int): State {
    var phase := PublisherAt(s, p);
    if !phase.Locked? then s
    else if AlreadyPublished(s.rows, phase.slot, phase.intervalEnd) then Released(s, p)
    else WithPublisher(s, p, Unpublished(phase.slot, phase.generation, phase.intervalEnd))
  }

  function DoRecheckGeneration(s: State, p: int): State {
    var phase := PublisherAt(s, p);
    if !phase.Unpublished? then s
    else if phase.slot.service !in s.services || s.services[phase.slot.service].generation != phase.generation
      then Released(s, p)
    else WithPublisher(s, p, Building(phase.slot, phase.generation, phase.intervalEnd))
  }

  function DoCommitRow(s: State, p: int, body: seq<int>, hash: Hash): State {
    var phase := PublisherAt(s, p);
    if !phase.Building? then s
    else if body == [] then Released(s, p)
    else
      var row := NewRow(s.rows, phase.slot, phase.intervalEnd, body, hash, phase.generation);
      WithPublisher(s.(rows := Published(s.rows, row)), p, Committed(phase.slot, phase.generation))
  }

  function DoUnlock(s: State, p: int): State {
    if HoldsSlot(PublisherAt(s, p)) then Released(s, p) else s
  }

  // ---------------------------------------------------------------- service updates

  function DoLockService(s: State, u: int, service: int, expectedRevision: int, material: bool): State {
    if !UpdaterAt(s, u).Quiet? || service !in s.services || service in s.rowLocks then s
    else if s.services[service].revision != expectedRevision then s
    else s.(rowLocks := s.rowLocks[service := u], updaters := s.updaters[u := RowLocked(service, material)])
  }

  function DoBump(s: State, u: int): State {
    var phase := UpdaterAt(s, u);
    if !phase.RowLocked? || !phase.material then s else s.(updaters := s.updaters[u := Bumped(phase.service, 0)])
  }

  function DoLockNextIndicator(s: State, u: int): State {
    var phase := UpdaterAt(s, u);
    if !phase.Bumped? || phase.locks >= 2 || Slot(phase.service, NextIndicator(phase.locks)) in s.locks then s
    else
      var slot := Slot(phase.service, NextIndicator(phase.locks));
      s.(locks := s.locks[slot := ByUpdater(u)], updaters := s.updaters[u := Bumped(phase.service, phase.locks + 1)])
  }

  function DoDeleteRows(s: State, u: int): State {
    var phase := UpdaterAt(s, u);
    if !phase.Bumped? || phase.locks != 2 then s
    else
      var doomed := set r | r in s.rows && r.slot.service == phase.service;
      s.(updaters := s.updaters[u := Cleared(phase.service, doomed)])
  }

  function DoCommitUpdate(s: State, u: int): State {
    match UpdaterAt(s, u)
    case RowLocked(service, false) =>
      if service !in s.services then s
      else
        var previous := s.services[service];
        Ended(s.(services := s.services[service := previous.(revision := previous.revision + 1)]), u)
    case Cleared(service, doomed) =>
      if service !in s.services then s
      else
        var previous := s.services[service];
        Ended(s.(services := s.services[service := Service(previous.generation + 1, previous.revision + 1)],
                 rows := Without(s.rows, doomed)), u)
    case _ => s
  }

  function DoRollback(s: State, u: int): State {
    if UpdaterAt(s, u).Quiet? then s else Ended(s, u)
  }

  // ---------------------------------------------------------------- readers and services

  function DoStartReading(s: State, r: int, slot: Slot): State {
    if slot.service !in s.services then s
    else s.(readers := s.readers[r := CheckedGeneration(slot, s.services[slot.service].generation)])
  }

  function DoReadReference(s: State, r: int, row: Row): State {
    var phase := ReaderAt(s, r);
    if !phase.CheckedGeneration? || row !in s.rows || row.slot != phase.slot then s
    else s.(readers := s.readers[r := HasReference(phase.slot, phase.generation, row)])
  }

  function DoRereadGeneration(s: State, r: int): State {
    var phase := ReaderAt(s, r);
    if !phase.HasReference? || phase.slot.service !in s.services then s
    else if s.services[phase.slot.service].generation != phase.generation then s.(readers := s.readers[r := NotReading])
    else s.(readers := s.readers[r := Accepted(phase.slot, phase.generation, phase.row)])
  }

  function DoCreateService(s: State, service: int): State {
    if service in s.known then s
    else s.(services := s.services[service := Service(1, 1)], known := s.known + {service})
  }

  function DoDeleteService(s: State, service: int): State {
    if service in s.rowLocks then s else s.(services := s.services - {service})
  }

  /** An action whose turn it is not, or that has to wait, changes nothing. */
  function Next(s: State, a: Action, hash: Hash): State {
    match a
    case CreateService(service) => DoCreateService(s, service)
    case DeleteService(service) => DoDeleteService(s, service)
    case Prepare(p, service) => DoPrepare(s, p, service)
    case TryLock(p, indicator, end) => DoTryLock(s, p, indicator, end)
    case CheckInterval(p) => DoCheckInterval(s, p)
    case RecheckGeneration(p) => DoRecheckGeneration(s, p)
    case CommitRow(p, body) => DoCommitRow(s, p, body, hash)
    case Unlock(p) => DoUnlock(s, p)
    case LockService(u, service, expected, material) => DoLockService(s, u, service, expected, material)
    case Bump(u) => DoBump(s, u)
    case LockNextIndicator(u) => DoLockNextIndicator(s, u)
    case DeleteRows(u) => DoDeleteRows(s, u)
    case CommitUpdate(u) => DoCommitUpdate(s, u)
    case Rollback(u) => DoRollback(s, u)
    case StartReading(r, slot) => DoStartReading(s, r, slot)
    case ReadReference(r, row) => DoReadReference(s, r, row)
    case RereadGeneration(r) => DoRereadGeneration(s, r)
  }

  const START := State(map[], {}, [], map[], map[], map[], map[], map[])

  function After(actions: seq<Action>, hash: Hash): State {
    if actions == [] then START else Next(After(actions[..|actions| - 1], hash), actions[|actions| - 1], hash)
  }

  // ---------------------------------------------------------------- invariants

  ghost predicate LocksOk(s: State) {
    && (forall p :: p in s.publishers && HoldsSlot(s.publishers[p]) ==>
          s.publishers[p].slot in s.locks && s.locks[s.publishers[p].slot] == ByPublisher(p))
    && (forall u: int, slot: Slot :: u in s.updaters && HoldsIndicator(s.updaters[u], slot.service, slot.indicator) ==>
          slot in s.locks && s.locks[slot] == ByUpdater(u))
    && (forall u :: u in s.updaters && !s.updaters[u].Quiet? ==>
          var service := s.updaters[u].service;
          service in s.services && service in s.rowLocks && s.rowLocks[service] == u)
  }

  ghost predicate KnownOk(s: State) {
    && (forall service :: service in s.services ==> service in s.known)
    && (forall r :: r in s.rows ==> r.slot.service in s.known)
    && (forall p :: p in s.publishers && HoldsSlot(s.publishers[p]) ==> s.publishers[p].slot.service in s.known)
    && (forall p :: p in s.publishers && s.publishers[p].Prepared? ==> s.publishers[p].service in s.known)
    && (forall r :: r in s.readers && !s.readers[r].NotReading? ==> s.readers[r].slot.service in s.known)
  }

  /** Every committed row, every build under way and every pending delete match the
      committed generation. */
  ghost predicate Fenced(s: State) {
    && (forall r :: r in s.rows && r.slot.service in s.services ==>
          r.builtFrom == s.services[r.slot.service].generation)
    && (forall p :: p in s.publishers && s.publishers[p].Building? && s.publishers[p].slot.service in s.services ==>
          s.publishers[p].generation == s.services[s.publishers[p].slot.service].generation)
    && (forall u :: u in s.updaters && s.updaters[u].Cleared? ==>
          && (forall r :: r in s.rows && r.slot.service == s.updaters[u].service ==> r in s.updaters[u].doomed)
          && (forall r :: r in s.updaters[u].doomed ==> r.slot.service == s.updaters[u].service))
  }

  ghost predicate ReaderOk(s: State, r: Reader) {
    match r
    case NotReading => true
    case CheckedGeneration(slot, g) => slot.service in s.services ==> g <= s.services[slot.service].generation
    case HasReference(slot, g, row) =>
      slot.service in s.services ==> g <= row.builtFrom <= s.services[slot.service].generation
    case Accepted(slot, g, row) => row.builtFrom == g
  }

  ghost predicate ReadersOk(s: State) {
    forall r :: r in s.readers ==> ReaderOk(s, s.readers[r])
  }

  lemma {:induction false} WithoutMembers(rows: seq<Row>, doomed: set<Row>)
    ensures forall r :: r in Without(rows, doomed) <==> r in rows && r !in doomed
  {
    if rows != [] {
      var n := |rows| - 1;
      WithoutMembers(rows[..n], doomed);
      assert rows == rows[..n] + [rows[n]];
    }
  }

  lemma PublishedMembers(rows: seq<Row>, row: Row)
    ensures forall r :: r in Published(rows, row) ==> r in rows || r == row
  {
    RetainMembers(rows + [row], rows + [row], row.slot);
  }

  ghost predicate Safe(s: State) {
    LocksOk(s) && KnownOk(s) && Fenced(s) && ReadersOk(s)
  }

  lemma ReleasedKeepsSafe(s: State, p: int)
    requires Safe(s) && HoldsSlot(PublisherAt(s, p))
    ensures Safe(Released(s, p))
  {
  }

  lemma TryLockKeepsSafe(s: State, p: int, indicator: Indicator, end: int)
    requires Safe(s)
    ensures Safe(DoTryLock(s, p, indicator, end))
  {
  }

  /** A publisher goes on with its slot; to build it must have the committed generation. */
  lemma PublisherGoesOn(s: State, p: int, phase: Publisher)
    requires Safe(s) && HoldsSlot(PublisherAt(s, p)) && HoldsSlot(phase) && phase.slot == PublisherAt(s, p).slot
    requires phase.Building? && phase.slot.service in s.services ==>
               phase.generation == s.services[phase.slot.service].generation
    ensures Safe(WithPublisher(s, p, phase))
  {
  }

  lemma CheckIntervalKeepsSafe(s: State, p: int)
    requires Safe(s)
    ensures Safe(DoCheckInterval(s, p))
  {
    var phase := PublisherAt(s, p);
    if phase.Locked? {
      ReleasedKeepsSafe(s, p);
      PublisherGoesOn(s, p, Unpublished(phase.slot, phase.generation, phase.intervalEnd));
    }
  }

  lemma RecheckGenerationKeepsSafe(s: State, p: int)
    requires Safe(s)
    ensures Safe(DoRecheckGeneration(s, p))
  {
    var phase := PublisherAt(s, p);
    if phase.Unpublished? {
      ReleasedKeepsSafe(s, p);
      if phase.slot.service in s.services && s.services[phase.slot.service].generation == phase.generation {
        PublisherGoesOn(s, p, Building(phase.slot, phase.generation, phase.intervalEnd));
      }
    }
  }

  /** While a publisher holds a slot, no update of that service has deleted its rows. */
  lemma NoUpdatePastThePublisher(s: State, p: int, u: int)
    requires LocksOk(s) && p in s.publishers && HoldsSlot(s.publishers[p])
    requires u in s.updaters && s.updaters[u].Cleared?
    ensures s.updaters[u].service != s.publishers[p].slot.service
  {
    var slot := s.publishers[p].slot;
    assert HoldsIndicator(s.updaters[u], s.updaters[u].service, slot.indicator);
  }

  lemma CommitRowKeepsSafe(s: State, p: int, body: seq<int>, hash: Hash)
    requires Safe(s)
    ensures Safe(DoCommitRow(s, p, body, hash))
  {
    var phase := PublisherAt(s, p);
    if phase.Building? {
      if body == [] {
        ReleasedKeepsSafe(s, p);
      } else {
        PublishedMembers(s.rows, NewRow(s.rows, phase.slot, phase.intervalEnd, body, hash, phase.generation));
        forall u | u in s.updaters && s.updaters[u].Cleared?
          ensures s.updaters[u].service != phase.slot.service
        {
          NoUpdatePastThePublisher(s, p, u);
        }
      }
    }
  }

  lemma EndedKeepsSafe(s: State, u: int)
    requires Safe(s) && !UpdaterAt(s, u).Quiet?
    ensures Safe(Ended(s, u))
  {
  }

  lemma LockServiceKeepsSafe(s: State, u: int, service: int, expectedRevision: int, material: bool)
    requires Safe(s)
    ensures Safe(DoLockService(s, u, service, expectedRevision, material))
  {
  }

  lemma LockNextIndicatorKeepsSafe(s: State, u: int)
    requires Safe(s)
    ensures Safe(DoLockNextIndicator(s, u))
  {
  }

  lemma DeleteRowsKeepsSafe(s: State, u: int)
    requires Safe(s)
    ensures Safe(DoDeleteRows(s, u))
  {
  }

  lemma CommitUpdateKeepsSafe(s: State, u: int)
    requires Safe(s)
    ensures Safe(DoCommitUpdate(s, u))
  {
    var phase := UpdaterAt(s, u);
    if phase.Cleared? {
      WithoutMembers(s.rows, phase.doomed);
      forall p | p in s.publishers && HoldsSlot(s.publishers[p])
        ensures s.publishers[p].slot.service != phase.service
      {
        NoUpdatePastThePublisher(s, p, u);
      }
    }
  }

  lemma CreateServiceKeepsFence(s: State, service: int)
    requires KnownOk(s) && Fenced(s) && ReadersOk(s)
    ensures Fenced(DoCreateService(s, service)) && ReadersOk(DoCreateService(s, service))
  {
  }

  lemma CreateServiceKeepsSafe(s: State, service: int)
    requires Safe(s)
    ensures Safe(DoCreateService(s, service))
  {
    CreateServiceKeepsFence(s, service);
    CreateServiceKeepsLocks(s, service);
  }

  lemma CreateServiceKeepsLocks(s: State, service: int)
    requires LocksOk(s) && KnownOk(s)
    ensures LocksOk(DoCreateService(s, service)) && KnownOk(DoCreateService(s, service))
  {
  }

  lemma DeleteServiceKeepsSafe(s: State, service: int)
    requires Safe(s)
    ensures Safe(DoDeleteService(s, service))
  {
  }

  lemma PrepareKeepsSafe(s: State, p: int, service: int)
    requires Safe(s)
    ensures Safe(DoPrepare(s, p, service))
  {
  }

  lemma BumpKeepsSafe(s: State, u: int)
    requires Safe(s)
    ensures Safe(DoBump(s, u))
  {
  }

  lemma ReaderChangeKeepsSafe(s: State, r: int, phase: Reader)
    requires Safe(s) && ReaderOk(s, phase) && (!phase.NotReading? ==> phase.slot.service in s.known)
    ensures Safe(s.(readers := s.readers[r := phase]))
  {
  }

  lemma StartReadingKeepsSafe(s: State, r: int, slot: Slot)
    requires Safe(s)
    ensures Safe(DoStartReading(s, r, slot))
  {
    if slot.service in s.services {
      ReaderChangeKeepsSafe(s, r, CheckedGeneration(slot, s.services[slot.service].generation));
    }
  }

  lemma ReadReferenceKeepsSafe(s: State, r: int, row: Row)
    requires Safe(s)
    ensures Safe(DoReadReference(s, r, row))
  {
    var phase := ReaderAt(s, r);
    if phase.CheckedGeneration? && row in s.rows && row.slot == phase.slot {
      ReaderChangeKeepsSafe(s, r, HasReference(phase.slot, phase.generation, row));
    }
  }

  lemma RereadGenerationKeepsSafe(s: State, r: int)
    requires Safe(s)
    ensures Safe(DoRereadGeneration(s, r))
  {
    var phase := ReaderAt(s, r);
    if phase.HasReference? && phase.slot.service in s.services {
      if s.services[phase.slot.service].generation != phase.generation {
        ReaderChangeKeepsSafe(s, r, NotReading);
      } else {
        ReaderChangeKeepsSafe(s, r, Accepted(phase.slot, phase.generation, phase.row));
      }
    }
  }

  lemma UnlockKeepsSafe(s: State, p: int)
    requires Safe(s)
    ensures Safe(DoUnlock(s, p))
  {
    if HoldsSlot(PublisherAt(s, p)) { ReleasedKeepsSafe(s, p); }
  }

  lemma RollbackKeepsSafe(s: State, u: int)
    requires Safe(s)
    ensures Safe(DoRollback(s, u))
  {
    if !UpdaterAt(s, u).Quiet? { EndedKeepsSafe(s, u); }
  }

  lemma PublisherActionKeepsSafe(s: State, a: Action, hash: Hash)
    requires Safe(s) && (a.Prepare? || a.TryLock? || a.CheckInterval? || a.RecheckGeneration? || a.CommitRow?
                         || a.Unlock?)
    ensures Safe(Next(s, a, hash))
  {
    match a
    case Prepare(p, service) => PrepareKeepsSafe(s, p, service);
    case TryLock(p, indicator, end) => TryLockKeepsSafe(s, p, indicator, end);
    case CheckInterval(p) => CheckIntervalKeepsSafe(s, p);
    case RecheckGeneration(p) => RecheckGenerationKeepsSafe(s, p);
    case CommitRow(p, body) => CommitRowKeepsSafe(s, p, body, hash);
    case Unlock(p) => UnlockKeepsSafe(s, p);
  }

  lemma UpdaterActionKeepsSafe(s: State, a: Action, hash: Hash)
    requires Safe(s) && (a.LockService? || a.Bump? || a.LockNextIndicator? || a.DeleteRows? || a.CommitUpdate?
                         || a.Rollback?)
    ensures Safe(Next(s, a, hash))
  {
    match a
    case LockService(u, service, expected, material) => LockServiceKeepsSafe(s, u, service, expected, material);
    case Bump(u) => BumpKeepsSafe(s, u);
    case LockNextIndicator(u) => LockNextIndicatorKeepsSafe(s, u);
    case DeleteRows(u) => DeleteRowsKeepsSafe(s, u);
    case CommitUpdate(u) => CommitUpdateKeepsSafe(s, u);
    case Rollback(u) => RollbackKeepsSafe(s, u);
  }

  lemma OtherActionKeepsSafe(s: State, a: Action, hash: Hash)
    requires Safe(s) && (a.CreateService? || a.DeleteService? || a.StartReading? || a.ReadReference?
                         || a.RereadGeneration?)
    ensures Safe(Next(s, a, hash))
  {
    match a
    case CreateService(service) => CreateServiceKeepsSafe(s, service);
    case DeleteService(service) => DeleteServiceKeepsSafe(s, service);
    case StartReading(r, slot) => StartReadingKeepsSafe(s, r, slot);
    case ReadReference(r, row) => ReadReferenceKeepsSafe(s, r, row);
    case RereadGeneration(r) => RereadGenerationKeepsSafe(s, r);
  }

  lemma NextKeepsSafe(s: State, a: Action, hash: Hash)
    requires Safe(s)
    ensures Safe(Next(s, a, hash))
  {
    if a.CreateService? || a.DeleteService? || a.StartReading? || a.ReadReference? || a.RereadGeneration? {
      OtherActionKeepsSafe(s, a, hash);
    } else if a.LockService? || a.Bump? || a.LockNextIndicator? || a.DeleteRows? || a.CommitUpdate? || a.Rollback? {
      UpdaterActionKeepsSafe(s, a, hash);
    } else {
      PublisherActionKeepsSafe(s, a, hash);
    }
  }

  lemma {:induction false} AfterIsSafe(actions: seq<Action>, hash: Hash)
    ensures Safe(After(actions, hash))
  {
    if actions != [] {
      AfterIsSafe(actions[..|actions| - 1], hash);
      NextKeepsSafe(After(actions[..|actions| - 1], hash), actions[|actions| - 1], hash);
    }
  }

  /** In every interleaving, every committed ECDF of a service was built from the
      service's committed generation. */
  lemma EveryRowIsOfTheCurrentGeneration(actions: seq<Action>, hash: Hash, r: Row)
    requires var s := After(actions, hash); r in s.rows && r.slot.service in s.services
    ensures r.builtFrom == After(actions, hash).services[r.slot.service].generation
  {
    AfterIsSafe(actions, hash);
  }

  /** Evidence that passes the second generation check shows a reference distribution
      built from the generation of the chunk it explains. */
  lemma AcceptedEvidenceMatchesItsChunk(actions: seq<Action>, hash: Hash, r: int)
    requires r in After(actions, hash).readers && After(actions, hash).readers[r].Accepted?
    ensures After(actions, hash).readers[r].row.builtFrom == After(actions, hash).readers[r].generation
  {
    AfterIsSafe(actions, hash);
  }

  /** Two publishers are never at work on one slot, and while an update has deleted a
      service's rows nobody is publishing for that service. */
  lemma PublicationIsExclusive(actions: seq<Action>, hash: Hash, p: int, q: int, u: int)
    requires var s := After(actions, hash);
             p in s.publishers && q in s.publishers && HoldsSlot(s.publishers[p]) && HoldsSlot(s.publishers[q])
    ensures var s := After(actions, hash);
            && (s.publishers[p].slot == s.publishers[q].slot ==> p == q)
            && (u in s.updaters && s.updaters[u].Cleared? ==> s.updaters[u].service != s.publishers[p].slot.service)
  {
    AfterIsSafe(actions, hash);
    var s := After(actions, hash);
    if u in s.updaters && s.updaters[u].Cleared? { NoUpdatePastThePublisher(s, p, u); }
  }

  // ---------------------------------------------------------------- the table over whole runs

  ghost predicate DistinctIntervals(rows: seq<Row>) {
    forall j, k :: 0 <= j < k < |rows| ==> rows[j].intervalEnd != rows[k].intervalEnd
  }

  ghost predicate SlotOk(rows: seq<Row>, slot: Slot) {
    && Ascending(Of(rows, slot)) && DistinctIntervals(Of(rows, slot))
    && |Of(rows, slot)| <= RETAINED_VERSIONS
  }

  ghost predicate TableOk(s: State) {
    && (forall slot :: SlotOk(s.rows, slot))
    && (forall p :: p in s.publishers && (s.publishers[p].Unpublished? || s.publishers[p].Building?) ==>
          !AlreadyPublished(s.rows, s.publishers[p].slot, s.publishers[p].intervalEnd))
  }

  lemma NewIntervalStaysDistinct(rows: seq<Row>, r: Row)
    requires DistinctIntervals(Of(rows, r.slot)) && !AlreadyPublished(rows, r.slot, r.intervalEnd)
    ensures DistinctIntervals(Of(rows, r.slot) + [r])
  {
    var mine := Of(rows, r.slot);
    OfMembers(rows, r.slot);
    forall k | 0 <= k < |mine|
      ensures mine[k].intervalEnd != r.intervalEnd
    {
      assert mine[k] in mine;
    }
  }

  lemma LastFiveKeepsOrder(s: seq<Row>)
    requires Ascending(s) && DistinctIntervals(s)
    ensures Ascending(LastFive(s)) && DistinctIntervals(LastFive(s)) && |LastFive(s)| <= RETAINED_VERSIONS
  {
  }

  lemma PublishedKeepsOwnSlot(rows: seq<Row>, r: Row)
    requires SlotOk(rows, r.slot) && !AlreadyPublished(rows, r.slot, r.intervalEnd)
    requires r.version == MaxVersion(rows, r.slot) + 1
    ensures SlotOk(Published(rows, r), r.slot)
  {
    PublicationKeepsFiveNewest(rows, r, r.slot);
    NewIntervalStaysDistinct(rows, r);
    LastFiveKeepsOrder(Of(rows, r.slot) + [r]);
  }

  lemma PublishedKeepsSlots(rows: seq<Row>, r: Row, slot: Slot)
    requires SlotOk(rows, slot) && SlotOk(rows, r.slot) && !AlreadyPublished(rows, r.slot, r.intervalEnd)
    requires r.version == MaxVersion(rows, r.slot) + 1
    ensures SlotOk(Published(rows, r), slot)
  {
    if slot == r.slot { PublishedKeepsOwnSlot(rows, r); } else { PublicationKeepsFiveNewest(rows, r, slot); }
  }

  lemma {:induction false} OfWithout(rows: seq<Row>, service: int, doomed: set<Row>, slot: Slot)
    requires forall r :: r in rows ==> (r in doomed <==> r.slot.service == service)
    ensures Of(Without(rows, doomed), slot) == if slot.service == service then [] else Of(rows, slot)
  {
    if rows != [] {
      var n := |rows| - 1;
      OfWithout(rows[..n], service, doomed, slot);
      var kept := Without(rows[..n], doomed);
      assert (kept + [rows[n]])[..|kept|] == kept;
    }
  }

  lemma CommitRowKeepsTable(s: State, p: int, body: seq<int>, hash: Hash)
    requires LocksOk(s) && TableOk(s)
    ensures TableOk(DoCommitRow(s, p, body, hash))
  {
    var phase := PublisherAt(s, p);
    if phase.Building? && body != [] {
      var row := NewRow(s.rows, phase.slot, phase.intervalEnd, body, hash, phase.generation);
      forall slot
        ensures SlotOk(Published(s.rows, row), slot)
      {
        assert SlotOk(s.rows, slot) && SlotOk(s.rows, row.slot);
        PublishedKeepsSlots(s.rows, row, slot);
      }
      PublishedMembers(s.rows, row);
    }
  }

  lemma CommitUpdateKeepsTable(s: State, u: int)
    requires Fenced(s) && TableOk(s)
    ensures TableOk(DoCommitUpdate(s, u))
  {
    var phase := UpdaterAt(s, u);
    if phase.Cleared? {
      WithoutMembers(s.rows, phase.doomed);
      forall slot
        ensures SlotOk(Without(s.rows, phase.doomed), slot)
      {
        assert SlotOk(s.rows, slot);
        OfWithout(s.rows, phase.service, phase.doomed, slot);
      }
    }
  }

  lemma PublisherChangeKeepsTable(s: State, t: State, p: int, phase: Publisher)
    requires TableOk(s) && t.rows == s.rows && t.publishers == s.publishers[p := phase]
    requires phase.Unpublished? || phase.Building? ==> !AlreadyPublished(s.rows, phase.slot, phase.intervalEnd)
    ensures TableOk(t)
  {
  }

  lemma ReleasedKeepsTable(s: State, p: int)
    requires TableOk(s) && HoldsSlot(PublisherAt(s, p))
    ensures TableOk(Released(s, p))
  {
    PublisherChangeKeepsTable(s, Released(s, p), p, PublisherAt(Released(s, p), p));
  }

  lemma LockingKeepsTable(s: State, a: Action, hash: Hash)
    requires TableOk(s) && (a.Prepare? || a.TryLock? || a.Unlock?)
    ensures TableOk(Next(s, a, hash))
  {
    var t := Next(s, a, hash);
    if t != s { PublisherChangeKeepsTable(s, t, a.publisher, PublisherAt(t, a.publisher)); }
  }

  lemma CheckIntervalKeepsTable(s: State, p: int)
    requires TableOk(s)
    ensures TableOk(DoCheckInterval(s, p))
  {
    var phase := PublisherAt(s, p);
    if phase.Locked? {
      if AlreadyPublished(s.rows, phase.slot, phase.intervalEnd) {
        ReleasedKeepsTable(s, p);
      } else {
        var unpublished := Unpublished(phase.slot, phase.generation, phase.intervalEnd);
        PublisherChangeKeepsTable(s, DoCheckInterval(s, p), p, unpublished);
      }
    }
  }

  lemma RecheckGenerationKeepsTable(s: State, p: int)
    requires TableOk(s)
    ensures TableOk(DoRecheckGeneration(s, p))
  {
    var phase := PublisherAt(s, p);
    if phase.Unpublished? {
      ReleasedKeepsTable(s, p);
      var building := Building(phase.slot, phase.generation, phase.intervalEnd);
      PublisherChangeKeepsTable(s, s.(publishers := s.publishers[p := building]), p, building);
    }
  }

  lemma UpdaterActionKeepsPublications(s: State, a: Action, hash: Hash)
    requires a.LockService? || a.Bump? || a.LockNextIndicator? || a.DeleteRows? || a.Rollback?
    ensures Next(s, a, hash).rows == s.rows && Next(s, a, hash).publishers == s.publishers
  {
  }

  lemma ReaderActionKeepsPublications(s: State, a: Action, hash: Hash)
    requires a.StartReading? || a.ReadReference? || a.RereadGeneration? || a.CreateService? || a.DeleteService?
    ensures Next(s, a, hash).rows == s.rows && Next(s, a, hash).publishers == s.publishers
  {
  }

  lemma NextKeepsTable(s: State, a: Action, hash: Hash)
    requires Safe(s) && TableOk(s)
    ensures TableOk(Next(s, a, hash))
  {
    if a.CommitRow? { CommitRowKeepsTable(s, a.publisher, a.body, hash); }
    else if a.CommitUpdate? { CommitUpdateKeepsTable(s, a.updater); }
    else if a.Prepare? || a.TryLock? || a.Unlock? { LockingKeepsTable(s, a, hash); }
    else if a.CheckInterval? { CheckIntervalKeepsTable(s, a.publisher); }
    else if a.RecheckGeneration? { RecheckGenerationKeepsTable(s, a.publisher); }
    else if a.LockService? || a.Bump? || a.LockNextIndicator? || a.DeleteRows? || a.Rollback? {
      UpdaterActionKeepsPublications(s, a, hash);
    } else {
      ReaderActionKeepsPublications(s, a, hash);
    }
  }

  lemma {:induction false} AfterTableIsOk(actions: seq<Action>, hash: Hash)
    ensures TableOk(After(actions, hash))
  {
    if actions != [] {
      AfterIsSafe(actions[..|actions| - 1], hash);
      AfterTableIsOk(actions[..|actions| - 1], hash);
      NextKeepsTable(After(actions[..|actions| - 1], hash), actions[|actions| - 1], hash);
    }
  }

  /** In every interleaving each slot keeps at most five versions, in strictly rising
      order, and at most one for any interval; the advisory lock alone ensures it. */
  lemma SlotsStayInOrder(actions: seq<Action>, hash: Hash, slot: Slot)
    ensures var mine := Of(After(actions, hash).rows, slot);
            Ascending(mine) && DistinctIntervals(mine) && |mine| <= RETAINED_VERSIONS
  {
    AfterTableIsOk(actions, hash);
    assert SlotOk(After(actions, hash).rows, slot);
  }
}
