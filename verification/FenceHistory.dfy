/**
The fence told without generation numbers: how many material updates of a service have committed, and
how many had when a publisher prepared. No row is committed by a publisher that prepared before the
last of them. And what publishers and readers get when nobody steps in between.
*/
module FenceHistory {
  import opened Options
  import opened EcdfTable
  import opened PublicationFence

  /** The action commits an update of the service, material or not. */
  predicate CommitsUpdate(s: State, a: Action, service: int, material: bool) {
    && a.CommitUpdate? && service in s.services
    && (match UpdaterAt(s, a.updater)
        case RowLocked(v, m) => v == service && !m && !material
        case Cleared(v, _) => v == service && material
        case _ => false)
  }

  /** The committed updates of a service, material or not. */
  function Updates(actions: seq<Action>, hash: Hash, service: int, material: bool): nat {
    if actions == [] then 0
    else
      var before, a := actions[..|actions| - 1], actions[|actions| - 1];
      Updates(before, hash, service, material)
      + if CommitsUpdate(After(before, hash), a, service, material) then 1 else 0
  }

  predicate Prepares(s: State, a: Action, p: int) {
    a.Prepare? && a.publisher == p && !HoldsSlot(PublisherAt(s, p)) && a.service in s.services
  }

  /** How many material updates had committed when the publisher last prepared. */
  function UpdatesAtPrepare(actions: seq<Action>, hash: Hash, p: int): nat {
    if actions == [] then 0
    else
      var before, a := actions[..|actions| - 1], actions[|actions| - 1];
      if Prepares(After(before, hash), a, p) then Updates(before, hash, a.service, true)
      else UpdatesAtPrepare(before, hash, p)
  }

  // ---------------------------------------------------------------- the numbers count the updates

  /** `minor` and `material` are the updates so far, `prepared` the material ones at each preparation. */
  ghost predicate Tallies(s: State, minor: int -> nat, material: int -> nat, prepared: int -> nat) {
    && (forall v :: v in s.services ==>
          && s.services[v].generation == 1 + material(v)
          && s.services[v].revision == 1 + minor(v) + material(v))
    && (forall v :: v !in s.known ==> minor(v) == 0 && material(v) == 0)
    && (forall p :: p in s.publishers && !s.publishers[p].Resting? ==> s.publishers[p].generation == 1 + prepared(p))
    && (forall p :: p in s.publishers && s.publishers[p].Building? ==>
          prepared(p) == material(s.publishers[p].slot.service))
  }

  /** Only publisher `p` moves, and what it read at its preparation stays; to build it must be current. */
  ghost predicate Moves(s: State, t: State, p: int) {
    var was, now := PublisherAt(s, p), PublisherAt(t, p);
    && t.services == s.services && t.known == s.known && t.publishers == s.publishers[p := now]
    && !was.Resting? && !now.Resting? && now.generation == was.generation
    && (now.Building? ==>
          now.slot.service in s.services && now.generation == s.services[now.slot.service].generation)
  }

  lemma MovedTallies(s: State, t: State, p: int, minor: int -> nat, material: int -> nat, prepared: int -> nat)
    requires Tallies(s, minor, material, prepared) && Moves(s, t, p)
    ensures Tallies(t, minor, material, prepared)
  {
  }

  lemma ReleaseMoves(s: State, p: int)
    requires HoldsSlot(PublisherAt(s, p))
    ensures Moves(s, Released(s, p), p)
  {
  }

  lemma TryLockMoves(s: State, p: int, indicator: Indicator, end: int)
    ensures DoTryLock(s, p, indicator, end) == s || Moves(s, DoTryLock(s, p, indicator, end), p)
  {
  }

  lemma CheckIntervalMoves(s: State, p: int)
    ensures DoCheckInterval(s, p) == s || Moves(s, DoCheckInterval(s, p), p)
  {
  }

  lemma RecheckMoves(s: State, p: int)
    ensures DoRecheckGeneration(s, p) == s || Moves(s, DoRecheckGeneration(s, p), p)
  {
  }

  lemma CommitRowMoves(s: State, p: int, body: seq<int>, hash: Hash)
    ensures DoCommitRow(s, p, body, hash) == s || Moves(s, DoCommitRow(s, p, body, hash), p)
  {
    var phase := PublisherAt(s, p);
    if phase.Building? {
      if body == [] { ReleaseMoves(s, p); }
      else {
        StoreMoves(s, p, Published(s.rows,
                                   NewRow(s.rows, phase.slot, phase.intervalEnd, body, hash, phase.generation)));
      }
    }
  }

  lemma StoreMoves(s: State, p: int, rows: seq<Row>)
    requires PublisherAt(s, p).Building?
    ensures var phase := PublisherAt(s, p);
            Moves(s, WithPublisher(s.(rows := rows), p, Committed(phase.slot, phase.generation)), p)
  {
  }

  lemma PublisherMoves(s: State, p: int, a: Action, hash: Hash)
    requires (a.TryLock? || a.CheckInterval? || a.RecheckGeneration? || a.CommitRow? || a.Unlock?) && a.publisher == p
    ensures Next(s, a, hash) == s || Moves(s, Next(s, a, hash), p)
  {
    match a
    case TryLock(_, indicator, end) => TryLockMoves(s, p, indicator, end);
    case CheckInterval(_) => CheckIntervalMoves(s, p);
    case RecheckGeneration(_) => RecheckMoves(s, p);
    case CommitRow(_, body) => CommitRowMoves(s, p, body, hash);
    case _ => if HoldsSlot(PublisherAt(s, p)) { ReleaseMoves(s, p); }
  }

  lemma PrepareTallies(s: State, p: int, service: int, hash: Hash, minor: int -> nat, material: int -> nat,
                       prepared: int -> nat, after: int -> nat)
    requires Tallies(s, minor, material, prepared)
    requires forall q :: after(q) == if Prepares(s, Prepare(p, service), q) then material(service) else prepared(q)
    ensures Tallies(DoPrepare(s, p, service), minor, material, after)
  {
  }

  lemma MinorCommitTallies(s: State, u: int, service: int, minor: int -> nat, material: int -> nat,
                           prepared: int -> nat, minor': int -> nat)
    requires Tallies(s, minor, material, prepared)
    requires UpdaterAt(s, u) == RowLocked(service, false) && service in s.services
    requires forall v :: minor'(v) == minor(v) + if v == service then 1 else 0
    requires service in s.known
    ensures Tallies(DoCommitUpdate(s, u), minor', material, prepared)
  {
  }

  lemma MaterialCommitTallies(s: State, u: int, service: int, doomed: set<Row>, minor: int -> nat,
                              material: int -> nat, prepared: int -> nat, material': int -> nat)
    requires Tallies(s, minor, material, prepared)
    requires UpdaterAt(s, u) == Cleared(service, doomed) && service in s.services
    requires forall v :: material'(v) == material(v) + if v == service then 1 else 0
    requires service in s.known
    requires forall p :: p in s.publishers && s.publishers[p].Building? ==> s.publishers[p].slot.service != service
    ensures Tallies(DoCommitUpdate(s, u), minor, material', prepared)
  {
  }

  lemma CommitTallies(s: State, u: int, hash: Hash, minor: int -> nat, material: int -> nat, prepared: int -> nat,
                      minor': int -> nat, material': int -> nat)
    requires Safe(s) && Tallies(s, minor, material, prepared)
    requires forall v :: minor'(v) == minor(v) + if CommitsUpdate(s, CommitUpdate(u), v, false) then 1 else 0
    requires forall v :: material'(v) == material(v) + if CommitsUpdate(s, CommitUpdate(u), v, true) then 1 else 0
    ensures Tallies(DoCommitUpdate(s, u), minor', material', prepared)
  {
    var phase := UpdaterAt(s, u);
    if phase.Cleared? {
      forall p | p in s.publishers && HoldsSlot(s.publishers[p])
        ensures s.publishers[p].slot.service != phase.service
      {
        NoUpdatePastThePublisher(s, p, u);
      }
      MaterialCommitTallies(s, u, phase.service, phase.doomed, minor, material, prepared, material');
      SameTallies(DoCommitUpdate(s, u), minor, material', prepared, minor', material', prepared);
    } else if phase.RowLocked? && !phase.material {
      MinorCommitTallies(s, u, phase.service, minor, material, prepared, minor');
      SameTallies(DoCommitUpdate(s, u), minor', material, prepared, minor', material', prepared);
    } else {
      SameTallies(s, minor, material, prepared, minor', material', prepared);
    }
  }

  lemma ServiceTallies(s: State, a: Action, hash: Hash, minor: int -> nat, material: int -> nat, prepared: int -> nat)
    requires KnownOk(s) && Tallies(s, minor, material, prepared) && (a.CreateService? || a.DeleteService?)
    ensures Tallies(Next(s, a, hash), minor, material, prepared)
  {
  }

  lemma UntouchedByUpdater(s: State, a: Action, hash: Hash)
    requires a.LockService? || a.Bump? || a.LockNextIndicator? || a.DeleteRows? || a.Rollback?
    ensures var t := Next(s, a, hash); t.services == s.services && t.known == s.known && t.publishers == s.publishers
  {
  }

  lemma UntouchedByReader(s: State, a: Action, hash: Hash)
    requires a.StartReading? || a.ReadReference? || a.RereadGeneration?
    ensures var t := Next(s, a, hash); t.services == s.services && t.known == s.known && t.publishers == s.publishers
  {
  }

  lemma QuietTallies(s: State, t: State, minor: int -> nat, material: int -> nat, prepared: int -> nat)
    requires Tallies(s, minor, material, prepared)
    requires t.services == s.services && t.known == s.known && t.publishers == s.publishers
    ensures Tallies(t, minor, material, prepared)
  {
  }

  lemma SameTallies(s: State, minor: int -> nat, material: int -> nat, prepared: int -> nat,
                    minor': int -> nat, material': int -> nat, prepared': int -> nat)
    requires Tallies(s, minor, material, prepared)
    requires forall v :: minor'(v) == minor(v) && material'(v) == material(v) && prepared'(v) == prepared(v)
    ensures Tallies(s, minor', material', prepared')
  {
  }

  lemma QuietStepTallies(s: State, a: Action, hash: Hash, minor: int -> nat, material: int -> nat, prepared: int -> nat)
    requires Safe(s) && Tallies(s, minor, material, prepared) && !a.CommitUpdate? && !a.Prepare?
    ensures Tallies(Next(s, a, hash), minor, material, prepared)
  {
    if a.CreateService? || a.DeleteService? {
      ServiceTallies(s, a, hash, minor, material, prepared);
    } else if a.TryLock? || a.CheckInterval? || a.RecheckGeneration? || a.CommitRow? || a.Unlock? {
      PublisherMoves(s, a.publisher, a, hash);
      if Next(s, a, hash) != s { MovedTallies(s, Next(s, a, hash), a.publisher, minor, material, prepared); }
    } else {
      if a.StartReading? || a.ReadReference? || a.RereadGeneration? { UntouchedByReader(s, a, hash); }
      else { UntouchedByUpdater(s, a, hash); }
      QuietTallies(s, Next(s, a, hash), minor, material, prepared);
    }
  }

  lemma NextTallies(s: State, a: Action, hash: Hash, minor: int -> nat, material: int -> nat, prepared: int -> nat,
                    minor': int -> nat, material': int -> nat, prepared': int -> nat)
    requires Safe(s) && Tallies(s, minor, material, prepared)
    requires forall v :: minor'(v) == minor(v) + if CommitsUpdate(s, a, v, false) then 1 else 0
    requires forall v :: material'(v) == material(v) + if CommitsUpdate(s, a, v, true) then 1 else 0
    requires forall p :: prepared'(p) == if Prepares(s, a, p) then material(a.service) else prepared(p)
    ensures Tallies(Next(s, a, hash), minor', material', prepared')
  {
    if a.CommitUpdate? {
      CommitTallies(s, a.updater, hash, minor, material, prepared, minor', material');
      SameTallies(Next(s, a, hash), minor', material', prepared, minor', material', prepared');
    } else if a.Prepare? {
      PrepareTallies(s, a.publisher, a.service, hash, minor, material, prepared, prepared');
      SameTallies(Next(s, a, hash), minor, material, prepared', minor', material', prepared');
    } else {
      QuietStepTallies(s, a, hash, minor, material, prepared);
      SameTallies(Next(s, a, hash), minor, material, prepared, minor', material', prepared');
    }
  }

  lemma {:induction false} AfterTallies(actions: seq<Action>, hash: Hash)
    ensures Tallies(After(actions, hash), v => Updates(actions, hash, v, false), v => Updates(actions, hash, v, true),
                    p => UpdatesAtPrepare(actions, hash, p))
  {
    if actions != [] {
      var before, a := actions[..|actions| - 1], actions[|actions| - 1];
      AfterTallies(before, hash);
      AfterIsSafe(before, hash);
      NextTallies(After(before, hash), a, hash,
                  v => Updates(before, hash, v, false), v => Updates(before, hash, v, true),
                  p => UpdatesAtPrepare(before, hash, p),
                  v => Updates(actions, hash, v, false), v => Updates(actions, hash, v, true),
                  p => UpdatesAtPrepare(actions, hash, p));
    }
  }

  /** After any run the generation of a service counts its material updates, and its revision all of them. */
  lemma NumbersCountUpdates(actions: seq<Action>, hash: Hash, service: int)
    requires service in After(actions, hash).services
    ensures var now := After(actions, hash).services[service];
            && now.generation == 1 + Updates(actions, hash, service, true)
            && now.revision == 1 + Updates(actions, hash, service, false) + Updates(actions, hash, service, true)
  {
    AfterTallies(actions, hash);
  }

  /** In every interleaving a publisher that commits a row prepared after the last material update of its
      service that has committed. */
  lemma RowsFollowTheLastUpdate(actions: seq<Action>, hash: Hash, p: int, body: seq<int>)
    requires After(actions + [CommitRow(p, body)], hash).rows != After(actions, hash).rows
    ensures PublisherAt(After(actions, hash), p).Building?
    ensures UpdatesAtPrepare(actions, hash, p) ==
            Updates(actions, hash, PublisherAt(After(actions, hash), p).slot.service, true)
  {
    assert (actions + [CommitRow(p, body)])[..|actions|] == actions;
    AfterTallies(actions, hash);
  }

  /** A committed material update makes way: a new generation, and no row of the service is left. */
  lemma MaterialUpdateClears(s: State, a: Action, hash: Hash, service: int, material: bool)
    requires Safe(s) && CommitsUpdate(s, a, service, material)
    ensures var t := Next(s, a, hash);
            && t.services.Keys == s.services.Keys
            && (forall v :: v in s.services && v != service ==> t.services[v] == s.services[v])
            && t.services[service].revision == s.services[service].revision + 1
            && t.services[service].generation == s.services[service].generation + (if material then 1 else 0)
            && forall r :: r in t.rows <==> r in s.rows && !(material && r.slot.service == service)
  {
    var phase := UpdaterAt(s, a.updater);
    if phase.Cleared? { WithoutMembers(s.rows, phase.doomed); }
  }

  /** An update under a stale revision, or of a service locked or gone, gets no lock. */
  lemma StaleUpdateWaits(s: State, u: int, service: int, expectedRevision: int, material: bool, hash: Hash)
    requires service !in s.services || s.services[service].revision != expectedRevision || service in s.rowLocks
    ensures Next(s, LockService(u, service, expectedRevision, material), hash) == s
  {
  }

  // ---------------------------------------------------------------- no lock is left behind

  /** Whoever is noted as the owner of a lock is at work under it. */
  ghost predicate Owned(s: State) {
    && (forall slot :: slot in s.locks ==>
          match s.locks[slot]
          case ByPublisher(p) => HoldsSlot(PublisherAt(s, p)) && PublisherAt(s, p).slot == slot
          case ByUpdater(u) => HoldsIndicator(UpdaterAt(s, u), slot.service, slot.indicator))
    && (forall service :: service in s.rowLocks ==>
          !UpdaterAt(s, s.rowLocks[service]).Quiet? && UpdaterAt(s, s.rowLocks[service]).service == service)
  }

  /** Publisher `p` goes on with its slot, gives it up, or takes a free one. */
  ghost predicate PublisherLocks(s: State, t: State, p: int) {
    var was, now := PublisherAt(s, p), PublisherAt(t, p);
    && t.publishers == s.publishers[p := now] && t.updaters == s.updaters && t.rowLocks == s.rowLocks
    && (HoldsSlot(was) && HoldsSlot(now) ==> was.slot == now.slot)
    && t.locks == if HoldsSlot(was) && !HoldsSlot(now) then s.locks - {was.slot}
                  else if !HoldsSlot(was) && HoldsSlot(now) then s.locks[now.slot := ByPublisher(p)]
                  else s.locks
  }

  lemma PublisherLocksOwned(s: State, t: State, p: int)
    requires Owned(s) && PublisherLocks(s, t, p)
    ensures Owned(t)
  {
  }

  lemma ReleaseLocks(s: State, p: int)
    requires HoldsSlot(PublisherAt(s, p))
    ensures PublisherLocks(s, Released(s, p), p)
  {
  }

  lemma ReleasedOwned(s: State, p: int)
    requires Owned(s) && HoldsSlot(PublisherAt(s, p))
    ensures Owned(Released(s, p))
  {
    ReleaseLocks(s, p);
    PublisherLocksOwned(s, Released(s, p), p);
  }

  lemma PrepareOwned(s: State, p: int, service: int)
    requires Owned(s)
    ensures Owned(DoPrepare(s, p, service))
  {
    if DoPrepare(s, p, service) != s { PublisherLocksOwned(s, DoPrepare(s, p, service), p); }
  }

  lemma TryLockOwned(s: State, p: int, indicator: Indicator, end: int)
    requires Owned(s)
    ensures Owned(DoTryLock(s, p, indicator, end))
  {
    if DoTryLock(s, p, indicator, end) != s { PublisherLocksOwned(s, DoTryLock(s, p, indicator, end), p); }
  }

  /** A publisher goes on under its lock. */
  lemma GoingOnOwned(s: State, p: int, phase: Publisher)
    requires Owned(s) && HoldsSlot(PublisherAt(s, p)) && HoldsSlot(phase) && phase.slot == PublisherAt(s, p).slot
    ensures Owned(WithPublisher(s, p, phase))
  {
    PublisherLocksOwned(s, WithPublisher(s, p, phase), p);
  }

  lemma CheckIntervalOwned(s: State, p: int)
    requires Owned(s)
    ensures Owned(DoCheckInterval(s, p))
  {
    var phase := PublisherAt(s, p);
    if phase.Locked? {
      ReleasedOwned(s, p);
      GoingOnOwned(s, p, Unpublished(phase.slot, phase.generation, phase.intervalEnd));
    }
  }

  lemma RecheckOwned(s: State, p: int)
    requires Owned(s)
    ensures Owned(DoRecheckGeneration(s, p))
  {
    var phase := PublisherAt(s, p);
    if phase.Unpublished? {
      ReleasedOwned(s, p);
      GoingOnOwned(s, p, Building(phase.slot, phase.generation, phase.intervalEnd));
    }
  }

  lemma CommitRowOwned(s: State, p: int, body: seq<int>, hash: Hash)
    requires Owned(s)
    ensures Owned(DoCommitRow(s, p, body, hash))
  {
    var phase := PublisherAt(s, p);
    if phase.Building? {
      ReleasedOwned(s, p);
      var rows := Published(s.rows, NewRow(s.rows, phase.slot, phase.intervalEnd, body, hash, phase.generation));
      assert Owned(s.(rows := rows));
      GoingOnOwned(s.(rows := rows), p, Committed(phase.slot, phase.generation));
    }
  }

  lemma EndedOwned(s: State, u: int)
    requires Owned(s) && !UpdaterAt(s, u).Quiet?
    ensures Owned(Ended(s, u))
  {
  }

  lemma CommitUpdateOwned(s: State, u: int)
    requires Owned(s)
    ensures Owned(DoCommitUpdate(s, u))
  {
    if DoCommitUpdate(s, u) != s {
      EndedOwned(s, u);
      var t := DoCommitUpdate(s, u);
      assert t == Ended(s, u).(services := t.services, rows := t.rows);
    }
  }

  lemma LockServiceOwned(s: State, u: int, service: int, expectedRevision: int, material: bool)
    requires Owned(s)
    ensures Owned(DoLockService(s, u, service, expectedRevision, material))
  {
  }

  lemma BumpOwned(s: State, u: int)
    requires Owned(s)
    ensures Owned(DoBump(s, u))
  {
  }

  lemma LockNextOwned(s: State, u: int)
    requires Owned(s)
    ensures Owned(DoLockNextIndicator(s, u))
  {
  }

  lemma DeleteRowsOwned(s: State, u: int)
    requires Owned(s)
    ensures Owned(DoDeleteRows(s, u))
  {
  }

  lemma SameLocksOwned(s: State, t: State)
    requires Owned(s)
    requires t.locks == s.locks && t.rowLocks == s.rowLocks && t.publishers == s.publishers && t.updaters == s.updaters
    ensures Owned(t)
  {
  }

  lemma PublisherNextOwned(s: State, a: Action, hash: Hash)
    requires Owned(s)
    requires a.Prepare? || a.TryLock? || a.CheckInterval? || a.RecheckGeneration? || a.CommitRow? || a.Unlock?
    ensures Owned(Next(s, a, hash))
  {
    match a
    case Prepare(p, service) => PrepareOwned(s, p, service);
    case TryLock(p, indicator, end) => TryLockOwned(s, p, indicator, end);
    case CheckInterval(p) => CheckIntervalOwned(s, p);
    case RecheckGeneration(p) => RecheckOwned(s, p);
    case CommitRow(p, body) => CommitRowOwned(s, p, body, hash);
    case Unlock(p) => if HoldsSlot(PublisherAt(s, p)) { ReleasedOwned(s, p); }
  }

  lemma UpdaterNextOwned(s: State, a: Action, hash: Hash)
    requires Owned(s)
    requires a.LockService? || a.Bump? || a.LockNextIndicator? || a.DeleteRows? || a.CommitUpdate? || a.Rollback?
    ensures Owned(Next(s, a, hash))
  {
    match a
    case LockService(u, service, expected, material) => LockServiceOwned(s, u, service, expected, material);
    case Bump(u) => BumpOwned(s, u);
    case LockNextIndicator(u) => LockNextOwned(s, u);
    case DeleteRows(u) => DeleteRowsOwned(s, u);
    case CommitUpdate(u) => CommitUpdateOwned(s, u);
    case Rollback(u) => if !UpdaterAt(s, u).Quiet? { EndedOwned(s, u); }
  }

  lemma NextOwned(s: State, a: Action, hash: Hash)
    requires Owned(s)
    ensures Owned(Next(s, a, hash))
  {
    if a.Prepare? || a.TryLock? || a.CheckInterval? || a.RecheckGeneration? || a.CommitRow? || a.Unlock? {
      PublisherNextOwned(s, a, hash);
    } else if a.LockService? || a.Bump? || a.LockNextIndicator? || a.DeleteRows? || a.CommitUpdate? || a.Rollback? {
      UpdaterNextOwned(s, a, hash);
    } else {
      match a
      case CreateService(service) => SameLocksOwned(s, DoCreateService(s, service));
      case DeleteService(service) => SameLocksOwned(s, DoDeleteService(s, service));
      case StartReading(r, slot) => SameLocksOwned(s, DoStartReading(s, r, slot));
      case ReadReference(r, row) => SameLocksOwned(s, DoReadReference(s, r, row));
      case RereadGeneration(r) => SameLocksOwned(s, DoRereadGeneration(s, r));
    }
  }

  lemma {:induction false} AfterOwned(actions: seq<Action>, hash: Hash)
    ensures Owned(After(actions, hash))
  {
    if actions != [] {
      AfterOwned(actions[..|actions| - 1], hash);
      NextOwned(After(actions[..|actions| - 1], hash), actions[|actions| - 1], hash);
    }
  }

  lemma OwnedExactly(s: State, slot: Slot)
    requires LocksOk(s) && Owned(s)
    ensures slot in s.locks <==>
            || (exists p :: p in s.publishers && HoldsSlot(s.publishers[p]) && s.publishers[p].slot == slot)
            || exists u :: u in s.updaters && HoldsIndicator(s.updaters[u], slot.service, slot.indicator)
  {
    if slot in s.locks {
      match s.locks[slot]
      case ByPublisher(p) => assert p in s.publishers;
      case ByUpdater(u) => assert u in s.updaters;
    }
  }

  lemma RowOwnedExactly(s: State, service: int)
    requires LocksOk(s) && Owned(s)
    ensures service in s.rowLocks <==>
            exists u :: u in s.updaters && !s.updaters[u].Quiet? && s.updaters[u].service == service
  {
    if service in s.rowLocks { assert s.rowLocks[service] in s.updaters; }
  }

  /** After any run the locks are exactly those of the publishers and the updates at work. */
  lemma LocksAreThoseAtWork(actions: seq<Action>, hash: Hash, slot: Slot)
    ensures var s := After(actions, hash);
            slot in s.locks <==>
              || (exists p :: p in s.publishers && HoldsSlot(s.publishers[p]) && s.publishers[p].slot == slot)
              || exists u :: u in s.updaters && HoldsIndicator(s.updaters[u], slot.service, slot.indicator)
    ensures var s := After(actions, hash);
            slot.service in s.rowLocks <==>
              exists u :: u in s.updaters && !s.updaters[u].Quiet? && s.updaters[u].service == slot.service
  {
    AfterOwned(actions, hash);
    AfterIsSafe(actions, hash);
    var s := After(actions, hash);
    OwnedExactly(s, slot);
    RowOwnedExactly(s, slot.service);
  }

  /** Giving up, at whatever point, undoes what was pending and gives the locks back. */
  lemma RollbackUndoes(s: State, u: int, hash: Hash)
    requires LocksOk(s) && u in s.updaters
    ensures var t := Next(s, Rollback(u), hash);
            && t.services == s.services && t.rows == s.rows && t.publishers == s.publishers && UpdaterAt(t, u) == Quiet
            && (forall v :: v in s.rowLocks && v !in t.rowLocks <==>
                  !s.updaters[u].Quiet? && v == s.updaters[u].service)
            && (forall slot: Slot :: slot in t.locks <==>
                  slot in s.locks && !HoldsIndicator(s.updaters[u], slot.service, slot.indicator))
  {
  }

  /** So does a publisher, and may then try again with the generation that it had read. */
  lemma UnlockUndoes(s: State, p: int, hash: Hash)
    requires HoldsSlot(PublisherAt(s, p))
    ensures var t, phase := Next(s, Unlock(p), hash), PublisherAt(s, p);
            && t.services == s.services && t.rows == s.rows && t.updaters == s.updaters && t.rowLocks == s.rowLocks
            && t.locks == s.locks - {phase.slot}
            && t.publishers == s.publishers[p := Prepared(phase.slot.service, phase.generation)]
  {
  }

  // ---------------------------------------------------------------- undisturbed

  function PublicationRun(s: State, p: int, slot: Slot, end: int, body: seq<int>, hash: Hash): State {
    DoUnlock(DoCommitRow(DoRecheckGeneration(DoCheckInterval(Locking(s, p, slot, end), p), p), p, body, hash), p)
  }

  function Locking(s: State, p: int, slot: Slot, end: int): State {
    DoTryLock(DoPrepare(s, p, slot.service), p, slot.indicator, end)
  }

  /** The run is one of the six statements in their order. */
  lemma PublicationSteps(s: State, p: int, slot: Slot, end: int, body: seq<int>, hash: Hash)
    ensures var a := Next(Next(s, Prepare(p, slot.service), hash), TryLock(p, slot.indicator, end), hash);
            var b := Next(Next(a, CheckInterval(p), hash), RecheckGeneration(p), hash);
            PublicationRun(s, p, slot, end, body, hash) == Next(Next(b, CommitRow(p, body), hash), Unlock(p), hash)
  {
  }

  lemma LockingTakesTheSlot(s: State, p: int, slot: Slot, end: int)
    requires !HoldsSlot(PublisherAt(s, p)) && slot.service in s.services && slot !in s.locks
    ensures Locking(s, p, slot, end) ==
            s.(locks := s.locks[slot := ByPublisher(p)],
               publishers := s.publishers[p := Locked(slot, s.services[slot.service].generation, end)])
  {
    var a := DoPrepare(s, p, slot.service);
    assert PublisherAt(a, p) == Prepared(slot.service, s.services[slot.service].generation);
    var b := Locking(s, p, slot, end);
    assert slot == Slot(slot.service, slot.indicator);
    assert b.publishers == s.publishers[p := Locked(slot, s.services[slot.service].generation, end)];
  }

  /** All that a publisher may touch while it holds its slot. */
  predicate OnlyPublishing(s: State, t: State, p: int, phase: Publisher) {
    && t.services == s.services && t.rowLocks == s.rowLocks && t.updaters == s.updaters && t.readers == s.readers
    && t.publishers == s.publishers[p := phase]
  }

  lemma RefusedPublication(s: State, p: int, body: seq<int>, hash: Hash)
    requires PublisherAt(s, p).Prepared?
    ensures DoUnlock(DoCommitRow(DoRecheckGeneration(s, p), p, body, hash), p) == s
  {
  }

  lemma EmptyBodyReleases(s: State, p: int, slot: Slot, generation: int, end: int, hash: Hash)
    requires PublisherAt(s, p) == Building(slot, generation, end)
    ensures var t := DoUnlock(DoCommitRow(s, p, [], hash), p);
            && OnlyPublishing(s, t, p, Prepared(slot.service, generation))
            && t.locks == s.locks - {slot} && t.rows == s.rows
  {
  }

  lemma CommittedUnlocks(s: State, p: int, slot: Slot, generation: int, rows: seq<Row>)
    ensures var t := DoUnlock(WithPublisher(s.(rows := rows), p, Committed(slot, generation)), p);
            && OnlyPublishing(s, t, p, Prepared(slot.service, generation))
            && t.locks == s.locks - {slot} && t.rows == rows
  {
  }

  lemma BuildAndUnlock(s: State, p: int, slot: Slot, generation: int, end: int, body: seq<int>, hash: Hash)
    requires PublisherAt(s, p) == Building(slot, generation, end)
    ensures var t := DoUnlock(DoCommitRow(s, p, body, hash), p);
            && OnlyPublishing(s, t, p, Prepared(slot.service, generation)) && t.locks == s.locks - {slot}
            && t.rows == if body == [] then s.rows
                         else Published(s.rows, NewRow(s.rows, slot, end, body, hash, generation))
  {
    if body == [] {
      EmptyBodyReleases(s, p, slot, generation, end, hash);
    } else {
      var rows := Published(s.rows, NewRow(s.rows, slot, end, body, hash, generation));
      CommittedUnlocks(s, p, slot, generation, rows);
    }
  }

  lemma CheckAndBuild(s: State, p: int, slot: Slot, end: int)
    requires slot.service in s.services
    requires PublisherAt(s, p) == Locked(slot, s.services[slot.service].generation, end)
    requires !exists r :: r in s.rows && r.slot == slot && r.intervalEnd == end
    ensures DoRecheckGeneration(DoCheckInterval(s, p), p) ==
            WithPublisher(s, p, Building(slot, s.services[slot.service].generation, end))
  {
    var t := DoRecheckGeneration(DoCheckInterval(s, p), p);
    assert t.publishers == s.publishers[p := Building(slot, s.services[slot.service].generation, end)];
  }

  lemma CheckAndLeave(s: State, p: int, slot: Slot, end: int)
    requires slot.service in s.services
    requires PublisherAt(s, p) == Locked(slot, s.services[slot.service].generation, end)
    requires exists r :: r in s.rows && r.slot == slot && r.intervalEnd == end
    ensures PublisherAt(DoCheckInterval(s, p), p).Prepared?
    ensures var t := DoCheckInterval(s, p);
            && OnlyPublishing(s, t, p, Prepared(slot.service, s.services[slot.service].generation))
            && t.locks == s.locks - {slot} && t.rows == s.rows
  {
  }

  /** A publisher that nobody disturbs stores its row, of the generation it read, exactly if the interval has
      none yet and the body is not empty; in every case it gives the lock back and changes nothing else. */
  lemma PublicationIsARun(s: State, p: int, slot: Slot, end: int, body: seq<int>, hash: Hash)
    requires !HoldsSlot(PublisherAt(s, p)) && slot.service in s.services && slot !in s.locks
    ensures var t := PublicationRun(s, p, slot, end, body, hash);
            && t.locks == s.locks && t.services == s.services && t.rowLocks == s.rowLocks
            && t.updaters == s.updaters && t.readers == s.readers
            && t.rows == if (exists r :: r in s.rows && r.slot == slot && r.intervalEnd == end) || body == []
              then s.rows
                         else Published(s.rows, NewRow(s.rows, slot, end, body, hash,
                                                       s.services[slot.service].generation))
  {
    LockingTakesTheSlot(s, p, slot, end);
    var b := Locking(s, p, slot, end);
    assert b.locks - {slot} == s.locks;
    if exists r :: r in s.rows && r.slot == slot && r.intervalEnd == end {
      CheckAndLeave(b, p, slot, end);
      RefusedPublication(DoCheckInterval(b, p), p, body, hash);
    } else {
      CheckAndBuild(b, p, slot, end);
      BuildAndUnlock(DoRecheckGeneration(DoCheckInterval(b, p), p), p, slot, s.services[slot.service].generation, end,
                     body, hash);
    }
  }

  /** A reader that nobody disturbs is shown the row it asked for, as a reference of the current generation. */
  lemma EvidenceIsARun(s: State, r: int, row: Row, hash: Hash)
    requires row in s.rows && row.slot.service in s.services
    ensures var t := Next(Next(Next(s, StartReading(r, row.slot), hash), ReadReference(r, row), hash),
                          RereadGeneration(r), hash);
            ReaderAt(t, r) == Accepted(row.slot, s.services[row.slot.service].generation, row)
  {
    var g := s.services[row.slot.service].generation;
    var a := Next(s, StartReading(r, row.slot), hash);
    assert a == s.(readers := s.readers[r := CheckedGeneration(row.slot, g)]);
    var b := Next(a, ReadReference(r, row), hash);
    assert b == a.(readers := a.readers[r := HasReference(row.slot, g, row)]);
  }
}
