/**
What the receiver shows: the rows of an alert in the order in which they were handed off, which
need not be the order in which they were queued, because a row whose hand-off failed waits while
later ones pass it.
*/
module AlertHandoff {
  import opened Options
  import opened AlertModel
  import opened AlertInvariants
  import opened AlertHistory

  /** The last row of a severity that was handed off fires. */
  function Shows(outbox: seq<Notice>, handoffs: seq<int>, s: Severity): bool {
    if handoffs == [] then false
    else
      var k := handoffs[|handoffs| - 1];
      if 0 <= k < |outbox| && outbox[k].severity == s then outbox[k].firing
        else Shows(outbox, handoffs[..|handoffs| - 1], s)
  }

  /** A row of the severity waits to be handed off that fires. */
  predicate Announces(n: Notice, s: Severity) {
    n.firing && n.severity == s && n.state == Pending
  }

  /** A row of the severity waits to be handed off that resolves. */
  predicate Retracts(n: Notice, s: Severity) {
    !n.firing && n.severity == s && n.state == Pending
  }

  /** The receiver shows a warning, and nothing is queued that would change that. */
  ghost predicate Stuck(db: Db, id: int) {
    && id in db.alerts
    && (forall n :: n in db.alerts[id].outbox && n.severity == Warning ==> n.state != Pending)
    && Shows(db.alerts[id].outbox, db.alerts[id].handoffs, Warning)
  }

  /** A warning waits to be handed off while another one has been. */
  ghost predicate Crowded(outbox: seq<Notice>) {
    HasDelivered(outbox, Warning) && exists n :: n in outbox && Announces(n, Warning)
  }

  /** No instant is Go's zero time, which in a payload means that it fires. */
  predicate Dated(a: Action) {
    match a
    case RecordGood(_, _, at) => at != 0
    case RecordAnomaly(_, _, timestamp, _, _) => timestamp != 0
    case RecordCollectionFailure(_, _, _, _, _, now) => now != 0
    case RecordMonitoringFailure(_, _, _, _, now) => now != 0
    case ResolveCollection(_, at) => at != 0
    case ResolveMonitoring(_, _, at) => at != 0
    case InterruptAnomalies(_, at) => at != 0
    case CloseService(_, _, at) => at != 0
    case Review(_, _, _, _, now) => now != 0
    case Deliver(_, _, _, now) => now != 0
    case _ => true
  }

  function RunFrom(db: Db, actions: seq<Action>): Db {
    if actions == [] then db else Next(RunFrom(db, actions[..|actions| - 1]), actions[|actions| - 1])
  }

  // ---------------------------------------------------------------- the rows of one alert

  /** The rows handed off are rows, and delivered. */
  ghost predicate SentFrom(outbox: seq<Notice>, handoffs: seq<int>) {
    forall j :: 0 <= j < |handoffs| ==> 0 <= handoffs[j] < |outbox| && outbox[handoffs[j]].state == Delivered
  }

  /** Firing payloads have no end, resolved ones do; only delivered rows were handed off; and no
      historical anomaly ever was. */
  ghost predicate RowsOk(a: Alert) {
    && (forall i :: 0 <= i < |a.outbox| ==> (a.outbox[i].firing <==> a.outbox[i].endsAt == 0))
    && (SentFrom(a.outbox, a.handoffs))
    && (a.kind == HistoricalAnomaly ==> forall i :: 0 <= i < |a.outbox| && a.outbox[i].firing ==>
          a.outbox[i].state != Delivered)
  }

  /** No warning is left to hand off, and one that is shown has its withdrawal queued. */
  ghost predicate Clear(outbox: seq<Notice>, handoffs: seq<int>) {
    && (forall i :: 0 <= i < |outbox| ==> !Announces(outbox[i], Warning))
    && (Shows(outbox, handoffs, Warning) ==> exists i :: 0 <= i < |outbox| && Retracts(outbox[i], Warning))
  }

  predicate GivenUp(n: Notice, later: Notice) {
    n.firing && n.state == Pending && later == n.(state := Missed)
  }

  /** The alert goes on without a hand-off: pending firing rows may be given up, rows may be added,
      and if the latest firing row had the alert's severity the new ones have it too. */
  ghost predicate Extends(a: Alert, b: Alert) {
    && b.condition == a.condition && b.kind == a.kind && b.handoffs == a.handoffs
    && b.occurrenceCount >= a.occurrenceCount && |a.outbox| <= |b.outbox|
    && (forall i :: 0 <= i < |a.outbox| ==> b.outbox[i] == a.outbox[i] || GivenUp(a.outbox[i], b.outbox[i]))
    && (forall i :: |a.outbox| <= i < |b.outbox| ==>
          b.outbox[i].state == Pending && (b.outbox[i].firing <==> b.outbox[i].endsAt == 0))
    && (FiresAs(a.outbox, a.severity) ==>
          forall i :: |a.outbox| <= i < |b.outbox| && b.outbox[i].firing ==> b.outbox[i].severity == b.severity)
  }

  ghost predicate HandsOver(a: Alert, b: Alert, k: nat) {
    && b.condition == a.condition && b.kind == a.kind && b.occurrenceCount == a.occurrenceCount
    && b.severity == a.severity
    && k < |a.outbox| && a.outbox[k].state == Pending && (a.outbox[k].firing ==> a.kind != HistoricalAnomaly)
    && b.outbox == a.outbox[k := a.outbox[k].(state := Delivered)] && b.handoffs == a.handoffs + [k]
  }

  ghost predicate Moves(a: Alert, b: Alert) {
    Extends(a, b) || exists k :: HandsOver(a, b, k)
  }

  ghost predicate MovesDb(db: Db, after: Db) {
    forall id :: id in after.alerts ==>
      if id in db.alerts then Moves(db.alerts[id], after.alerts[id]) else RowsOk(after.alerts[id])
  }

  ghost predicate RowsOkDb(db: Db) {
    forall id :: id in db.alerts ==> RowsOk(db.alerts[id])
  }

  lemma {:induction false} ShowsSame(outbox: seq<Notice>, later: seq<Notice>, handoffs: seq<int>, s: Severity)
    requires |outbox| <= |later| && SentFrom(outbox, handoffs)
    requires forall i :: 0 <= i < |outbox| ==>
               later[i].firing == outbox[i].firing && later[i].severity == outbox[i].severity
    ensures Shows(later, handoffs, s) <==> Shows(outbox, handoffs, s)
  {
    if handoffs != [] { ShowsSame(outbox, later, handoffs[..|handoffs| - 1], s); }
  }

  lemma {:induction false} ShowsIsDelivered(outbox: seq<Notice>, handoffs: seq<int>, s: Severity)
    requires SentFrom(outbox, handoffs) && Shows(outbox, handoffs, s)
    ensures HasDelivered(outbox, s)
  {
    var k := handoffs[|handoffs| - 1];
    if outbox[k].severity == s {
      assert outbox[k] in outbox && IsDelivered(outbox[k], s);
    } else {
      ShowsIsDelivered(outbox, handoffs[..|handoffs| - 1], s);
    }
  }

  lemma MovesKeepsRows(a: Alert, b: Alert)
    requires RowsOk(a) && Moves(a, b)
    ensures RowsOk(b)
  {
    if !Extends(a, b) { var k :| HandsOver(a, b, k); }
  }

  lemma ExtendsKeepsClear(a: Alert, b: Alert)
    requires RowsOk(a) && Clear(a.outbox, a.handoffs) && Extends(a, b) && FiresAs(a.outbox, a.severity)
             && b.severity == Critical
    ensures Clear(b.outbox, b.handoffs)
  {
    ShowsSame(a.outbox, b.outbox, a.handoffs, Warning);
    if Shows(b.outbox, b.handoffs, Warning) {
      var i :| 0 <= i < |a.outbox| && Retracts(a.outbox[i], Warning);
      assert Retracts(b.outbox[i], Warning);
    }
  }

  lemma HandsOverKeepsClear(a: Alert, b: Alert, k: nat)
    requires RowsOk(a) && Clear(a.outbox, a.handoffs) && HandsOver(a, b, k)
    ensures Clear(b.outbox, b.handoffs)
  {
    ShowsSame(a.outbox, b.outbox, a.handoffs, Warning);
    assert b.handoffs[..|a.handoffs|] == a.handoffs;
    if Shows(b.outbox, b.handoffs, Warning) {
      assert a.outbox[k].severity == Critical;
      var i :| 0 <= i < |a.outbox| && Retracts(a.outbox[i], Warning);
      assert Retracts(b.outbox[i], Warning);
    }
  }

  // ---------------------------------------------------------------- what one transaction does to an alert

  lemma ResolveExtends(a: Alert, reason: Reason, at: int)
    requires at != 0
    ensures Extends(a, Resolve(a, reason, at))
  {
  }

  lemma CountedExtends(a: Alert, b: Alert, count: nat, consecutive: nat, severity: Severity, escalates: bool, at: int)
    requires at != 0 && b == a.(occurrences := b.occurrences) && count >= a.occurrenceCount
    ensures Extends(a, Counted(b, count, consecutive, severity, escalates, at))
  {
  }

  lemma {:induction false} LastFiringIsARow(outbox: seq<Notice>)
    ensures LastFiring(outbox).Some? ==> LastFiring(outbox).value in outbox && LastFiring(outbox).value.firing
  {
    if outbox != [] { LastFiringIsARow(outbox[..|outbox| - 1]); }
  }

  lemma RefiredExtends(a: Alert)
    requires RowsOk(a)
    ensures Extends(a, a.(outbox := Refired(a.outbox))) && Extends(a, Reopen(a))
  {
    LastFiringIsARow(a.outbox);
    if FiresAs(a.outbox, a.severity) { LastFiringIs(a.outbox, a.severity); }
  }

  /** What resolving a condition leaves of each alert. */
  lemma ResolveConditionTouches(db: Db, c: Condition, reason: Reason, at: int)
    requires IndexOk(db)
    ensures var after := ResolveCondition(db, c, reason, at);
            && after.alerts.Keys == db.alerts.Keys
            && forall id :: id in db.alerts ==>
                 after.alerts[id] == db.alerts[id]
                 || (after.alerts[id] == Resolve(db.alerts[id], reason, at) && db.alerts[id].condition == c)
  {
  }

  lemma ResolveConditionMoves(db: Db, c: Condition, reason: Reason, at: int)
    requires IndexOk(db) && at != 0
    ensures MovesDb(db, ResolveCondition(db, c, reason, at))
  {
    ResolveConditionTouches(db, c, reason, at);
    forall id | id in db.alerts
      ensures Extends(db.alerts[id], db.alerts[id]) && Extends(db.alerts[id], Resolve(db.alerts[id], reason, at))
    {
      ResolveExtends(db.alerts[id], reason, at);
    }
  }

  lemma ResolveAllMoves(db: Db, cs: set<Condition>, reason: Reason, at: int)
    requires at != 0
    ensures MovesDb(db, ResolveAll(db, cs, reason, at))
  {
    forall id | id in db.alerts
      ensures Extends(db.alerts[id], db.alerts[id]) && Extends(db.alerts[id], Resolve(db.alerts[id], reason, at))
    {
      ResolveExtends(db.alerts[id], reason, at);
    }
  }

  lemma RecordGoodMoves(db: Db, service: int, indicator: int, at: int)
    requires IndexOk(db) && at != 0
    ensures MovesDb(db, DoRecordGood(db, service, indicator, at))
  {
    var m, c := MonitoringCondition(service, ANOMALY_ANALYSIS), AnomalyCondition(service, indicator, false);
    ResolveConditionTouches(db, m, MonitoringRecovered, at);
    ResolveConditionKeepsIndex(db, m, MonitoringRecovered, at);
    ResolveConditionTouches(Recovered(db, service, at), c, GoodChunk, at);
    forall id | id in db.alerts
      ensures Moves(db.alerts[id], DoRecordGood(db, service, indicator, at).alerts[id])
    {
      ResolveExtends(db.alerts[id], MonitoringRecovered, at);
      ResolveExtends(db.alerts[id], GoodChunk, at);
    }
  }

  lemma SaveMoves(db: Db, id: int, a: Alert)
    requires id in db.alerts && Moves(db.alerts[id], a)
    ensures MovesDb(db, Save(db, id, a))
  {
    forall x | x in db.alerts
      ensures Moves(db.alerts[x], db.alerts[x])
    {
      assert Extends(db.alerts[x], db.alerts[x]);
    }
  }

  /** The alert to count on has been found or opened. */
  ghost predicate Opens(db: Db, after: Db, id: int) {
    && id in after.alerts
    && (forall x :: x in after.alerts && x != id ==> x in db.alerts && after.alerts[x] == db.alerts[x])
    && (if id in db.alerts then after.alerts[id] == db.alerts[id] else RowsOk(after.alerts[id]))
  }

  lemma EnsureOpens(db: Db, c: Condition)
    requires Safe(db)
    ensures Opens(db, EnsureAlert(db, c, KindOf(c)), IdFor(db, c))
  {
    EnsureKeepsIndex(db, c, KindOf(c));
  }

  lemma CountingMoves(db: Db, after: Db, id: int, b: Alert, count: nat, consecutive: nat, severity: Severity,
                      escalates: bool, at: int)
    requires Opens(db, after, id) && at != 0 && count >= b.occurrenceCount
             && b == after.alerts[id].(occurrences := b.occurrences)
    ensures MovesDb(db, Save(after, id, Counted(b, count, consecutive, severity, escalates, at)))
  {
    var a := after.alerts[id];
    CountedExtends(a, b, count, consecutive, severity, escalates, at);
    if id !in db.alerts { MovesKeepsRows(a, Counted(b, count, consecutive, severity, escalates, at)); }
    assert forall x :: x in db.alerts ==> Extends(db.alerts[x], db.alerts[x]);
  }

  lemma FailureMoves(db: Db, after: Db, id: int, key: OccurrenceKey, count: nat, consecutive: nat, severity: Severity,
                     escalates: bool, at: int)
    requires Opens(db, after, id) && at != 0 && count >= after.alerts[id].occurrenceCount
    ensures MovesDb(db, Save(after, id,
                             Counted(Noted(db, after.alerts[id], key), count, consecutive, severity, escalates, at)))
  {
    CountingMoves(db, after, id, Noted(db, after.alerts[id], key), count, consecutive, severity, escalates, at);
  }

  lemma AddAnomalyMoves(db: Db, c: Condition, key: OccurrenceKey, threshold: int, at: int)
    requires Opens(db, EnsureAlert(db, c, KindOf(c)), IdFor(db, c)) && at != 0
    ensures MovesDb(db, AddAnomaly(db, c, KindOf(c), key, threshold, at))
  {
    var after, id := EnsureAlert(db, c, KindOf(c)), IdFor(db, c);
    var count := after.alerts[id].occurrenceCount + 1;
    var severity := if c !in db.firing then Warning else SeverityFor(count, threshold);
    AddedAnomaly(db, c, key, threshold, at);
    CountingMoves(db, after, id, WithOccurrence(after.alerts[id], key, db.clock), count, count, severity,
                  severity == Critical && count == threshold, at);
  }

  lemma AddCollectionFailureMoves(db: Db, c: Condition, key: OccurrenceKey, threshold: int, now: int)
    requires Opens(db, EnsureAlert(db, c, CollectionFailure), IdFor(db, c)) && now != 0
    ensures MovesDb(db, AddCollectionFailure(db, c, key, threshold, now))
  {
    var after, id := EnsureAlert(db, c, CollectionFailure), IdFor(db, c);
    var count := after.alerts[id].consecutiveCount + 1;
    var severity := SeverityFor(count, threshold);
    AddedCollectionFailure(db, c, key, threshold, now);
    FailureMoves(db, after, id, key, after.alerts[id].occurrenceCount + 1, count, severity,
                 severity == Critical && count == threshold, now);
  }

  lemma AddMonitoringFailureMoves(db: Db, c: Condition, key: OccurrenceKey, threshold: int, now: int)
    requires Opens(db, EnsureAlert(db, c, MonitoringImpaired), IdFor(db, c)) && now != 0
    ensures MovesDb(db, AddMonitoringFailure(db, c, key, threshold, now))
  {
    var after, id := EnsureAlert(db, c, MonitoringImpaired), IdFor(db, c);
    var count := after.alerts[id].occurrenceCount + 1;
    var severity := if c !in db.firing then Warning else SeverityFor(count, threshold);
    FailureMoves(db, after, id, key, count, after.alerts[id].consecutiveCount, severity, count == threshold, now);
  }

  /** The alert that an anomaly counts on is none that its recovery of analysis resolves. */
  lemma RecordAnomalyMoves(db: Db, service: int, indicator: int, timestamp: int, historical: bool, threshold: int)
    requires Safe(db) && timestamp != 0
    ensures MovesDb(db, DoRecordAnomaly(db, service, indicator, timestamp, historical, threshold))
  {
    var m, c := MonitoringCondition(service, ANOMALY_ANALYSIS), AnomalyCondition(service, indicator, historical);
    var base, key := Recovered(db, service, timestamp), ChunkKey(service, indicator, timestamp);
    ResolveConditionMoves(db, m, MonitoringRecovered, timestamp);
    if !HasOccurrence(base, key) {
      ResolveConditionTouches(db, m, MonitoringRecovered, timestamp);
      ResolveConditionKeepsSafe(db, m, MonitoringRecovered, timestamp);
      EnsureOpens(base, c);
      AddAnomalyMoves(base, c, key, threshold, timestamp);
      OnlyCounted(base, c, key, threshold, timestamp);
      MovesEither(db, base, DoRecordAnomaly(db, service, indicator, timestamp, historical, threshold), IdFor(base, c));
    }
  }

  lemma OnlyCounted(db: Db, c: Condition, key: OccurrenceKey, threshold: int, at: int)
    requires Safe(db)
    ensures var after, id := AddAnomaly(db, c, KindOf(c), key, threshold, at), IdFor(db, c);
            && (forall x :: x in after.alerts && x != id ==> x in db.alerts && after.alerts[x] == db.alerts[x])
            && (id in db.alerts ==> db.alerts[id].condition == c)
  {
    EnsureKeepsIndex(db, c, KindOf(c));
  }

  lemma MovesEither(db: Db, base: Db, after: Db, id: int)
    requires MovesDb(db, base) && MovesDb(base, after) && base.alerts.Keys == db.alerts.Keys
    requires forall x :: x in after.alerts && x != id ==> x in base.alerts && after.alerts[x] == base.alerts[x]
    requires id in db.alerts ==> base.alerts[id] == db.alerts[id]
    ensures MovesDb(db, after)
  {
  }

  lemma ReviewMoves(db: Db, id: int, k: nat, expectedRevision: int, accept: bool, now: int)
    requires RowsOkDb(db) && id in db.alerts && k < |db.alerts[id].occurrences| && now != 0
    ensures MovesDb(db, DoReview(db, id, k, expectedRevision, accept, now))
  {
    var before := db.alerts[id];
    var reviewed := Reviewed(before, k, accept);
    var a := if reviewed.firing then reviewed else reviewed.(anchor := now);
    assert RowsOk(before) && RowsOk(a);
    match ReviewOf(db, id, k, expectedRevision, accept)
    case Accepted(resolved) =>
      ResolveExtends(a, AcceptedAsNormal, now);
      SaveExtends(db, id, a, if resolved then Resolve(a, AcceptedAsNormal, now) else a);
    case Reverted(reopened) =>
      RefiredExtends(a);
      SaveExtends(db, id, a, if reopened then Reopen(a) else a);
    case _ =>
      SaveExtends(db, id, before, before);
  }

  /** Reviews leave the outbox alone, so what is done next extends the alert before them. */
  lemma SaveExtends(db: Db, id: int, a: Alert, b: Alert)
    requires id in db.alerts && (b == a || Extends(a, b)) && a.outbox == db.alerts[id].outbox
             && a.handoffs == db.alerts[id].handoffs
    requires a.condition == db.alerts[id].condition && a.kind == db.alerts[id].kind
    requires a.severity == db.alerts[id].severity && a.occurrenceCount == db.alerts[id].occurrenceCount
    ensures MovesDb(db, Save(db, id, b))
  {
    assert Extends(db.alerts[id], b);
    SaveMoves(db, id, b);
  }

  lemma DeliverMoves(db: Db, id: int, k: nat, accepted: bool, now: int)
    requires RowsOkDb(db) && id in db.alerts && k < |db.alerts[id].outbox| && now != 0
    ensures MovesDb(db, DoDeliver(db, id, k, accepted, now))
  {
    var a := db.alerts[id];
    assert RowsOk(a) && Extends(a, a);
    SaveMoves(db, id, a);
    if a.outbox[k].state == Pending {
      ResolveExtends(a, HistoricalDisabled, now);
      SaveMoves(db, id, Resolve(a, HistoricalDisabled, now));
      var missed := a.(outbox := a.outbox[k := a.outbox[k].(state := Missed)]);
      if a.outbox[k].firing {
        assert Extends(a, missed);
        SaveMoves(db, id, missed);
      }
      if !a.outbox[k].firing || a.kind != HistoricalAnomaly {
        var sent := a.(outbox := a.outbox[k := a.outbox[k].(state := Delivered)], lastHandoff := Some(now),
                       handoffs := a.handoffs + [k]);
        assert HandsOver(a, sent, k);
        SaveMoves(db, id, sent);
      }
    }
  }

  lemma UpkeepMoves(db: Db, before: int)
    requires RowsOkDb(db)
    ensures MovesDb(db, DoEnqueueRefreshes(db, before)) && MovesDb(db, DoDeleteExpired(db, before))
  {
    forall id | id in db.alerts
      ensures Extends(db.alerts[id], db.alerts[id])
      ensures Extends(db.alerts[id], db.alerts[id].(outbox := Refired(db.alerts[id].outbox)))
    {
      RefiredExtends(db.alerts[id]);
    }
  }

  lemma CountingActionMoves(db: Db, a: Action)
    requires Safe(db) && Counts(a) && Dated(a)
    ensures MovesDb(db, Transaction(db, a))
  {
    match a
    case RecordAnomaly(service, indicator, timestamp, historical, threshold) =>
      RecordAnomalyMoves(db, service, indicator, timestamp, historical, threshold);
    case RecordCollectionFailure(service, start, end, attempt, threshold, now) =>
      EnsureOpens(db, CollectionCondition(service));
      AddCollectionFailureMoves(db, CollectionCondition(service), AttemptKey(service, start, end, attempt), threshold,
                                now);
    case RecordMonitoringFailure(service, operation, at, threshold, now) =>
      EnsureOpens(db, MonitoringCondition(service, operation));
      AddMonitoringFailureMoves(db, MonitoringCondition(service, operation), FailureKey(service, operation, at),
                                threshold, now);
  }

  lemma ResolvingActionMoves(db: Db, a: Action)
    requires IndexOk(db) && Dated(a)
    requires a.RecordGood? || a.ResolveCollection? || a.ResolveMonitoring? || a.InterruptAnomalies? || a.CloseService?
    ensures MovesDb(db, Transaction(db, a))
  {
    match a
    case RecordGood(service, indicator, at) => RecordGoodMoves(db, service, indicator, at);
    case ResolveCollection(service, at) =>
      ResolveConditionMoves(db, CollectionCondition(service), CollectionRecovered, at);
    case ResolveMonitoring(service, operation, at) =>
      ResolveConditionMoves(db, MonitoringCondition(service, operation), MonitoringRecovered, at);
    case InterruptAnomalies(service, at) =>
      ResolveAllMoves(db, (set c | c in db.firing && c.service == service && c.AnomalyCondition? && !c.historical),
                      MonitoringInterrupted, at);
    case CloseService(service, paused, at) =>
      ResolveAllMoves(db, (set c | c in db.firing && c.service == service),
                      if paused then MonitoringPaused else ServiceRemoved, at);
  }

  lemma StaysPut(db: Db)
    ensures MovesDb(db, db)
  {
    assert forall id :: id in db.alerts ==> Extends(db.alerts[id], db.alerts[id]);
  }

  lemma NextMoves(db: Db, a: Action)
    requires Safe(db) && RowsOkDb(db) && Dated(a)
    ensures MovesDb(db, Next(db, a))
  {
    StaysPut(db);
    match a
    case Review(id, k, expectedRevision, accept, now) =>
      if id in db.alerts && 0 <= k < |db.alerts[id].occurrences| {
        ReviewMoves(db, id, k, expectedRevision, accept, now);
      }
    case Deliver(id, k, accepted, now) =>
      if id in db.alerts && 0 <= k < |db.alerts[id].outbox| { DeliverMoves(db, id, k, accepted, now); }
    case EnqueueRefreshes(before) => UpkeepMoves(db, before);
    case DeleteExpired(before) => UpkeepMoves(db, before);
    case _ =>
      if Counts(a) { CountingActionMoves(db, a); } else { ResolvingActionMoves(db, a); }
  }

  lemma NextKeepsRows(db: Db, a: Action)
    requires Safe(db) && RowsOkDb(db) && Dated(a)
    ensures RowsOkDb(Next(db, a))
  {
    NextMoves(db, a);
    forall id | id in Next(db, a).alerts
      ensures RowsOk(Next(db, a).alerts[id])
    {
      if id in db.alerts { MovesKeepsRows(db.alerts[id], Next(db, a).alerts[id]); }
    }
  }

  // ---------------------------------------------------------------- runs

  ghost predicate AllDated(actions: seq<Action>) {
    forall a :: a in actions ==> Dated(a)
  }

  /** The thresholds are settled and the instants are dated. */
  ghost predicate Usual(actions: seq<Action>, t: Thresholds) {
    forall a :: a in actions ==> Follows(a, t) && Dated(a)
  }

  ghost predicate Kept(db: Db) {
    Safe(db) && FiresDb(db) && RowsOkDb(db)
  }

  lemma NextIsKept(db: Db, a: Action)
    requires Kept(db) && Dated(a)
    ensures Kept(Next(db, a))
  {
    NextKeepsSafe(db, a);
    TransactionKeepsFires(db, a);
    NextKeepsRows(db, a);
  }

  lemma {:induction false} RunIsKept(db: Db, actions: seq<Action>)
    requires Kept(db) && AllDated(actions)
    ensures Kept(RunFrom(db, actions))
  {
    if actions != [] {
      var rest, a := actions[..|actions| - 1], actions[|actions| - 1];
      assert actions == rest + [a];
      RunIsKept(db, rest);
      NextIsKept(RunFrom(db, rest), a);
    }
  }

  lemma AfterIsKept(actions: seq<Action>)
    requires AllDated(actions)
    ensures Kept(After(actions))
  {
    AfterIsRun(actions);
    RunIsKept(EMPTY_DB, actions);
  }

  lemma {:induction false} AfterIsRun(actions: seq<Action>)
    ensures RunFrom(EMPTY_DB, actions) == After(actions)
  {
    if actions != [] { AfterIsRun(actions[..|actions| - 1]); }
  }

  lemma {:induction false} RunOfConcat(db: Db, first: seq<Action>, second: seq<Action>)
    ensures RunFrom(db, first + second) == RunFrom(RunFrom(db, first), second)
  {
    if second == [] {
      assert first + second == first;
    } else {
      assert (first + second)[..|first + second| - 1] == first + second[..|second| - 1];
      RunOfConcat(db, first, second[..|second| - 1]);
    }
  }

  // ---------------------------------------------------------------- what stays withdrawn

  /** The alert is critical, and its next occurrence will leave it so. */
  predicate StaysCritical(a: Alert, t: Thresholds) {
    a.severity == Critical && ThresholdFor(a.condition, t) <= a.occurrenceCount + 1
  }

  /** No warning can be left with the receiver: it gets none of a historical anomaly. */
  ghost predicate Withdrawn(a: Alert) {
    a.kind == HistoricalAnomaly || Clear(a.outbox, a.handoffs)
  }

  lemma CriticalStays(db: Db, a: Action, id: int, t: Thresholds)
    requires Kept(db) && Follows(a, t) && id in db.alerts && id in Next(db, a).alerts && StaysCritical(db.alerts[id], t)
    ensures StaysCritical(Next(db, a).alerts[id], t)
  {
    TransactionSeverity(db, a, id);
  }

  lemma WithdrawnStays(db: Db, a: Action, id: int, t: Thresholds)
    requires Kept(db) && Follows(a, t) && Dated(a) && id in db.alerts && id in Next(db, a).alerts
    requires StaysCritical(db.alerts[id], t) && Withdrawn(db.alerts[id])
    ensures StaysCritical(Next(db, a).alerts[id], t) && Withdrawn(Next(db, a).alerts[id])
  {
    CriticalStays(db, a, id, t);
    NextMoves(db, a);
    var x, y := db.alerts[id], Next(db, a).alerts[id];
    assert RowsOk(x) && FiresAs(x.outbox, x.severity) && Moves(x, y);
    if x.kind != HistoricalAnomaly {
      if Extends(x, y) {
        ExtendsKeepsClear(x, y);
      } else {
        var k :| HandsOver(x, y, k);
        HandsOverKeepsClear(x, y, k);
      }
    }
  }

  ghost predicate GoneOrWithdrawn(db: Db, id: int, t: Thresholds) {
    id < db.nextId && (id in db.alerts ==> StaysCritical(db.alerts[id], t) && Withdrawn(db.alerts[id]))
  }

  lemma {:induction false} RunStaysWithdrawn(db: Db, actions: seq<Action>, id: int, t: Thresholds)
    requires Kept(db) && Usual(actions, t) && GoneOrWithdrawn(db, id, t)
    ensures GoneOrWithdrawn(RunFrom(db, actions), id, t)
  {
    if actions != [] {
      var rest, a := actions[..|actions| - 1], actions[|actions| - 1];
      assert actions == rest + [a];
      RunStaysWithdrawn(db, rest, id, t);
      RunIsKept(db, rest);
      var before := RunFrom(db, rest);
      IdsAreNew(before, a);
      if id in before.alerts && id in Next(before, a).alerts { WithdrawnStays(before, a, id, t); }
    }
  }

  lemma WithdrawnIsNotStuck(db: Db, id: int)
    requires RowsOkDb(db) && id in db.alerts && Withdrawn(db.alerts[id])
    ensures !Stuck(db, id)
  {
    var a := db.alerts[id];
    if Shows(a.outbox, a.handoffs, Warning) {
      assert RowsOk(a);
      ShowsIsDelivered(a.outbox, a.handoffs, Warning);
      var n :| n in a.outbox && IsDelivered(n, Warning);
      var d :| 0 <= d < |a.outbox| && a.outbox[d] == n;
      var i :| 0 <= i < |a.outbox| && Retracts(a.outbox[i], Warning);
      assert a.outbox[i] in a.outbox;
    }
  }

  // ---------------------------------------------------------------- handing off row after row

  /** Deliveries of one alert, whatever the receiver answers. */
  ghost predicate DeliveriesOf(actions: seq<Action>, id: int) {
    forall a :: a in actions ==> a.Deliver? && a.alert == id && a.now != 0
  }

  lemma DeliveriesAreUsual(actions: seq<Action>, id: int, t: Thresholds)
    requires DeliveriesOf(actions, id)
    ensures Usual(actions, t)
  {
  }

  /** Hands off the rows before n that fire, or those that resolve, one after the other. */
  function Sends(id: int, outbox: seq<Notice>, firing: bool, n: nat): seq<Action>
    requires n <= |outbox|
  {
    if n == 0 then []
    else Sends(id, outbox, firing, n - 1) + if outbox[n - 1].firing == firing then [Deliver(id, n - 1, true, 1)] else []
  }

  function SentIf(n: Notice, sent: bool): Notice {
    if sent && n.state == Pending then n.(state := Delivered) else n
  }

  ghost predicate SentUpTo(a: Alert, b: Alert, firing: bool, n: nat) {
    && b.firing && b.kind == a.kind && |b.outbox| == |a.outbox|
    && forall i :: 0 <= i < |a.outbox| ==> b.outbox[i] == SentIf(a.outbox[i], i < n && a.outbox[i].firing == firing)
  }

  lemma SendsAreDeliveries(id: int, outbox: seq<Notice>, firing: bool, n: nat)
    requires n <= |outbox|
    ensures DeliveriesOf(Sends(id, outbox, firing, n), id)
  {
  }

  lemma SendOne(db: Db, id: int, k: nat)
    requires id in db.alerts && db.alerts[id].firing && db.alerts[id].kind != HistoricalAnomaly
             && k < |db.alerts[id].outbox|
    ensures var a, after := db.alerts[id], Next(db, Deliver(id, k, true, 1)).alerts;
            && id in after && after[id].firing && after[id].kind == a.kind
            && after[id].outbox == a.outbox[k := SentIf(a.outbox[k], true)]
            && after[id].handoffs == a.handoffs + if a.outbox[k].state == Pending then [k] else []
  {
  }

  /** What handing off the rows before n leaves; a severity that was among them shows as they do. */
  ghost predicate SentAll(a: Alert, b: Alert, firing: bool, n: nat, s: Severity)
    requires n <= |a.outbox|
  {
    && SentUpTo(a, b, firing, n) && SentFrom(b.outbox, b.handoffs)
    && ((exists p :: 0 <= p < n && Waits(a.outbox[p], firing, s)) ==> (Shows(b.outbox, b.handoffs, s) <==> firing))
  }

  predicate Waits(n: Notice, firing: bool, s: Severity) {
    n.firing == firing && n.severity == s && n.state == Pending
  }

  lemma SentStillShows(b: Alert, c: Alert, k: nat, firing: bool, s: Severity)
    requires k < |b.outbox| && b.outbox[k].firing == firing && SentFrom(b.outbox, b.handoffs)
    requires c.outbox == b.outbox[k := SentIf(b.outbox[k], true)]
    requires c.handoffs == b.handoffs + if b.outbox[k].state == Pending then [k] else []
    ensures SentFrom(c.outbox, c.handoffs)
    ensures Waits(b.outbox[k], firing, s) || (Shows(b.outbox, b.handoffs, s) <==> firing) ==>
              (Shows(c.outbox, c.handoffs, s) <==> firing)
  {
    ShowsSame(b.outbox, c.outbox, b.handoffs, s);
    assert c.handoffs == b.handoffs || c.handoffs[..|b.handoffs|] == b.handoffs;
  }

  lemma SentOneMore(a: Alert, b: Alert, c: Alert, firing: bool, k: nat, s: Severity)
    requires k < |a.outbox| && SentAll(a, b, firing, k, s) && a.outbox[k].firing == firing
    requires c.firing && c.kind == b.kind && c.outbox == b.outbox[k := SentIf(b.outbox[k], true)]
    requires c.handoffs == b.handoffs + if b.outbox[k].state == Pending then [k] else []
    ensures SentAll(a, c, firing, k + 1, s)
  {
    SentStillShows(b, c, k, firing, s);
  }

  lemma RunOneMore(db: Db, actions: seq<Action>, a: Action)
    ensures RunFrom(db, actions + [a]) == Next(RunFrom(db, actions), a)
  {
    assert (actions + [a])[..|actions|] == actions;
  }

  lemma SkipNext(a: Alert, b: Alert, firing: bool, k: nat, s: Severity)
    requires k < |a.outbox| && a.outbox[k].firing != firing && SentAll(a, b, firing, k, s)
    ensures SentAll(a, b, firing, k + 1, s)
  {
  }

  lemma SendNone(a: Alert, firing: bool, s: Severity)
    requires a.firing && SentFrom(a.outbox, a.handoffs)
    ensures SentAll(a, a, firing, 0, s)
  {
  }

  function SendRow(db: Db, id: int, n: Notice, firing: bool, k: nat): Db {
    if n.firing == firing then Next(db, Deliver(id, k, true, 1)) else db
  }

  function SendRows(db: Db, id: int, outbox: seq<Notice>, firing: bool, n: nat): Db
    requires n <= |outbox|
  {
    if n == 0 then db else SendRow(SendRows(db, id, outbox, firing, n - 1), id, outbox[n - 1], firing, n - 1)
  }

  lemma {:induction false} SendsAreRows(db: Db, id: int, outbox: seq<Notice>, firing: bool, n: nat)
    requires n <= |outbox|
    ensures RunFrom(db, Sends(id, outbox, firing, n)) == SendRows(db, id, outbox, firing, n)
  {
    if n > 0 {
      var rest := Sends(id, outbox, firing, n - 1);
      SendsAreRows(db, id, outbox, firing, n - 1);
      RunOneMore(db, rest, Deliver(id, n - 1, true, 1));
      assert rest + [] == rest;
    }
  }

  lemma SendStep(db: Db, id: int, a: Alert, firing: bool, k: nat, s: Severity)
    requires k < |a.outbox| && a.kind != HistoricalAnomaly && id in db.alerts && SentAll(a, db.alerts[id], firing, k, s)
    ensures var after := SendRow(db, id, a.outbox[k], firing, k).alerts;
            id in after && SentAll(a, after[id], firing, k + 1, s)
  {
    if a.outbox[k].firing == firing {
      SendOne(db, id, k);
      SentOneMore(a, db.alerts[id], Next(db, Deliver(id, k, true, 1)).alerts[id], firing, k, s);
    } else {
      SkipNext(a, db.alerts[id], firing, k, s);
    }
  }

  lemma {:induction false} SendAll(db: Db, id: int, a: Alert, firing: bool, n: nat, s: Severity)
    requires id in db.alerts && a == db.alerts[id] && a.firing && a.kind != HistoricalAnomaly && n <= |a.outbox|
    requires SentFrom(a.outbox, a.handoffs)
    ensures var after := SendRows(db, id, a.outbox, firing, n).alerts;
            id in after && SentAll(a, after[id], firing, n, s)
  {
    if n == 0 {
      SendNone(a, firing, s);
    } else {
      SendAll(db, id, a, firing, n - 1, s);
      SendStep(SendRows(db, id, a.outbox, firing, n - 1), id, a, firing, n - 1, s);
    }
  }

  ghost predicate Drained(a: Alert) {
    forall i :: 0 <= i < |a.outbox| ==> a.outbox[i].state != Pending
  }

  /** All rows can be handed off so that those of one kind come last; what they say is then shown. */
  lemma LastOnesShow(db: Db, id: int, firing: bool, s: Severity) returns (later: seq<Action>)
    requires id in db.alerts && db.alerts[id].firing && RowsOk(db.alerts[id]) && db.alerts[id].kind != HistoricalAnomaly
    requires exists p :: 0 <= p < |db.alerts[id].outbox| && Waits(db.alerts[id].outbox[p], firing, s)
    ensures DeliveriesOf(later, id) && id in RunFrom(db, later).alerts
    ensures var c := RunFrom(db, later).alerts[id]; Drained(c) && (Shows(c.outbox, c.handoffs, s) <==> firing)
  {
    var a := db.alerts[id];
    var n := |a.outbox|;
    var first := Sends(id, a.outbox, !firing, n);
    SendAll(db, id, a, !firing, n, s);
    SendsAreRows(db, id, a.outbox, !firing, n);
    SendsAreDeliveries(id, a.outbox, !firing, n);
    var middle := RunFrom(db, first);
    var b := middle.alerts[id];
    var p :| 0 <= p < n && Waits(a.outbox[p], firing, s);
    assert Waits(b.outbox[p], firing, s);
    var second := Sends(id, b.outbox, firing, n);
    SendAll(middle, id, b, firing, n, s);
    SendsAreRows(middle, id, b.outbox, firing, n);
    SendsAreDeliveries(id, b.outbox, firing, n);
    RunOfConcat(db, first, second);
    later := first + second;
  }

  // ---------------------------------------------------------------- warnings of critical alerts

  lemma GetsStuck(db: Db, id: int, t: Thresholds) returns (later: seq<Action>)
    requires Kept(db) && id in db.alerts && !Withdrawn(db.alerts[id])
    ensures Usual(later, t) && Stuck(RunFrom(db, later), id)
  {
    var a := db.alerts[id];
    assert RowsOk(a) && AlertOk(a);
    if p :| 0 <= p < |a.outbox| && Announces(a.outbox[p], Warning) {
      assert Waits(a.outbox[p], true, Warning);
      later := LastOnesShow(db, id, true, Warning);
      DeliveriesAreUsual(later, id, t);
    } else {
      later := [];
      assert forall i :: 0 <= i < |a.outbox| ==> !Announces(a.outbox[i], Warning) && !Retracts(a.outbox[i], Warning);
    }
  }

  /** From any state that a run can reach, under whatever settings: with a threshold settled from now on
      that keeps the alert critical, the receiver never ends up with a warning of it exactly if no warning
      is waiting and one that is shown has its withdrawal queued. */
  lemma NeverStuckExactly(db: Db, id: int, t: Thresholds)
    requires Kept(db) && id in db.alerts && StaysCritical(db.alerts[id], t)
    ensures (forall later :: Usual(later, t) ==> !Stuck(RunFrom(db, later), id)) <==> Withdrawn(db.alerts[id])
  {
    if Withdrawn(db.alerts[id]) {
      forall later | Usual(later, t)
        ensures !Stuck(RunFrom(db, later), id)
      {
        RunStaysWithdrawn(db, later, id, t);
        RunIsKept(db, later);
        if id in RunFrom(db, later).alerts { WithdrawnIsNotStuck(RunFrom(db, later), id); }
      }
    } else {
      var later := GetsStuck(db, id, t);
    }
  }

  // ---------------------------------------------------------------- the escalation

  function OutboxOf(db: Db, id: int): seq<Notice> {
    if id in db.alerts then db.alerts[id].outbox else []
  }

  function HandoffsOf(db: Db, id: int): seq<int> {
    if id in db.alerts then db.alerts[id].handoffs else []
  }

  ghost predicate BecomesCritical(db: Db, after: Db, id: int) {
    && id in after.alerts && after.alerts[id].severity == Critical
    && (id in db.alerts ==> db.alerts[id].severity == Warning)
  }

  /** The warnings are retired if the count equals the threshold, and a critical row is queued. */
  ghost predicate Escalates(db: Db, id: int, a: Alert, threshold: int, at: int) {
    && a.handoffs == HandoffsOf(db, id) && at != 0
    && a.outbox == (if a.occurrenceCount == threshold then RetireWarning(OutboxOf(db, id), at) else OutboxOf(db, id))
                   + [Notice(true, Critical, 0, Pending)]
  }

  lemma AnomalyEscalates(db: Db, c: Condition, key: OccurrenceKey, threshold: int, at: int, id: int)
    requires IndexOk(db) && at != 0 && BecomesCritical(db, AddAnomaly(db, c, KindOf(c), key, threshold, at), id)
    ensures Escalates(db, id, AddAnomaly(db, c, KindOf(c), key, threshold, at).alerts[id], threshold, at)
  {
    EnsureKeepsIndex(db, c, KindOf(c));
  }

  lemma CollectionEscalates(db: Db, c: Condition, key: OccurrenceKey, threshold: int, now: int, id: int)
    requires Safe(db) && c.CollectionCondition? && now != 0
    requires BecomesCritical(db, AddCollectionFailure(db, c, key, threshold, now), id)
    ensures Escalates(db, id, AddCollectionFailure(db, c, key, threshold, now).alerts[id], threshold, now)
  {
    assert RetireWarning([], now) == [];
    EnsureKeepsIndex(db, c, CollectionFailure);
    ConsecutiveIsCount(db, c);
  }

  lemma MonitoringEscalates(db: Db, c: Condition, key: OccurrenceKey, threshold: int, now: int, id: int)
    requires IndexOk(db) && now != 0 && BecomesCritical(db, AddMonitoringFailure(db, c, key, threshold, now), id)
    ensures Escalates(db, id, AddMonitoringFailure(db, c, key, threshold, now).alerts[id], threshold, now)
  {
    EnsureKeepsIndex(db, c, MonitoringImpaired);
  }

  /** The recovery of analysis changes no severity and no alert that an anomaly counts on. */
  lemma BaseOf(db: Db, service: int, indicator: int, at: int)
    requires IndexOk(db)
    ensures var base := Recovered(db, service, at);
            && IndexOk(base) && base.alerts.Keys == db.alerts.Keys
            && forall id :: id in db.alerts ==>
                 && base.alerts[id].severity == db.alerts[id].severity
                 && base.alerts[id].condition == db.alerts[id].condition
                 && (db.alerts[id].condition.AnomalyCondition? ==> base.alerts[id] == db.alerts[id])
  {
    ResolveConditionTouches(db, MonitoringCondition(service, ANOMALY_ANALYSIS), MonitoringRecovered, at);
    ResolveConditionKeepsIndex(db, MonitoringCondition(service, ANOMALY_ANALYSIS), MonitoringRecovered, at);
  }

  lemma RecordAnomalyEscalates(db: Db, service: int, indicator: int, timestamp: int, historical: bool, threshold: int,
                               id: int)
    requires Safe(db) && timestamp != 0
    requires BecomesCritical(db, DoRecordAnomaly(db, service, indicator, timestamp, historical, threshold), id)
    ensures Escalates(db, id, DoRecordAnomaly(db, service, indicator, timestamp, historical, threshold).alerts[id],
                      threshold, timestamp)
  {
    var c := AnomalyCondition(service, indicator, historical);
    var base, key := Recovered(db, service, timestamp), ChunkKey(service, indicator, timestamp);
    BaseOf(db, service, indicator, timestamp);
    assert !HasOccurrence(base, key);
    ResolveConditionKeepsSafe(db, MonitoringCondition(service, ANOMALY_ANALYSIS), MonitoringRecovered, timestamp);
    OnlyCounted(base, c, key, threshold, timestamp);
    assert id == IdFor(base, c);
    AnomalyEscalates(base, c, key, threshold, timestamp, id);
  }

  lemma EscalationQueues(db: Db, a: Action, id: int) returns (at: int)
    requires Safe(db) && Dated(a) && BecomesCritical(db, Next(db, a), id)
    ensures Counts(a) && Escalates(db, id, Next(db, a).alerts[id], a.threshold, at)
  {
    match a
    case RecordAnomaly(service, indicator, timestamp, historical, threshold) =>
      at := timestamp;
      RecordAnomalyEscalates(db, service, indicator, timestamp, historical, threshold, id);
    case RecordCollectionFailure(service, start, end, attempt, threshold, now) =>
      at := now;
      CollectionEscalates(db, CollectionCondition(service), AttemptKey(service, start, end, attempt), threshold, now,
                          id);
    case RecordMonitoringFailure(service, operation, failed, threshold, now) =>
      at := now;
      MonitoringEscalates(db, MonitoringCondition(service, operation), FailureKey(service, operation, failed),
                          threshold, now, id);
    case _ =>
      at := 0;
      OthersAreQuiet(db, a);
      assert false;
  }

  /** Retiring a delivered warning queues its withdrawal; retiring pending ones gives them up. */
  lemma RetiredIsClear(before: seq<Notice>, handoffs: seq<int>, at: int)
    requires SentFrom(before, handoffs)
    ensures Clear(RetireWarning(before, at) + [Notice(true, Critical, 0, Pending)], handoffs) <==> !Crowded(before)
  {
    var after := RetireWarning(before, at) + [Notice(true, Critical, 0, Pending)];
    ShowsSame(before, after, handoffs, Warning);
    if Crowded(before) {
      var n :| n in before && Announces(n, Warning);
      var p :| 0 <= p < |before| && before[p] == n;
      assert Announces(after[p], Warning);
    } else {
      forall i | 0 <= i < |after|
        ensures !Announces(after[i], Warning)
      {
        if i < |before| { assert before[i] in before; }
      }
      if Shows(after, handoffs, Warning) {
        ShowsIsDelivered(before, handoffs, Warning);
        assert Retracts(after[|before|], Warning);
      }
    }
  }

  lemma QueuedIsClear(before: seq<Notice>, handoffs: seq<int>)
    requires SentFrom(before, handoffs)
    ensures Clear(before + [Notice(true, Critical, 0, Pending)], handoffs) <==> Clear(before, handoffs)
  {
    var after := before + [Notice(true, Critical, 0, Pending)];
    ShowsSame(before, after, handoffs, Warning);
    assert forall i :: 0 <= i < |before| ==> after[i] == before[i];
    if exists i :: 0 <= i < |before| && Retracts(before[i], Warning) {
      var i :| 0 <= i < |before| && Retracts(before[i], Warning);
      assert Retracts(after[i], Warning);
    }
  }

  /** What an escalation must find: where it retires, no warning waiting beside one handed off; where the
      count passes the threshold by, nothing that would need retiring. */
  ghost predicate EscalatesCleanly(db: Db, a: Alert, id: int, threshold: int) {
    || a.kind == HistoricalAnomaly
    || (if a.occurrenceCount == threshold then !Crowded(OutboxOf(db, id))
          else Clear(OutboxOf(db, id), HandoffsOf(db, id)))
  }

  lemma EscalationIsWithdrawn(db: Db, a: Alert, id: int, threshold: int, at: int)
    requires RowsOkDb(db) && Escalates(db, id, a, threshold, at)
    ensures Withdrawn(a) <==> EscalatesCleanly(db, a, id, threshold)
  {
    var before, handoffs := OutboxOf(db, id), HandoffsOf(db, id);
    assert SentFrom(before, handoffs) by { if id in db.alerts { assert RowsOk(db.alerts[id]); } }
    RetiredIsClear(before, handoffs, at);
    QueuedIsClear(before, handoffs);
  }

  /** For an anomaly, a collection failure or an impairment that makes its alert critical, after a run under
      any settings: with the threshold settled from then on, at most one above the count, the receiver never
      ends up with a warning of the alert exactly if the escalation found the outbox clean. */
  lemma WarningsEndWithdrawnExactly(actions: seq<Action>, a: Action, id: int, t: Thresholds)
    requires AllDated(actions) && Dated(a) && BecomesCritical(After(actions), Next(After(actions), a), id)
    requires StaysCritical(Next(After(actions), a).alerts[id], t)
    ensures Counts(a)
    ensures (forall later :: Usual(later, t) ==> !Stuck(RunFrom(Next(After(actions), a), later), id)) <==>
            EscalatesCleanly(After(actions), Next(After(actions), a).alerts[id], id, a.threshold)
  {
    var db := After(actions);
    AfterIsKept(actions);
    NextIsKept(db, a);
    var at := EscalationQueues(db, a, id);
    EscalationIsWithdrawn(db, Next(db, a).alerts[id], id, a.threshold, at);
    NeverStuckExactly(Next(db, a), id, t);
  }

  // ---------------------------------------------------------------- alerts that are not shown

  /** All rows are settled, and the receiver does not show the severity. */
  ghost predicate EndsDark(db: Db, id: int, s: Severity) {
    id in db.alerts && Drained(db.alerts[id]) && !Shows(db.alerts[id].outbox, db.alerts[id].handoffs, s)
  }

  /** The severity is shown or about to be. */
  ghost predicate InView(a: Alert, s: Severity) {
    Shows(a.outbox, a.handoffs, s) || exists i :: 0 <= i < |a.outbox| && Announces(a.outbox[i], s)
  }

  ghost predicate Unretracted(outbox: seq<Notice>, s: Severity) {
    forall i :: 0 <= i < |outbox| ==> !Retracts(outbox[i], s)
  }

  /** A firing alert whose rows can be handed off. */
  ghost predicate Sendable(db: Db, id: int) {
    id in db.alerts && db.alerts[id].firing && db.alerts[id].kind != HistoricalAnomaly && RowsOk(db.alerts[id])
  }

  /** One delivery hands off its row, or changes nothing. */
  lemma DeliveryHandsOff(db: Db, a: Action, id: int)
    requires Sendable(db, id) && a.Deliver? && a.alert == id
    ensures id in Next(db, a).alerts
    ensures var x, y := db.alerts[id], Next(db, a).alerts[id];
            && y.firing && y.kind == x.kind
            && ((y.outbox == x.outbox && y.handoffs == x.handoffs)
                || (0 <= a.row < |x.outbox| && x.outbox[a.row].state == Pending
                    && y.outbox == x.outbox[a.row := x.outbox[a.row].(state := Delivered)]
                    && y.handoffs == x.handoffs + [a.row]))
  {
  }

  lemma HandoffKeepsView(a: Alert, b: Alert, k: nat, s: Severity)
    requires RowsOk(a) && k < |a.outbox| && a.outbox[k].state == Pending && InView(a, s) && Unretracted(a.outbox, s)
    requires b.outbox == a.outbox[k := a.outbox[k].(state := Delivered)] && b.handoffs == a.handoffs + [k]
    ensures InView(b, s) && Unretracted(b.outbox, s) && SentFrom(b.outbox, b.handoffs)
  {
    ShowsSame(a.outbox, b.outbox, a.handoffs, s);
    assert b.handoffs[..|a.handoffs|] == a.handoffs;
    if a.outbox[k].severity != s && !Shows(a.outbox, a.handoffs, s) {
      var i :| 0 <= i < |a.outbox| && Announces(a.outbox[i], s);
      assert Announces(b.outbox[i], s);
    }
  }

  lemma DeliveryKeepsView(db: Db, a: Action, id: int, s: Severity)
    requires Sendable(db, id) && a.Deliver? && a.alert == id
    requires InView(db.alerts[id], s) && Unretracted(db.alerts[id].outbox, s)
    ensures Sendable(Next(db, a), id) && InView(Next(db, a).alerts[id], s)
            && Unretracted(Next(db, a).alerts[id].outbox, s)
  {
    DeliveryHandsOff(db, a, id);
    var x, y := db.alerts[id], Next(db, a).alerts[id];
    if y.outbox != x.outbox { HandoffKeepsView(x, y, a.row, s); }
  }

  lemma {:induction false} DeliveriesKeepView(db: Db, later: seq<Action>, id: int, s: Severity)
    requires Sendable(db, id) && DeliveriesOf(later, id) && InView(db.alerts[id], s)
             && Unretracted(db.alerts[id].outbox, s)
    ensures var after := RunFrom(db, later);
            Sendable(after, id) && InView(after.alerts[id], s) && Unretracted(after.alerts[id].outbox, s)
  {
    if later != [] {
      var rest, a := later[..|later| - 1], later[|later| - 1];
      assert later == rest + [a];
      DeliveriesKeepView(db, rest, id, s);
      DeliveryKeepsView(RunFrom(db, rest), a, id, s);
    }
  }

  /** Once a severity is shown or waiting to be, it is shown after every sequence of deliveries that leaves
      nothing pending, exactly if no resolution of it is pending. */
  lemma EndsInViewExactly(db: Db, id: int, s: Severity)
    requires Sendable(db, id) && InView(db.alerts[id], s)
    ensures (forall later :: DeliveriesOf(later, id) ==> !EndsDark(RunFrom(db, later), id, s)) <==>
            Unretracted(db.alerts[id].outbox, s)
  {
    if p :| 0 <= p < |db.alerts[id].outbox| && Retracts(db.alerts[id].outbox[p], s) {
      assert Waits(db.alerts[id].outbox[p], false, s);
      var later := LastOnesShow(db, id, false, s);
      assert EndsDark(RunFrom(db, later), id, s);
    } else {
      forall later | DeliveriesOf(later, id)
        ensures !EndsDark(RunFrom(db, later), id, s)
      {
        DeliveriesKeepView(db, later, id, s);
      }
    }
  }

  lemma RefiredRow(a: Alert)
    requires FiresAs(a.outbox, a.severity) && RowsOk(a)
    ensures Refired(a.outbox) == a.outbox + [Notice(true, a.severity, 0, Pending)] && LastFiring(a.outbox).Some?
  {
    LastFiringIs(a.outbox, a.severity);
    LastFiringIsARow(a.outbox);
  }

  /** After any run: whatever deliveries follow the reopening of an alert, they end with it shown exactly if
      no resolution of its severity was still waiting when it was reopened. */
  lemma ReopenedEndsInViewExactly(actions: seq<Action>, id: int, k: nat, revision: int, now: int)
    requires AllDated(actions) && now != 0 && Reviewable(After(actions), id, k)
    requires ReviewOf(After(actions), id, k, revision, false) == Reverted(true)
    requires After(actions).alerts[id].kind != HistoricalAnomaly
    ensures var db, after := After(actions), Next(After(actions), Review(id, k, revision, false, now));
            var s := db.alerts[id].severity;
            (forall later :: DeliveriesOf(later, id) ==> !EndsDark(RunFrom(after, later), id, s)) <==>
            Unretracted(db.alerts[id].outbox, s)
  {
    var db, a := After(actions), Review(id, k, revision, false, now);
    AfterIsKept(actions);
    NextIsKept(db, a);
    var x, y := db.alerts[id], Next(db, a).alerts[id];
    assert RowsOk(x) && RowsOk(y) && FiresAs(x.outbox, x.severity);
    RefiredRow(x);
    assert y.firing && y.outbox == Refired(x.outbox) && y.handoffs == x.handoffs && y.kind == x.kind;
    assert Announces(y.outbox[|x.outbox|], x.severity);
    assert Unretracted(x.outbox, x.severity) <==> Unretracted(y.outbox, x.severity) by {
      assert forall i :: 0 <= i < |x.outbox| ==> y.outbox[i] == x.outbox[i];
    }
    EndsInViewExactly(Next(db, a), id, x.severity);
  }

  lemma RefreshThenDelivery(db: Db, id: int, a: Alert, before: int, now: int)
    requires id in db.alerts && a == db.alerts[id] && RowsOk(a) && FiresAs(a.outbox, a.severity)
    requires a.firing && a.kind != HistoricalAnomaly && Drained(a)
    requires a.lastHandoff.None? || a.lastHandoff.value < before
    ensures var b := Next(Next(db, EnqueueRefreshes(before)), Deliver(id, |a.outbox|, true, now)).alerts;
            id in b && Shows(b[id].outbox, b[id].handoffs, a.severity)
  {
    RefiredRow(a);
    assert NeedsRefresh(a, before);
    var queued := Next(db, EnqueueRefreshes(before));
    assert queued.alerts[id] == a.(outbox := Refired(a.outbox));
    var sent := Next(queued, Deliver(id, |a.outbox|, true, now)).alerts[id];
    assert sent.handoffs == a.handoffs + [|a.outbox|] && sent.outbox[|a.outbox|].firing;
  }

  /** The next refresh puts it right: once the last hand-off is old enough the alert is queued again, and
      when that row is accepted the receiver shows it with its severity. */
  lemma RefreshShowsAgain(actions: seq<Action>, id: int, before: int, now: int)
    requires AllDated(actions) && id in After(actions).alerts && now != 0
    requires var a := After(actions).alerts[id];
             && a.firing && a.kind != HistoricalAnomaly && Drained(a)
             && (a.lastHandoff.None? || a.lastHandoff.value < before)
    ensures var a := After(actions).alerts[id];
            var b := Next(Next(After(actions), EnqueueRefreshes(before)), Deliver(id, |a.outbox|, true, now)).alerts;
            id in b && Shows(b[id].outbox, b[id].handoffs, a.severity)
  {
    AfterIsKept(actions);
    RefreshThenDelivery(After(actions), id, After(actions).alerts[id], before, now);
  }
}
