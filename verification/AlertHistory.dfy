/** Escalation, and what lies between two occurrences of an alert, over whole runs. */
module AlertHistory {
  import opened Options
  import opened AlertModel
  import opened AlertInvariants

  // ---------------------------------------------------------------- steps that count nothing

  /** `later` adds rows, firing ones only with severity `s`, and settles pending ones. */
  ghost predicate Calm(outbox: seq<Notice>, later: seq<Notice>, s: Severity) {
    && |outbox| <= |later|
    && (forall i :: 0 <= i < |outbox| ==>
          && later[i].firing == outbox[i].firing && later[i].severity == outbox[i].severity
          && (later[i].state == outbox[i].state || outbox[i].state == Pending))
    && (forall i :: |outbox| <= i < |later| && later[i].firing ==> later[i].severity == s)
  }

  /** The alert may change state, reviews and outbox, but counts no further occurrence. */
  ghost predicate Quiet(a: Alert, b: Alert) {
    && b.condition == a.condition && b.severity == a.severity
    && b.occurrenceCount == a.occurrenceCount && b.consecutiveCount == a.consecutiveCount
    && |b.occurrences| == |a.occurrences|
    && (forall i :: 0 <= i < |a.occurrences| ==> b.occurrences[i].seen == a.occurrences[i].seen)
    && (a.reopened ==> b.reopened) && (b.firing ==> a.firing || b.reopened)
    && (FiresAs(a.outbox, a.severity) ==> Calm(a.outbox, b.outbox, a.severity))
  }

  ghost predicate QuietDb(db: Db, after: Db) {
    forall id :: id in after.alerts ==> id in db.alerts && Quiet(db.alerts[id], after.alerts[id])
  }

  /** The latest firing row carries the severity of the alert. */
  ghost predicate FiresAs(outbox: seq<Notice>, s: Severity) {
    exists i :: 0 <= i < |outbox| && outbox[i].firing && outbox[i].severity == s
                && forall j :: i < j < |outbox| && outbox[j].firing ==> outbox[j].severity == s
  }

  lemma {:induction false} LastFiringIs(outbox: seq<Notice>, s: Severity)
    requires FiresAs(outbox, s)
    ensures LastFiring(outbox).Some? && LastFiring(outbox).value.firing && LastFiring(outbox).value.severity == s
  {
    var i :| 0 <= i < |outbox| && outbox[i].firing && outbox[i].severity == s
             && forall j :: i < j < |outbox| && outbox[j].firing ==> outbox[j].severity == s;
    if !outbox[|outbox| - 1].firing {
      var rest := outbox[..|outbox| - 1];
      assert rest[i] == outbox[i] && forall j :: i < j < |rest| && rest[j].firing ==> rest[j].severity == s;
      LastFiringIs(rest, s);
    }
  }

  lemma CalmFiresOn(outbox: seq<Notice>, later: seq<Notice>, s: Severity)
    requires FiresAs(outbox, s) && Calm(outbox, later, s)
    ensures FiresAs(later, s)
  {
    var i :| 0 <= i < |outbox| && outbox[i].firing && outbox[i].severity == s
             && forall j :: i < j < |outbox| && outbox[j].firing ==> outbox[j].severity == s;
    assert later[i].firing && later[i].severity == s;
    assert forall j :: i < j < |later| && later[j].firing ==> later[j].severity == s;
  }

  lemma ResolveIsQuiet(a: Alert, reason: Reason, at: int)
    ensures Quiet(a, Resolve(a, reason, at))
  {
  }

  lemma RefireIsCalm(outbox: seq<Notice>, s: Severity)
    requires FiresAs(outbox, s)
    ensures Calm(outbox, Refired(outbox), s)
  {
    LastFiringIs(outbox, s);
  }

  lemma ReopenIsQuiet(a: Alert)
    ensures Quiet(a, Reopen(a))
  {
    if FiresAs(a.outbox, a.severity) { RefireIsCalm(a.outbox, a.severity); }
  }

  lemma CalmThenCalm(x: seq<Notice>, y: seq<Notice>, z: seq<Notice>, s: Severity)
    requires Calm(x, y, s) && Calm(y, z, s)
    ensures Calm(x, z, s)
  {
    assert forall i :: |x| <= i < |z| && z[i].firing && i < |y| ==> y[i].firing;
  }

  lemma QuietThenQuiet(a: Alert, b: Alert, c: Alert)
    requires Quiet(a, b) && Quiet(b, c)
    ensures Quiet(a, c)
  {
    if FiresAs(a.outbox, a.severity) {
      CalmFiresOn(a.outbox, b.outbox, a.severity);
      CalmThenCalm(a.outbox, b.outbox, c.outbox, a.severity);
    }
  }

  lemma QuietDbThenQuietDb(x: Db, y: Db, z: Db)
    requires QuietDb(x, y) && QuietDb(y, z)
    ensures QuietDb(x, z)
  {
    forall id | id in z.alerts
      ensures Quiet(x.alerts[id], z.alerts[id])
    {
      QuietThenQuiet(x.alerts[id], y.alerts[id], z.alerts[id]);
    }
  }

  lemma SaveIsQuiet(db: Db, id: int, a: Alert)
    requires id in db.alerts && Quiet(db.alerts[id], a)
    ensures QuietDb(db, Save(db, id, a))
  {
  }

  lemma ReviewedIsQuiet(a: Alert, k: nat, accept: bool, anchor: int)
    requires k < |a.occurrences|
    ensures Quiet(a, Reviewed(a, k, accept)) && Quiet(a, Reviewed(a, k, accept).(anchor := anchor))
  {
  }

  lemma ReviewIsQuiet(db: Db, id: int, k: nat, expectedRevision: int, accept: bool, now: int)
    requires id in db.alerts && k < |db.alerts[id].occurrences|
    ensures QuietDb(db, DoReview(db, id, k, expectedRevision, accept, now))
  {
    var before := db.alerts[id];
    var reviewed := Reviewed(before, k, accept);
    var a := if reviewed.firing then reviewed else reviewed.(anchor := now);
    ReviewedIsQuiet(before, k, accept, now);
    match ReviewOf(db, id, k, expectedRevision, accept)
    case Accepted(resolved) =>
      ResolveIsQuiet(a, AcceptedAsNormal, now);
      QuietThenQuiet(before, a, Resolve(a, AcceptedAsNormal, now));
      SaveIsQuiet(db, id, if resolved then Resolve(a, AcceptedAsNormal, now) else a);
    case Reverted(reopened) =>
      ReopenIsQuiet(a);
      QuietThenQuiet(before, a, Reopen(a));
      SaveIsQuiet(db, id, if reopened then Reopen(a) else a);
    case _ =>
      QuietWithItself(db);
  }

  lemma QuietWithItself(db: Db)
    ensures QuietDb(db, db)
  {
  }

  lemma ResolveConditionIsQuiet(db: Db, c: Condition, reason: Reason, at: int)
    ensures QuietDb(db, ResolveCondition(db, c, reason, at))
  {
    QuietWithItself(db);
    if c in db.firing && db.firing[c] in db.alerts {
      var id := db.firing[c];
      ResolveIsQuiet(db.alerts[id], reason, at);
      SaveIsQuiet(db, id, Resolve(db.alerts[id], reason, at));
    }
  }

  lemma ResolveAllIsQuiet(db: Db, cs: set<Condition>, reason: Reason, at: int)
    ensures QuietDb(db, ResolveAll(db, cs, reason, at))
  {
    QuietWithItself(db);
    forall id | id in db.alerts
      ensures Quiet(db.alerts[id], Resolve(db.alerts[id], reason, at))
    {
      ResolveIsQuiet(db.alerts[id], reason, at);
    }
  }

  lemma RecoveryIsQuiet(db: Db, service: int, indicator: int, at: int)
    ensures QuietDb(db, Recovered(db, service, at)) && QuietDb(db, DoRecordGood(db, service, indicator, at))
  {
    ResolveConditionIsQuiet(db, MonitoringCondition(service, ANOMALY_ANALYSIS), MonitoringRecovered, at);
    var base, c := Recovered(db, service, at), AnomalyCondition(service, indicator, false);
    ResolveConditionIsQuiet(base, c, GoodChunk, at);
    QuietDbThenQuietDb(db, base, ResolveCondition(base, c, GoodChunk, at));
  }

  lemma DeliverIsQuiet(db: Db, id: int, k: nat, accepted: bool, now: int)
    requires id in db.alerts && k < |db.alerts[id].outbox|
    ensures QuietDb(db, DoDeliver(db, id, k, accepted, now))
  {
    var a, after := db.alerts[id], DoDeliver(db, id, k, accepted, now);
    QuietWithItself(db);
    ResolveIsQuiet(a, HistoricalDisabled, now);
    if a.outbox[k].state == Pending { SettledIsQuiet(a, k, Missed, a.lastHandoff, a.handoffs); }
    if a.outbox[k].state == Pending { SettledIsQuiet(a, k, Delivered, Some(now), a.handoffs + [k]); }
    SaveIsQuiet(db, id, after.alerts[id]);
  }

  lemma SettledIsQuiet(a: Alert, k: nat, state: Delivery, lastHandoff: Option<int>, handoffs: seq<int>)
    requires k < |a.outbox| && a.outbox[k].state == Pending
    ensures Quiet(a, a.(outbox := a.outbox[k := a.outbox[k].(state := state)], lastHandoff := lastHandoff,
                        handoffs := handoffs))
  {
  }

  lemma UpkeepIsQuiet(db: Db, before: int)
    ensures QuietDb(db, DoEnqueueRefreshes(db, before)) && QuietDb(db, DoDeleteExpired(db, before))
  {
    forall id | id in db.alerts
      ensures Quiet(db.alerts[id], db.alerts[id].(outbox := Refired(db.alerts[id].outbox)))
    {
      if FiresAs(db.alerts[id].outbox, db.alerts[id].severity) {
        RefireIsCalm(db.alerts[id].outbox, db.alerts[id].severity);
      }
    }
  }

  predicate Counts(a: Action) {
    a.RecordAnomaly? || a.RecordCollectionFailure? || a.RecordMonitoringFailure?
  }

  lemma OthersAreQuiet(db: Db, a: Action)
    requires !Counts(a)
    ensures QuietDb(db, Transaction(db, a))
  {
    match a
    case RecordGood(service, indicator, at) => RecoveryIsQuiet(db, service, indicator, at);
    case ResolveCollection(service, at) =>
      ResolveConditionIsQuiet(db, CollectionCondition(service), CollectionRecovered, at);
    case ResolveMonitoring(service, operation, at) =>
      ResolveConditionIsQuiet(db, MonitoringCondition(service, operation), MonitoringRecovered, at);
    case InterruptAnomalies(service, at) =>
      ResolveAllIsQuiet(db, (set c | c in db.firing && c.service == service && c.AnomalyCondition? && !c.historical),
                        MonitoringInterrupted, at);
    case CloseService(service, paused, at) =>
      ResolveAllIsQuiet(db, (set c | c in db.firing && c.service == service),
                        if paused then MonitoringPaused else ServiceRemoved, at);
    case Review(id, k, expectedRevision, accept, now) =>
      QuietWithItself(db);
      if id in db.alerts && 0 <= k < |db.alerts[id].occurrences| {
        ReviewIsQuiet(db, id, k, expectedRevision, accept, now);
      }
    case Deliver(id, k, accepted, now) =>
      QuietWithItself(db);
      if id in db.alerts && 0 <= k < |db.alerts[id].outbox| { DeliverIsQuiet(db, id, k, accepted, now); }
    case EnqueueRefreshes(before) => UpkeepIsQuiet(db, before);
    case DeleteExpired(before) => UpkeepIsQuiet(db, before);
  }

  /** No id is given twice. */
  lemma IdsAreNew(db: Db, a: Action)
    requires Safe(db)
    ensures Next(db, a).nextId >= db.nextId
    ensures forall id :: id in Next(db, a).alerts ==> id in db.alerts || id >= db.nextId
  {
    if !Counts(a) {
      OthersAreQuiet(db, a);
    } else if a.RecordAnomaly? {
      RecoveryIsQuiet(db, a.service, a.indicator, a.timestamp);
      var c := AnomalyCondition(a.service, a.indicator, a.historical);
      AddedIdsAreNew(Recovered(db, a.service, a.timestamp), c, ChunkKey(a.service, a.indicator, a.timestamp),
                     a.threshold, a.timestamp);
    }
  }

  lemma AddedIdsAreNew(db: Db, c: Condition, key: OccurrenceKey, threshold: int, at: int)
    ensures var after := AddAnomaly(db, c, KindOf(c), key, threshold, at);
            && after.nextId >= db.nextId && forall id :: id in after.alerts ==> id in db.alerts || id >= db.nextId
  {
  }

  // ---------------------------------------------------------------- the severity

  /** The three settings, as long as nobody changes them. */
  datatype Thresholds = Thresholds(anomaly: int, collection: int, monitoring: int)

  predicate Follows(a: Action, t: Thresholds) {
    match a
    case RecordAnomaly(_, _, _, _, threshold) => threshold == t.anomaly
    case RecordCollectionFailure(_, _, _, _, threshold, _) => threshold == t.collection
    case RecordMonitoringFailure(_, _, _, threshold, _) => threshold == t.monitoring
    case _ => true
  }

  function ThresholdFor(c: Condition, t: Thresholds): int {
    match c
    case CollectionCondition(_) => t.collection
    case AnomalyCondition(_, _, _) => t.anomaly
    case MonitoringCondition(_, _) => t.monitoring
  }

  /** The count at which an alert is critical: the first anomaly or impairment never is. */
  function Floor(c: Condition, threshold: int): int {
    if c.CollectionCondition? || threshold >= 2 then threshold else 2
  }

  /** The action counts one more on the alert, or opens it. */
  ghost predicate CountsOn(db: Db, a: Action, id: int) {
    && Counts(a) && id in Next(db, a).alerts
    && (id in db.alerts ==> Next(db, a).alerts[id].occurrenceCount > db.alerts[id].occurrenceCount)
  }

  /** The threshold read by the last action that counted on the alert. */
  ghost function LastThreshold(actions: seq<Action>, id: int): int {
    if actions == [] then 0
    else
      var before, a := actions[..|actions| - 1], actions[|actions| - 1];
      if CountsOn(After(before), a, id) then a.threshold else LastThreshold(before, id)
  }

  predicate SeverityRule(a: Alert, threshold: int) {
    && a.occurrenceCount >= 1
    && (a.severity == Critical <==> a.occurrenceCount >= Floor(a.condition, threshold))
  }

  /** The action counts on alerts of this kind. */
  predicate CountsFor(a: Action, c: Condition) {
    match a
    case RecordAnomaly(_, _, _, _, _) => c.AnomalyCondition?
    case RecordCollectionFailure(_, _, _, _, _, _) => c.CollectionCondition?
    case RecordMonitoringFailure(_, _, _, _, _) => c.MonitoringCondition?
    case _ => false
  }

  /** Every alert has counted something, and its latest firing row carries its severity. */
  ghost predicate FiresDb(db: Db) {
    forall id :: id in db.alerts ==>
      FiresAs(db.alerts[id].outbox, db.alerts[id].severity) && db.alerts[id].occurrenceCount >= 1
  }

  /** One alert is counted on under the threshold, the others stay as they are. */
  ghost predicate CountsOne(db: Db, after: Db, id: int, c: Condition, threshold: int) {
    && (forall x :: x in after.alerts && x != id ==> x in db.alerts && after.alerts[x] == db.alerts[x])
    && (id in db.alerts ==> db.alerts[id].condition == c)
    && (id in after.alerts ==>
          && after.alerts[id].condition == c && FiresAs(after.alerts[id].outbox, after.alerts[id].severity)
          && SeverityRule(after.alerts[id], threshold)
          && (id in db.alerts ==> after.alerts[id].occurrenceCount == db.alerts[id].occurrenceCount + 1))
  }

  lemma CountedFires(a: Alert, count: nat, consecutive: nat, severity: Severity, escalates: bool, at: int)
    ensures FiresAs(Counted(a, count, consecutive, severity, escalates, at).outbox, severity)
  {
    var outbox := Counted(a, count, consecutive, severity, escalates, at).outbox;
    assert outbox[|outbox| - 1] == Notice(true, severity, 0, Pending);
  }

  /** The alert to count on has been found or opened. */
  ghost predicate Ensured(db: Db, after: Db, id: int, c: Condition) {
    && (forall x :: x in after.alerts && x != id ==> x in db.alerts && after.alerts[x] == db.alerts[x])
    && id in after.alerts && after.alerts[id].condition == c
    && (if id in db.alerts then after.alerts[id] == db.alerts[id] else after.alerts[id].occurrenceCount == 0)
  }

  lemma EnsureIsEnsured(db: Db, c: Condition, kind: Kind)
    requires IndexOk(db)
    ensures Ensured(db, EnsureAlert(db, c, kind), IdFor(db, c), c)
  {
    EnsureKeepsIndex(db, c, kind);
  }

  lemma CountedCountsOne(db: Db, after: Db, id: int, c: Condition, b: Alert, consecutive: nat, severity: Severity,
                         escalates: bool, at: int, threshold: int)
    requires Ensured(db, after, id, c) && b == after.alerts[id].(occurrences := b.occurrences)
    requires severity == Critical <==> b.occurrenceCount + 1 >= Floor(c, threshold)
    ensures CountsOne(db, Save(after, id, Counted(b, b.occurrenceCount + 1, consecutive, severity, escalates, at)), id,
                      c, threshold)
  {
    CountedFires(b, b.occurrenceCount + 1, consecutive, severity, escalates, at);
  }

  lemma AnomalyCountsOne(db: Db, c: Condition, key: OccurrenceKey, threshold: int, at: int)
    requires IndexOk(db) && FiresDb(db) && c.AnomalyCondition?
    ensures CountsOne(db, AddAnomaly(db, c, KindOf(c), key, threshold, at), IdFor(db, c), c, threshold)
  {
    EnsureIsEnsured(db, c, KindOf(c));
    AddedAnomaly(db, c, key, threshold, at);
    var after, id := EnsureAlert(db, c, KindOf(c)), IdFor(db, c);
    var count := after.alerts[id].occurrenceCount + 1;
    var severity := if c !in db.firing then Warning else SeverityFor(count, threshold);
    CountedCountsOne(db, after, id, c, WithOccurrence(after.alerts[id], key, db.clock), count, severity,
                     severity == Critical && count == threshold, at, threshold);
  }

  /** A collection alert counts its failures twice over. */
  lemma ConsecutiveIsCount(db: Db, c: Condition)
    requires Safe(db) && c.CollectionCondition?
    ensures var after, id := EnsureAlert(db, c, CollectionFailure), IdFor(db, c);
            id in after.alerts && after.alerts[id].consecutiveCount == after.alerts[id].occurrenceCount
  {
    EnsuredIsGaining(db, c);
  }

  lemma CollectionCountsOne(db: Db, c: Condition, key: OccurrenceKey, threshold: int, now: int)
    requires Safe(db) && FiresDb(db) && c.CollectionCondition?
    ensures CountsOne(db, AddCollectionFailure(db, c, key, threshold, now), IdFor(db, c), c, threshold)
  {
    EnsureIsEnsured(db, c, CollectionFailure);
    ConsecutiveIsCount(db, c);
    AddedCollectionFailure(db, c, key, threshold, now);
    var after, id := EnsureAlert(db, c, CollectionFailure), IdFor(db, c);
    var count := after.alerts[id].consecutiveCount + 1;
    var severity := SeverityFor(count, threshold);
    CountedCountsOne(db, after, id, c, Noted(db, after.alerts[id], key), count, severity,
                     severity == Critical && count == threshold, now, threshold);
  }

  lemma MonitoringCountsOne(db: Db, c: Condition, key: OccurrenceKey, threshold: int, now: int)
    requires IndexOk(db) && FiresDb(db) && c.MonitoringCondition?
    ensures CountsOne(db, AddMonitoringFailure(db, c, key, threshold, now), IdFor(db, c), c, threshold)
  {
    EnsureIsEnsured(db, c, MonitoringImpaired);
    AddedMonitoringFailure(db, c, key, threshold, now);
    var after, id := EnsureAlert(db, c, MonitoringImpaired), IdFor(db, c);
    var count := after.alerts[id].occurrenceCount + 1;
    var severity := if c !in db.firing then Warning else SeverityFor(count, threshold);
    CountedCountsOne(db, after, id, c, Noted(db, after.alerts[id], key), after.alerts[id].consecutiveCount, severity,
                     count == threshold, now, threshold);
  }

  /** What one transaction does to the severity of one alert: nothing, or it counts on it. */
  ghost predicate SeverityStep(db: Db, after: Db, id: int, a: Action)
    requires id in after.alerts
  {
    var y := after.alerts[id];
    && FiresAs(y.outbox, y.severity)
    && (|| (id in db.alerts && y.condition == db.alerts[id].condition
            && y.severity == db.alerts[id].severity && y.occurrenceCount == db.alerts[id].occurrenceCount)
        || (CountsFor(a, y.condition) && SeverityRule(y, a.threshold)
            && (id in db.alerts ==>
                  y.condition == db.alerts[id].condition && y.occurrenceCount == db.alerts[id].occurrenceCount + 1)))
  }

  lemma QuietSeverity(db: Db, after: Db, id: int, a: Action)
    requires FiresDb(db) && QuietDb(db, after) && id in after.alerts
    ensures SeverityStep(db, after, id, a)
  {
    CalmFiresOn(db.alerts[id].outbox, after.alerts[id].outbox, db.alerts[id].severity);
  }

  lemma QuietKeepsFires(db: Db, after: Db)
    requires FiresDb(db) && QuietDb(db, after)
    ensures FiresDb(after)
  {
    forall id | id in after.alerts
      ensures FiresAs(after.alerts[id].outbox, after.alerts[id].severity) && after.alerts[id].occurrenceCount >= 1
    {
      CalmFiresOn(db.alerts[id].outbox, after.alerts[id].outbox, db.alerts[id].severity);
    }
  }

  lemma CountedSeverity(db: Db, after: Db, id: int, a: Action, x: int, c: Condition)
    requires FiresDb(db) && id in after.alerts && CountsFor(a, c) && CountsOne(db, after, x, c, a.threshold)
    ensures SeverityStep(db, after, id, a)
  {
  }

  lemma AddedSeverity(db: Db, c: Condition, key: OccurrenceKey, id: int, a: Action)
    requires IndexOk(db) && FiresDb(db) && a.RecordAnomaly? && c.AnomalyCondition?
    requires id in AddAnomaly(db, c, KindOf(c), key, a.threshold, a.timestamp).alerts
    ensures SeverityStep(db, AddAnomaly(db, c, KindOf(c), key, a.threshold, a.timestamp), id, a)
  {
    AnomalyCountsOne(db, c, key, a.threshold, a.timestamp);
    CountedSeverity(db, AddAnomaly(db, c, KindOf(c), key, a.threshold, a.timestamp), id, a, IdFor(db, c), c);
  }

  lemma RecordAnomalySeverity(db: Db, a: Action, id: int)
    requires IndexOk(db) && FiresDb(db) && a.RecordAnomaly? && id in Transaction(db, a).alerts
    ensures SeverityStep(db, Transaction(db, a), id, a)
  {
    var base, key := Recovered(db, a.service, a.timestamp), ChunkKey(a.service, a.indicator, a.timestamp);
    RecoveryIsQuiet(db, a.service, a.indicator, a.timestamp);
    if HasOccurrence(base, key) {
      QuietSeverity(db, base, id, a);
    } else {
      QuietKeepsFires(db, base);
      ResolveConditionKeepsIndex(db, MonitoringCondition(a.service, ANOMALY_ANALYSIS), MonitoringRecovered,
                                 a.timestamp);
      AddedSeverity(base, AnomalyCondition(a.service, a.indicator, a.historical), key, id, a);
      QuietThenSeverity(db, base, Transaction(db, a), id, a);
    }
  }

  lemma QuietThenSeverity(db: Db, base: Db, after: Db, id: int, a: Action)
    requires QuietDb(db, base) && base.alerts.Keys == db.alerts.Keys && id in after.alerts
             && SeverityStep(base, after, id, a)
    ensures SeverityStep(db, after, id, a)
  {
    assert id in db.alerts ==> Quiet(db.alerts[id], base.alerts[id]);
  }

  lemma TransactionSeverity(db: Db, a: Action, id: int)
    requires Safe(db) && FiresDb(db) && id in Transaction(db, a).alerts
    ensures SeverityStep(db, Transaction(db, a), id, a)
  {
    match a
    case RecordAnomaly(_, _, _, _, _) =>
      RecordAnomalySeverity(db, a, id);
    case RecordCollectionFailure(service, start, end, attempt, threshold, now) =>
      var c := CollectionCondition(service);
      CollectionCountsOne(db, c, AttemptKey(service, start, end, attempt), threshold, now);
      CountedSeverity(db, Transaction(db, a), id, a, IdFor(db, c), c);
    case RecordMonitoringFailure(service, operation, at, threshold, now) =>
      var c := MonitoringCondition(service, operation);
      MonitoringCountsOne(db, c, FailureKey(service, operation, at), threshold, now);
      CountedSeverity(db, Transaction(db, a), id, a, IdFor(db, c), c);
    case _ =>
      OthersAreQuiet(db, a);
      QuietSeverity(db, Transaction(db, a), id, a);
  }

  lemma TransactionKeepsFires(db: Db, a: Action)
    requires Safe(db) && FiresDb(db)
    ensures FiresDb(Transaction(db, a))
  {
    forall id | id in Transaction(db, a).alerts
      ensures SeverityStep(db, Transaction(db, a), id, a)
    {
      TransactionSeverity(db, a, id);
    }
  }

  lemma {:induction false} AfterFires(actions: seq<Action>)
    ensures FiresDb(After(actions))
  {
    if actions != [] {
      AfterFires(actions[..|actions| - 1]);
      AfterIsSafe(actions[..|actions| - 1]);
      TransactionKeepsFires(After(actions[..|actions| - 1]), actions[|actions| - 1]);
    }
  }

  /** However the settings change during a run, an alert is critical exactly if its count has reached the
      threshold that its last occurrence read, or two where the first occurrence is always a warning. */
  lemma {:induction false} CriticalExactlyAtTheFloor(actions: seq<Action>, id: int)
    requires id in After(actions).alerts
    ensures var a := After(actions).alerts[id];
            (a.severity == Critical <==> a.occurrenceCount >= Floor(a.condition, LastThreshold(actions, id)))
  {
    if actions != [] {
      var before, a := actions[..|actions| - 1], actions[|actions| - 1];
      AfterIsSafe(before);
      AfterFires(before);
      TransactionSeverity(After(before), a, id);
      if id in After(before).alerts { CriticalExactlyAtTheFloor(before, id); }
    }
  }

  // ---------------------------------------------------------------- a threshold of one

  lemma OneMore(actions: seq<Action>, a: Action)
    ensures After(actions + [a]) == Next(After(actions), a)
  {
    assert (actions + [a])[..|actions|] == actions;
  }

  /** A run with settled thresholds after which the condition's alert is critical and its warning still fires. */
  ghost predicate LeavesWarningOpen(actions: seq<Action>, t: Thresholds, c: Condition) {
    && (forall a :: a in actions ==> Follows(a, t)) && 0 in After(actions).alerts
    && var a := After(actions).alerts[0];
       && a.condition == c && a.severity == Critical
       && a.outbox == [Notice(true, Warning, 0, Pending), Notice(true, Critical, 0, Pending)]
  }

  /** `Retires` is the exact guard: at threshold one the first anomaly fires as a warning, and the
      second makes the alert critical without withdrawing it. */
  lemma AnomalyThresholdOneLeavesWarningsOpen(t: Thresholds)
    requires t.anomaly <= 1
    ensures exists actions :: LeavesWarningOpen(actions, t, AnomalyCondition(1, 1, false))
  {
    var first, second := RecordAnomaly(1, 1, 10, false, t.anomaly), RecordAnomaly(1, 1, 20, false, t.anomaly);
    var actions := [] + [first] + [second];
    OneMore([], first);
    OneMore([] + [first], second);
    var db := After([] + [first]);
    FirstAnomaly(10, t.anomaly);
    SecondAnomaly(db, t.anomaly);
    assert LeavesWarningOpen(actions, t, AnomalyCondition(1, 1, false));
  }

  ghost predicate OneAnomalyFires(db: Db, at: int) {
    && db.firing == map[AnomalyCondition(1, 1, false) := 0] && db.alerts.Keys == {0}
    && db.alerts[0] == Alert(AnomalyCondition(1, 1, false), Anomaly, Warning, true, None, 0, 1, 1, None,
                             [Occurrence(ChunkKey(1, 1, at), None, 0, 0)], [Notice(true, Warning, 0, Pending)], false,
                                 [])
  }

  lemma FirstAnomaly(at: int, threshold: int)
    ensures var db := Next(EMPTY_DB, RecordAnomaly(1, 1, at, false, threshold));
            OneAnomalyFires(db, at) && db.clock == 1 && db.goods == {}
  {
    assert !HasOccurrence(EMPTY_DB, ChunkKey(1, 1, at));
  }

  lemma SecondAnomaly(db: Db, threshold: int)
    requires OneAnomalyFires(db, 10) && threshold <= 1
    ensures var after := Next(db, RecordAnomaly(1, 1, 20, false, threshold));
            && 0 in after.alerts && after.alerts[0].condition == AnomalyCondition(1, 1, false)
            && after.alerts[0].severity == Critical
            && after.alerts[0].outbox == [Notice(true, Warning, 0, Pending), Notice(true, Critical, 0, Pending)]
  {
    assert !HasOccurrence(db, ChunkKey(1, 1, 20));
  }

  lemma MonitoringThresholdOneLeavesWarningsOpen(t: Thresholds)
    requires t.monitoring <= 1
    ensures exists actions :: LeavesWarningOpen(actions, t, MonitoringCondition(1, 1))
  {
    var first, second := RecordMonitoringFailure(1, 1, 10, t.monitoring, 10),
        RecordMonitoringFailure(1, 1, 20, t.monitoring, 20);
    var actions := [] + [first] + [second];
    OneMore([], first);
    OneMore([] + [first], second);
    var db := After([] + [first]);
    assert db.firing == map[MonitoringCondition(1, 1) := 0];
    assert LeavesWarningOpen(actions, t, MonitoringCondition(1, 1));
  }

  // ---------------------------------------------------------------- Good results between occurrences

  ghost predicate IsGoodFor(g: (int, int, nat), a: Alert) {
    a.condition == AnomalyCondition(g.0, g.1, false)
  }

  /** No live Good splits the occurrences, and none followed any of them while the alert fires. */
  ghost predicate Unsplit(a: Alert, goods: set<(int, int, nat)>) {
    && (forall g, o, p :: g in goods && IsGoodFor(g, a) && o in a.occurrences && p in a.occurrences ==>
          !(o.seen <= g.2 <= p.seen))
    && (a.firing ==> forall g, o :: g in goods && IsGoodFor(g, a) && o in a.occurrences ==> g.2 < o.seen)
  }

  ghost predicate HistoryOk(db: Db) {
    && (forall g :: g in db.goods ==> g.2 < db.clock)
    && (forall id, o :: id in db.alerts && o in db.alerts[id].occurrences ==> o.seen < db.clock)
    && (forall id :: id in db.alerts && !db.alerts[id].reopened ==> Unsplit(db.alerts[id], db.goods))
  }

  lemma SameSeen(a: Alert, b: Alert, o: Occurrence) returns (p: Occurrence)
    requires Quiet(a, b) && o in b.occurrences
    ensures p in a.occurrences && p.seen == o.seen
  {
    var i :| 0 <= i < |b.occurrences| && b.occurrences[i] == o;
    p := a.occurrences[i];
  }

  lemma QuietKeepsUnsplit(a: Alert, b: Alert, goods: set<(int, int, nat)>)
    requires Unsplit(a, goods) && Quiet(a, b) && !b.reopened
    ensures Unsplit(b, goods)
  {
    forall g, o, p | g in goods && IsGoodFor(g, b) && o in b.occurrences && p in b.occurrences
      ensures !(o.seen <= g.2 <= p.seen)
      ensures b.firing ==> g.2 < o.seen
    {
      var x := SameSeen(a, b, o);
      var y := SameSeen(a, b, p);
      assert IsGoodFor(g, a);
    }
    if b.firing {
      forall g, o | g in goods && IsGoodFor(g, b) && o in b.occurrences
        ensures g.2 < o.seen
      {
        var x := SameSeen(a, b, o);
        assert IsGoodFor(g, a);
      }
    }
  }

  lemma QuietKeepsHistory(db: Db, after: Db)
    requires HistoryOk(db) && QuietDb(db, after) && after.goods == db.goods && after.clock == db.clock
    ensures HistoryOk(after)
  {
    forall id, o | id in after.alerts && o in after.alerts[id].occurrences
      ensures o.seen < db.clock
    {
      var p := SameSeen(db.alerts[id], after.alerts[id], o);
      assert p in db.alerts[id].occurrences;
    }
    forall id | id in after.alerts && !after.alerts[id].reopened
      ensures Unsplit(after.alerts[id], after.goods)
    {
      QuietKeepsUnsplit(db.alerts[id], after.alerts[id], db.goods);
    }
  }

  /** A live Good is recorded now, and the alert of its condition no longer fires. */
  lemma GoodKeepsHistory(db: Db, service: int, indicator: int, after: Db)
    requires HistoryOk(db) && after == db.(goods := db.goods + {(service, indicator, db.clock)}, clock := db.clock + 1)
    requires IndexOk(db) && AnomalyCondition(service, indicator, false) !in db.firing
    ensures HistoryOk(after)
  {
    forall id | id in after.alerts && !after.alerts[id].reopened
      ensures Unsplit(after.alerts[id], after.goods)
    {
      assert Unsplit(db.alerts[id], db.goods);
      assert forall o :: o in db.alerts[id].occurrences ==> o.seen < db.clock;
    }
  }

  /** The alert of `id` is new or firing, and gains at most one occurrence, now. */
  ghost predicate GainsNow(db: Db, id: int, a: Alert) {
    && (forall o :: o in a.occurrences ==> o.seen == db.clock || (id in db.alerts && o in db.alerts[id].occurrences))
    && (id in db.alerts ==>
          a.condition == db.alerts[id].condition && db.alerts[id].firing && a.reopened == db.alerts[id].reopened)
  }

  lemma GainKeepsHistory(db: Db, id: int, a: Alert, after: Db)
    requires HistoryOk(db) && GainsNow(db, id, a)
    requires after.alerts == db.alerts[id := a] && after.goods == db.goods && after.clock == db.clock + 1
    ensures HistoryOk(after)
  {
    if !a.reopened {
      forall g, o | g in db.goods && IsGoodFor(g, a) && o in a.occurrences
        ensures g.2 < o.seen
      {
        if o.seen != db.clock { assert Unsplit(db.alerts[id], db.goods) && IsGoodFor(g, db.alerts[id]); }
      }
    }
    forall x, o | x in after.alerts && o in after.alerts[x].occurrences
      ensures o.seen < after.clock
    {
      assert x != id ==> o in db.alerts[x].occurrences;
    }
  }

  lemma CountingGainsNow(db: Db, c: Condition, key: OccurrenceKey)
    requires Safe(db)
    ensures var a := EnsureAlert(db, c, KindOf(c)).alerts[IdFor(db, c)];
            GainsNow(db, IdFor(db, c), a) && GainsNow(db, IdFor(db, c), WithOccurrence(a, key, db.clock))
    ensures EnsureAlert(db, c, KindOf(c)).alerts ==
            db.alerts[IdFor(db, c) := EnsureAlert(db, c, KindOf(c)).alerts[IdFor(db, c)]]
  {
    EnsureKeepsIndex(db, c, KindOf(c));
  }

  lemma AnomalyKeepsHistory(db: Db, c: Condition, key: OccurrenceKey, threshold: int, at: int)
    requires Safe(db) && HistoryOk(db)
    ensures HistoryOk(AddAnomaly(db, c, KindOf(c), key, threshold, at).(clock := db.clock + 1))
  {
    CountingGainsNow(db, c, key);
    EnsuredIsGaining(db, c);
    var after := AddAnomaly(db, c, KindOf(c), key, threshold, at);
    GainKeepsHistory(db, IdFor(db, c), after.alerts[IdFor(db, c)], after.(clock := db.clock + 1));
  }

  lemma CollectionKeepsHistory(db: Db, c: Condition, key: OccurrenceKey, threshold: int, now: int)
    requires Safe(db) && HistoryOk(db) && c.CollectionCondition?
    ensures HistoryOk(AddCollectionFailure(db, c, key, threshold, now).(clock := db.clock + 1))
  {
    CountingGainsNow(db, c, key);
    EnsuredIsGaining(db, c);
    var after := AddCollectionFailure(db, c, key, threshold, now);
    GainKeepsHistory(db, IdFor(db, c), after.alerts[IdFor(db, c)], after.(clock := db.clock + 1));
  }

  lemma MonitoringKeepsHistory(db: Db, c: Condition, key: OccurrenceKey, threshold: int, now: int)
    requires Safe(db) && HistoryOk(db) && c.MonitoringCondition?
    ensures HistoryOk(AddMonitoringFailure(db, c, key, threshold, now).(clock := db.clock + 1))
  {
    CountingGainsNow(db, c, key);
    EnsuredIsGaining(db, c);
    var after := AddMonitoringFailure(db, c, key, threshold, now);
    GainKeepsHistory(db, IdFor(db, c), after.alerts[IdFor(db, c)], after.(clock := db.clock + 1));
  }

  lemma LaterKeepsHistory(db: Db)
    requires HistoryOk(db)
    ensures HistoryOk(db.(clock := db.clock + 1))
  {
  }

  lemma RecordAnomalyKeepsHistory(db: Db, service: int, indicator: int, timestamp: int, historical: bool,
                                  threshold: int)
    requires Safe(db) && HistoryOk(db)
    ensures HistoryOk(DoRecordAnomaly(db, service, indicator, timestamp, historical, threshold).(clock := db.clock + 1))
  {
    var base := Recovered(db, service, timestamp);
    RecoveryIsQuiet(db, service, indicator, timestamp);
    QuietKeepsHistory(db, base);
    LaterKeepsHistory(base);
    ResolveConditionKeepsSafe(db, MonitoringCondition(service, ANOMALY_ANALYSIS), MonitoringRecovered, timestamp);
    AnomalyKeepsHistory(base, AnomalyCondition(service, indicator, historical),
                        ChunkKey(service, indicator, timestamp), threshold, timestamp);
  }

  lemma RecordGoodKeepsHistory(db: Db, service: int, indicator: int, at: int)
    requires Safe(db) && HistoryOk(db)
    ensures HistoryOk(DoRecordGood(db, service, indicator, at).(clock := db.clock + 1))
  {
    RecoveryIsQuiet(db, service, indicator, at);
    RecordKeepsSafe(db, service, indicator, at, false, 0);
    var after := DoRecordGood(db, service, indicator, at);
    QuietKeepsHistory(db, after.(goods := db.goods));
    GoodKeepsHistory(after.(goods := db.goods), service, indicator, after.(clock := db.clock + 1));
  }

  lemma OthersKeepHistory(db: Db, a: Action)
    requires HistoryOk(db) && !Counts(a) && !a.RecordGood?
    ensures HistoryOk(Next(db, a))
  {
    OthersAreQuiet(db, a);
    assert Transaction(db, a).goods == db.goods && Transaction(db, a).clock == db.clock;
    QuietKeepsHistory(db, Transaction(db, a));
    LaterKeepsHistory(Transaction(db, a));
  }

  lemma NextKeepsHistory(db: Db, a: Action)
    requires Safe(db) && HistoryOk(db)
    ensures HistoryOk(Next(db, a))
  {
    match a
    case RecordGood(service, indicator, at) => RecordGoodKeepsHistory(db, service, indicator, at);
    case RecordAnomaly(service, indicator, timestamp, historical, threshold) =>
      RecordAnomalyKeepsHistory(db, service, indicator, timestamp, historical, threshold);
    case RecordCollectionFailure(service, start, end, attempt, threshold, now) =>
      CollectionKeepsHistory(db, CollectionCondition(service), AttemptKey(service, start, end, attempt), threshold,
                             now);
    case RecordMonitoringFailure(service, operation, at, threshold, now) =>
      MonitoringKeepsHistory(db, MonitoringCondition(service, operation), FailureKey(service, operation, at),
                             threshold, now);
    case _ => OthersKeepHistory(db, a);
  }

  lemma {:induction false} AfterKeepsHistory(actions: seq<Action>)
    ensures HistoryOk(After(actions))
  {
    if actions != [] {
      AfterKeepsHistory(actions[..|actions| - 1]);
      AfterIsSafe(actions[..|actions| - 1]);
      NextKeepsHistory(After(actions[..|actions| - 1]), actions[|actions| - 1]);
    }
  }

  /** The chunks of a live anomaly that was never reopened are consecutive: no Good of the same
      service and indicator was recorded between any two of them. */
  lemma NoGoodBetweenOccurrences(actions: seq<Action>, id: int, i: nat, j: nat, at: nat)
    requires id in After(actions).alerts && !After(actions).alerts[id].reopened
    requires var a := After(actions).alerts[id];
             i < |a.occurrences| && j < |a.occurrences| && a.condition.AnomalyCondition?
    requires var c := After(actions).alerts[id].condition;
             !c.historical && (c.service, c.indicator, at) in After(actions).goods
    ensures var a := After(actions).alerts[id]; !(a.occurrences[i].seen <= at <= a.occurrences[j].seen)
  {
    AfterKeepsHistory(actions);
    var a := After(actions).alerts[id];
    assert Unsplit(a, After(actions).goods) && IsGoodFor((a.condition.service, a.condition.indicator, at), a);
    assert a.occurrences[i] in a.occurrences && a.occurrences[j] in a.occurrences;
  }

  ghost predicate OneAnomaly(db: Db, firing: bool, override: Option<bool>, revision: int, clock: nat) {
    && db.alerts.Keys == {0} && db.clock == clock
    && db.firing == (if firing then map[AnomalyCondition(1, 1, false) := 0] else map[])
    && var a := db.alerts[0];
       && a.condition == AnomalyCondition(1, 1, false) && a.firing == firing && a.occurrenceCount == 1
       && a.reason == (if firing then None else Some(AcceptedAsNormal))
       && a.occurrences == [Occurrence(ChunkKey(1, 1, 10), override, revision, 0)]
  }

  lemma AcceptedResolves(db: Db)
    requires OneAnomaly(db, true, None, 0, 1)
    ensures OneAnomaly(Next(db, Review(0, 0, 0, true, 11)), false, Some(true), 1, 2)
  {
    var a := Reviewed(db.alerts[0], 0, true);
    assert AllAccepted(a);
  }

  lemma GoodPasses(db: Db)
    requires OneAnomaly(db, false, Some(true), 1, 2)
    ensures OneAnomaly(Next(db, RecordGood(1, 1, 20)), false, Some(true), 1, 3)
    ensures (1, 1, 2) in Next(db, RecordGood(1, 1, 20)).goods
  {
  }

  lemma RevertedReopens(db: Db)
    requires OneAnomaly(db, false, Some(true), 1, 3)
    ensures var after := Next(db, Review(0, 0, 1, false, 21));
            OneAnomaly(after, true, Some(false), 2, 4) && after.alerts[0].reopened && after.goods == db.goods
  {
  }

  lemma NextAnomalyCounts(db: Db)
    requires OneAnomaly(db, true, Some(false), 2, 4)
    ensures var after := Next(db, RecordAnomaly(1, 1, 30, false, 2));
            && 0 in after.alerts && after.alerts[0].reopened == db.alerts[0].reopened && after.goods == db.goods
            && after.alerts[0].condition == db.alerts[0].condition
            && after.alerts[0].occurrenceCount == 2
            && after.alerts[0].occurrences == db.alerts[0].occurrences + [Occurrence(ChunkKey(1, 1, 30), None, 0, 4)]
  {
    assert !HasOccurrence(db, ChunkKey(1, 1, 30));
  }

  /** The first alert was reopened and counts two anomalies with a Good of its condition between them. */
  ghost predicate SpansGood(db: Db) {
    && 0 in db.alerts && db.alerts[0].condition == AnomalyCondition(1, 1, false) && db.alerts[0].reopened
    && |db.alerts[0].occurrences| == 2 && db.alerts[0].occurrenceCount == 2
    && (1, 1, 2) in db.goods && db.alerts[0].occurrences[0].seen < 2 < db.alerts[0].occurrences[1].seen
  }

  /** Reopening is what breaks it: a chunk is accepted, a Good passes, the review is taken back,
      and the next anomaly counts as the second in a row. */
  lemma ReopenedAlertsSpanGoods()
    ensures exists actions :: SpansGood(After(actions))
  {
    var actions: seq<Action> := [];
    OneMore(actions, RecordAnomaly(1, 1, 10, false, 2));
    FirstAnomaly(10, 2);
    actions := actions + [RecordAnomaly(1, 1, 10, false, 2)];
    OneMore(actions, Review(0, 0, 0, true, 11));
    AcceptedResolves(After(actions));
    actions := actions + [Review(0, 0, 0, true, 11)];
    OneMore(actions, RecordGood(1, 1, 20));
    GoodPasses(After(actions));
    actions := actions + [RecordGood(1, 1, 20)];
    OneMore(actions, Review(0, 0, 1, false, 21));
    RevertedReopens(After(actions));
    actions := actions + [Review(0, 0, 1, false, 21)];
    OneMore(actions, RecordAnomaly(1, 1, 30, false, 2));
    NextAnomalyCounts(After(actions));
    actions := actions + [RecordAnomaly(1, 1, 30, false, 2)];
    assert SpansGood(After(actions));
  }
}
