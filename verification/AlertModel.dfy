/**
Alerts, their occurrences and their outbox, one database transaction at a time.

Occurrence and outbox rows are kept in the record of the alert that they
reference, in order of their ids; the foreign keys with ON DELETE CASCADE make
that the same data. `firing` is the unique index on the condition keys of firing
alerts. Four fields are history: `seen`, the transaction that inserted an
occurrence; `reopened`; `handoffs`, the outbox rows in the order in which the
receiver accepted them; and `goods`, the transactions that recorded a live Good
result.
*/
module AlertModel {
  import opened Options

  datatype Kind = Anomaly | HistoricalAnomaly | CollectionFailure | MonitoringImpaired

  datatype Severity = Warning | Critical

  datatype Reason =
    | GoodChunk
    | MonitoringRecovered
    | CollectionRecovered
    | AcceptedAsNormal
    | MonitoringInterrupted
    | HistoricalDisabled
    | MonitoringPaused
    | ServiceRemoved

  datatype Condition =
    | AnomalyCondition(service: int, indicator: int, historical: bool)
    | CollectionCondition(service: int)
    | MonitoringCondition(service: int, operation: int)

  datatype OccurrenceKey =
    | ChunkKey(service: int, indicator: int, timestamp: int)
    | AttemptKey(service: int, start: int, end: int, attempt: int)
    | FailureKey(service: int, operation: int, at: int)

  datatype Occurrence = Occurrence(key: OccurrenceKey, override: Option<bool>, revision: int, seen: nat)

  datatype Delivery = Pending | Delivered | Missed

  /** One outbox row; `endsAt` is the payload's end, zero while the alert fires. */
  datatype Notice = Notice(firing: bool, severity: Severity, endsAt: int, state: Delivery)

  datatype Alert = Alert(
    condition: Condition, kind: Kind, severity: Severity, firing: bool, reason: Option<Reason>, anchor: int,
    occurrenceCount: nat, consecutiveCount: nat, lastHandoff: Option<int>,
    occurrences: seq<Occurrence>, outbox: seq<Notice>, reopened: bool, handoffs: seq<int>)

  datatype Db = Db(alerts: map<int, Alert>, firing: map<Condition, int>, nextId: int, clock: nat,
                   goods: set<(int, int, nat)>)

  const ANOMALY_ANALYSIS := 0

  // ---------------------------------------------------------------- one alert

  function SeverityFor(count: int, threshold: int): Severity {
    if count >= threshold then Critical else Warning
  }

  predicate IsDelivered(n: Notice, severity: Severity) {
    n.firing && n.state == Delivered && n.severity == severity
  }

  predicate HasDelivered(outbox: seq<Notice>, severity: Severity) {
    exists n :: n in outbox && IsDelivered(n, severity)
  }

  /** UPDATE ... SET state='missed' over the pending firing rows, all or of one severity. */
  function Missing(outbox: seq<Notice>, only: Option<Severity>): seq<Notice> {
    seq(|outbox|, i requires 0 <= i < |outbox| =>
      var n := outbox[i];
      if n.firing && n.state == Pending && (only.None? || only.value == n.severity) then n.(state := Missed) else n)
  }

  function ResolvedNotice(outbox: seq<Notice>, severity: Severity, at: int): seq<Notice> {
    if HasDelivered(outbox, severity) then [Notice(false, severity, at, Pending)] else []
  }

  function Resolve(a: Alert, reason: Reason, at: int): Alert {
    a.(firing := false, reason := Some(reason), anchor := at,
       outbox := Missing(a.outbox, None)
                 + ResolvedNotice(a.outbox, Warning, at) + ResolvedNotice(a.outbox, Critical, at))
  }

  function RetireWarning(outbox: seq<Notice>, at: int): seq<Notice> {
    if HasDelivered(outbox, Warning) then outbox + [Notice(false, Warning, at, Pending)]
    else Missing(outbox, Some(Warning))
  }

  /** The count, the severity and the notice of one more anomaly or failure. */
  function Counted(a: Alert, count: nat, consecutive: nat, severity: Severity, escalates: bool, at: int): Alert {
    var outbox := if escalates then RetireWarning(a.outbox, at) else a.outbox;
    a.(occurrenceCount := count, consecutiveCount := consecutive, severity := severity,
       outbox := outbox + [Notice(true, severity, 0, Pending)])
  }

  function WithOccurrence(a: Alert, key: OccurrenceKey, seen: nat): Alert {
    a.(occurrences := a.occurrences + [Occurrence(key, None, 0, seen)])
  }

  function Opened(condition: Condition, kind: Kind): Alert {
    Alert(condition, kind, Warning, true, None, 0, 0, 0, None, [], [], false, [])
  }

  function LastFiring(outbox: seq<Notice>): Option<Notice> {
    if outbox == [] then None
    else if outbox[|outbox| - 1].firing then Some(outbox[|outbox| - 1])
    else LastFiring(outbox[..|outbox| - 1])
  }

  /** Queues the latest firing payload again. */
  function Refired(outbox: seq<Notice>): seq<Notice> {
    if LastFiring(outbox).None? then outbox else outbox + [LastFiring(outbox).value.(state := Pending)]
  }

  predicate AllAccepted(a: Alert) {
    forall o :: o in a.occurrences && o.key.ChunkKey? ==> o.override == Some(true)
  }

  function Reviewed(a: Alert, k: nat, accept: bool): Alert
    requires k < |a.occurrences|
  {
    var o := a.occurrences[k];
    a.(occurrences := a.occurrences[k := o.(override := Some(accept), revision := o.revision + 1)])
  }

  function Reopen(a: Alert): Alert {
    a.(firing := true, reason := None, anchor := 0, outbox := Refired(a.outbox), reopened := true)
  }

  // ---------------------------------------------------------------- transactions

  datatype Action =
    | RecordGood(service: int, indicator: int, at: int)
    | RecordAnomaly(service: int, indicator: int, timestamp: int, historical: bool, threshold: int)
    | RecordCollectionFailure(service: int, start: int, end: int, attempt: int, threshold: int, now: int)
    | RecordMonitoringFailure(service: int, operation: int, at: int, threshold: int, now: int)
    | ResolveCollection(service: int, at: int)
    | ResolveMonitoring(service: int, operation: int, at: int)
    | InterruptAnomalies(service: int, at: int)
    | CloseService(service: int, paused: bool, at: int)
    | Review(alert: int, occurrence: int, expectedRevision: int, accept: bool, now: int)
    | Deliver(alert: int, row: int, accepted: bool, now: int)
    | EnqueueRefreshes(before: int)
    | DeleteExpired(before: int)

  function Save(db: Db, id: int, a: Alert): Db {
    db.(alerts := db.alerts[id := a])
  }

  function ResolveId(db: Db, id: int, reason: Reason, at: int): Db
    requires id in db.alerts
  {
    Save(db, id, Resolve(db.alerts[id], reason, at)).(firing := db.firing - {db.alerts[id].condition})
  }

  function ResolveCondition(db: Db, condition: Condition, reason: Reason, at: int): Db {
    if condition in db.firing && db.firing[condition] in db.alerts then ResolveId(db, db.firing[condition], reason, at)
    else db
  }

  /** The alerts in a set of conditions, resolved one after the other. */
  function ResolveAll(db: Db, conditions: set<Condition>, reason: Reason, at: int): Db {
    db.(alerts := map id | id in db.alerts ::
          if db.alerts[id].firing && db.alerts[id].condition in conditions then Resolve(db.alerts[id], reason, at)
          else db.alerts[id],
        firing := db.firing - conditions)
  }

  predicate HasOccurrence(db: Db, key: OccurrenceKey) {
    exists id :: id in db.alerts && exists o :: o in db.alerts[id].occurrences && o.key == key
  }

  /** INSERT ... ON CONFLICT (occurrence_key) DO NOTHING. */
  function Noted(db: Db, a: Alert, key: OccurrenceKey): Alert {
    if HasOccurrence(db, key) then a else WithOccurrence(a, key, db.clock)
  }

  function IdFor(db: Db, condition: Condition): int {
    if condition in db.firing then db.firing[condition] else db.nextId
  }

  /** The firing alert of a condition, opened first if there is none. */
  function EnsureAlert(db: Db, condition: Condition, kind: Kind): Db {
    if condition in db.firing then db
    else
      Save(db, db.nextId, Opened(condition, kind)).(firing := db.firing[condition := db.nextId],
                                                    nextId := db.nextId + 1)
  }

  function AddAnomaly(db: Db, condition: Condition, kind: Kind, key: OccurrenceKey, threshold: int, at: int): Db {
    var created := condition !in db.firing;
    var after, id := EnsureAlert(db, condition, kind), IdFor(db, condition);
    if id !in after.alerts then db
    else
      var a := after.alerts[id];
      var count := a.occurrenceCount + 1;
      var severity := if created then Warning else SeverityFor(count, threshold);
      Save(after, id, Counted(WithOccurrence(a, key, db.clock), count, count, severity,
                              severity == Critical && count == threshold, at))
  }

  function AddCollectionFailure(db: Db, condition: Condition, key: OccurrenceKey, threshold: int, now: int): Db {
    var after, id := EnsureAlert(db, condition, CollectionFailure), IdFor(db, condition);
    if id !in after.alerts then db
    else
      var a := after.alerts[id];
      var count := a.consecutiveCount + 1;
      var severity := SeverityFor(count, threshold);
      Save(after, id, Counted(Noted(db, a, key), a.occurrenceCount + 1, count, severity,
                              severity == Critical && count == threshold, now))
  }

  function AddMonitoringFailure(db: Db, condition: Condition, key: OccurrenceKey, threshold: int, now: int): Db {
    var created := condition !in db.firing;
    var after, id := EnsureAlert(db, condition, MonitoringImpaired), IdFor(db, condition);
    if id !in after.alerts then db
    else
      var a := after.alerts[id];
      var count := a.occurrenceCount + 1;
      var severity := if created then Warning else SeverityFor(count, threshold);
      Save(after, id, Counted(Noted(db, a, key), count, a.consecutiveCount, severity, count == threshold, now))
  }

  datatype ReviewOutcome =
    | NotReviewable
    | Unchanged
    | Conflict
    | Accepted(resolved: bool)
    | Reverted(reopened: bool)
    | IndexViolation

  /** The occurrence exists and names a chunk. */
  predicate Reviewable(db: Db, id: int, k: int) {
    id in db.alerts && 0 <= k < |db.alerts[id].occurrences| && db.alerts[id].occurrences[k].key.ChunkKey?
  }

  function ReviewOf(db: Db, id: int, k: int, expectedRevision: int, accept: bool): ReviewOutcome
    requires id in db.alerts && 0 <= k < |db.alerts[id].occurrences|
  {
    var a := db.alerts[id];
    var o := a.occurrences[k];
    if o.override == Some(accept) then Unchanged
    else if o.revision != expectedRevision then Conflict
    else if accept then Accepted(a.firing && AllAccepted(Reviewed(a, k, true)))
    else if a.firing || a.reason != Some(AcceptedAsNormal) then Reverted(false)
    else if a.condition in db.firing then IndexViolation
    else Reverted(true)
  }

  function DoReview(db: Db, id: int, k: int, expectedRevision: int, accept: bool, now: int): Db
    requires id in db.alerts && 0 <= k < |db.alerts[id].occurrences|
  {
    var reviewed := Reviewed(db.alerts[id], k, accept);
    var a := if reviewed.firing then reviewed else reviewed.(anchor := now);
    match ReviewOf(db, id, k, expectedRevision, accept)
    case NotReviewable => db
    case Unchanged => db
    case Conflict => db
    case IndexViolation => db
    case Accepted(resolved) =>
      if resolved then ResolveId(Save(db, id, a), id, AcceptedAsNormal, now) else Save(db, id, a)
    case Reverted(reopened) =>
      if reopened then Save(db, id, Reopen(a)).(firing := db.firing[a.condition := id]) else Save(db, id, a)
  }

  /** One whole delivery: claim, checks, send, and the transaction that records it. */
  function DoDeliver(db: Db, id: int, k: int, accepted: bool, now: int): Db
    requires id in db.alerts && 0 <= k < |db.alerts[id].outbox|
  {
    var a := db.alerts[id];
    var n := a.outbox[k];
    if n.state != Pending then db
    else if !a.firing && n.endsAt == 0 then Save(db, id, a.(outbox := a.outbox[k := n.(state := Missed)]))
    else if a.kind == HistoricalAnomaly && n.endsAt == 0 then ResolveId(db, id, HistoricalDisabled, now)
    else if !accepted then db
    else Save(db, id, a.(outbox := a.outbox[k := n.(state := Delivered)], lastHandoff := Some(now),
                         handoffs := a.handoffs + [k]))
  }

  predicate NeedsRefresh(a: Alert, before: int) {
    && a.firing && LastFiring(a.outbox).Some?
    && (a.lastHandoff.None? || a.lastHandoff.value < before)
    && !exists n :: n in a.outbox && n.state == Pending
  }

  function DoEnqueueRefreshes(db: Db, before: int): Db {
    db.(alerts := map id | id in db.alerts ::
          var a := db.alerts[id];
          if NeedsRefresh(a, before) then a.(outbox := Refired(a.outbox)) else a)
  }

  function DoDeleteExpired(db: Db, before: int): Db {
    db.(alerts := map id | id in db.alerts && (db.alerts[id].firing || db.alerts[id].anchor >= before) :: db.alerts[id])
  }

  function Recovered(db: Db, service: int, at: int): Db {
    ResolveCondition(db, MonitoringCondition(service, ANOMALY_ANALYSIS), MonitoringRecovered, at)
  }

  function DoRecordGood(db: Db, service: int, indicator: int, at: int): Db {
    ResolveCondition(Recovered(db, service, at), AnomalyCondition(service, indicator, false), GoodChunk, at)
    .(goods := db.goods + {(service, indicator, db.clock)})
  }

  function DoRecordAnomaly(db: Db, service: int, indicator: int, timestamp: int, historical: bool, threshold: int): Db {
    var base := Recovered(db, service, timestamp);
    var key := ChunkKey(service, indicator, timestamp);
    if HasOccurrence(base, key) then base
    else AddAnomaly(base, AnomalyCondition(service, indicator, historical),
                    if historical then HistoricalAnomaly else Anomaly, key, threshold, timestamp)
  }

  function Transaction(db: Db, a: Action): Db {
    match a
    case RecordGood(service, indicator, at) => DoRecordGood(db, service, indicator, at)
    case RecordAnomaly(service, indicator, timestamp, historical, threshold) =>
      DoRecordAnomaly(db, service, indicator, timestamp, historical, threshold)
    case RecordCollectionFailure(service, start, end, attempt, threshold, now) =>
      AddCollectionFailure(db, CollectionCondition(service), AttemptKey(service, start, end, attempt), threshold, now)
    case RecordMonitoringFailure(service, operation, at, threshold, now) =>
      AddMonitoringFailure(db, MonitoringCondition(service, operation), FailureKey(service, operation, at), threshold,
                           now)
    case ResolveCollection(service, at) => ResolveCondition(db, CollectionCondition(service), CollectionRecovered, at)
    case ResolveMonitoring(service, operation, at) =>
      ResolveCondition(db, MonitoringCondition(service, operation), MonitoringRecovered, at)
    case InterruptAnomalies(service, at) =>
      ResolveAll(db, (set c | c in db.firing && c.service == service && c.AnomalyCondition? && !c.historical),
                 MonitoringInterrupted, at)
    case CloseService(service, paused, at) =>
      ResolveAll(db, (set c | c in db.firing && c.service == service),
                 if paused then MonitoringPaused else ServiceRemoved, at)
    case Review(id, k, expectedRevision, accept, now) =>
      if Reviewable(db, id, k) then DoReview(db, id, k, expectedRevision, accept, now) else db
    case Deliver(id, k, accepted, now) =>
      if id in db.alerts && 0 <= k < |db.alerts[id].outbox| then DoDeliver(db, id, k, accepted, now) else db
    case EnqueueRefreshes(before) => DoEnqueueRefreshes(db, before)
    case DeleteExpired(before) => DoDeleteExpired(db, before)
  }

  function Next(db: Db, a: Action): Db {
    Transaction(db, a).(clock := db.clock + 1)
  }

  const EMPTY_DB := Db(map[], map[], 0, 0, {})

  function After(actions: seq<Action>): Db {
    if actions == [] then EMPTY_DB else Next(After(actions[..|actions| - 1]), actions[|actions| - 1])
  }
}
