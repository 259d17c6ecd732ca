/**
The alert manager and the outbox dispatcher as they run: each transaction's statements
are carried out in order, and together are proved to take exactly one step `Next` of
AlertModel. What `NextKeepsSafe` and the theorems on runs say of those steps therefore
holds of the manager. All a transaction asks for is the unique index on firing alerts.
*/
module AlertManager {
  import opened Options
  import opened AlertModel
  import opened AlertInvariants
  import opened AlertEffects

  lemma MissingKeepsDelivered(outbox: seq<Notice>, only: Option<Severity>, s: Severity)
    ensures HasDelivered(Missing(outbox, only), s) <==> HasDelivered(outbox, s)
  {
    var after := Missing(outbox, only);
    if HasDelivered(after, s) {
      var n :| n in after && IsDelivered(n, s);
      var i :| 0 <= i < |after| && after[i] == n;
      assert outbox[i] in outbox && IsDelivered(outbox[i], s);
    }
    if HasDelivered(outbox, s) {
      var n :| n in outbox && IsDelivered(n, s);
      var i :| 0 <= i < |outbox| && outbox[i] == n;
      assert after[i] in after && IsDelivered(after[i], s);
    }
  }

  lemma OneMoreRow(outbox: seq<Notice>, n: Notice, s: Severity)
    ensures HasDelivered(outbox + [n], s) <==> HasDelivered(outbox, s) || IsDelivered(n, s)
  {
    assert n == (outbox + [n])[|outbox|];
    assert forall m :: m in outbox ==> m in outbox + [n];
  }

  /** Every delivered form of an alert is resolved once, under its last payload. */
  method InsertDeliveredResolutions(outbox: seq<Notice>, at: int) returns (r: seq<Notice>)
    ensures r == outbox + ResolvedNotice(outbox, Warning, at) + ResolvedNotice(outbox, Critical, at)
    ensures r == outbox
              + (if exists n :: n in outbox && n.firing && n.state == Delivered && n.severity == Warning
                 then [Notice(false, Warning, at, Pending)] else [])
              + (if exists n :: n in outbox && n.firing && n.state == Delivered && n.severity == Critical
                 then [Notice(false, Critical, at, Pending)] else [])
  {
    var payloads: map<Severity, Notice> := map[];
    for i := 0 to |outbox|
      invariant Warning in payloads <==> HasDelivered(outbox[..i], Warning)
      invariant Critical in payloads <==> HasDelivered(outbox[..i], Critical)
      invariant forall s :: s in payloads ==> payloads[s].severity == s && payloads[s].firing
    {
      assert outbox[..i + 1] == outbox[..i] + [outbox[i]];
      OneMoreRow(outbox[..i], outbox[i], Warning);
      OneMoreRow(outbox[..i], outbox[i], Critical);
      if outbox[i].firing && outbox[i].state == Delivered {
        payloads := payloads[outbox[i].severity := outbox[i]];
      }
    }
    assert outbox[..|outbox|] == outbox;
    r := outbox;
    if Warning in payloads { r := r + [payloads[Warning].(firing := false, endsAt := at, state := Pending)]; }
    if Critical in payloads { r := r + [payloads[Critical].(firing := false, endsAt := at, state := Pending)]; }
  }

  function ResolveEach(db: Db, ids: seq<int>, reason: Reason, at: int): Db {
    if ids == [] then db
    else
      var before, id := ResolveEach(db, ids[..|ids| - 1], reason, at), ids[|ids| - 1];
      if id in before.alerts then ResolveId(before, id, reason, at) else before
  }

  lemma ResolveEachStep(db: Db, ids: seq<int>, k: nat, reason: Reason, at: int)
    requires k < |ids| && ids[k] in ResolveEach(db, ids[..k], reason, at).alerts
    ensures ResolveEach(db, ids[..k + 1], reason, at) ==
            ResolveId(ResolveEach(db, ids[..k], reason, at), ids[k], reason, at)
  {
    assert ids[..k + 1][..k] == ids[..k];
  }

  ghost predicate Listed(db: Db, ids: seq<int>) {
    && (forall i :: 0 <= i < |ids| ==> ids[i] in db.alerts && db.alerts[ids[i]].firing)
    && (forall i, j :: 0 <= i < j < |ids| ==> ids[i] != ids[j])
  }

  function ConditionsOf(db: Db, ids: seq<int>): set<Condition> {
    set id | id in ids && id in db.alerts :: db.alerts[id].condition
  }

  lemma OneMoreCondition(db: Db, ids: seq<int>, id: int)
    requires id in db.alerts
    ensures ConditionsOf(db, ids + [id]) == ConditionsOf(db, ids) + {db.alerts[id].condition}
  {
    assert id == (ids + [id])[|ids|];
    assert forall x :: x in ids + [id] <==> x in ids || x == id;
  }

  lemma ResolveOneMore(db: Db, conditions: set<Condition>, id: int, reason: Reason, at: int)
    requires IndexOk(db) && id in db.alerts && db.alerts[id].firing && db.alerts[id].condition !in conditions
    ensures ResolveId(ResolveAll(db, conditions, reason, at), id, reason, at) ==
            ResolveAll(db, conditions + {db.alerts[id].condition}, reason, at)
  {
    var c := db.alerts[id].condition;
    forall x | x in db.alerts && db.alerts[x].firing && x != id
      ensures db.alerts[x].condition != c
    {
      assert db.firing[db.alerts[x].condition] == x;
    }
    assert db.firing - conditions - {c} == db.firing - (conditions + {c});
  }

  /** Firing alerts are told apart by their conditions, so one by one is all at once, in any order. */
  lemma {:induction false} ResolveEachIsResolveAll(db: Db, ids: seq<int>, reason: Reason, at: int)
    requires IndexOk(db) && Listed(db, ids)
    ensures ResolveEach(db, ids, reason, at) == ResolveAll(db, ConditionsOf(db, ids), reason, at)
  {
    if ids == [] {
      assert ConditionsOf(db, ids) == {} && db.firing - {} == db.firing;
      assert ResolveAll(db, {}, reason, at).alerts == db.alerts;
    } else {
      var rest, id := ids[..|ids| - 1], ids[|ids| - 1];
      assert ids == rest + [id];
      ResolveEachIsResolveAll(db, rest, reason, at);
      OneMoreCondition(db, rest, id);
      forall x | x in rest
        ensures x in db.alerts && db.alerts[x].condition != db.alerts[id].condition
      {
        var i :| 0 <= i < |rest| && rest[i] == x;
        assert ids[i] == x && db.alerts[x].firing && db.firing[db.alerts[x].condition] == x;
      }
      ResolveOneMore(db, ConditionsOf(db, rest), id, reason, at);
    }
  }

  /** The rows that the query for a set of conditions returns, in some order. */
  ghost predicate Selects(db: Db, ids: seq<int>, conditions: set<Condition>) {
    && Listed(db, ids)
    && forall id :: id in ids <==> id in db.alerts && db.alerts[id].firing && db.alerts[id].condition in conditions
  }

  lemma SelectedConditions(db: Db, ids: seq<int>, conditions: set<Condition>)
    requires IndexOk(db) && Selects(db, ids, conditions) && forall c :: c in conditions ==> c in db.firing
    ensures ConditionsOf(db, ids) == conditions
  {
    forall c | c in conditions
      ensures c in ConditionsOf(db, ids)
    {
      assert c in db.firing;
      var id := db.firing[c];
      assert id in ids && db.alerts[id].condition == c;
    }
  }

  class Manager {
    var alerts: map<int, Alert>
    var firing: map<Condition, int>
    var nextId: int
    // history: the number of transactions, and those that recorded a live Good
    var clock: nat
    var goods: set<(int, int, nat)>

    ghost function Contents(): Db
      reads this
    {
      Db(alerts, firing, nextId, clock, goods)
    }

    constructor ()
      ensures Contents() == EMPTY_DB
    {
      alerts, firing, nextId := map[], map[], 0;
      clock, goods := 0, {};
    }

    method ResolveAlert(id: int, reason: Reason, at: int)
      requires id in alerts
      modifies this`alerts, this`firing
      ensures OnlyChanges(old(Contents()), Contents(), id) && firing == old(firing) - {old(alerts)[id].condition}
      ensures EndsAs(old(alerts)[id], alerts[id], reason, at)
      ensures Contents() == ResolveId(old(Contents()), id, reason, at)
    {
      ResolveEnds(alerts[id], reason, at);
      var a := alerts[id].(firing := false, reason := Some(reason), anchor := at);
      firing := firing - {a.condition};
      var delivered := HasDelivered(a.outbox, Warning) || HasDelivered(a.outbox, Critical);
      var outbox := Missing(a.outbox, None);
      MissingKeepsDelivered(a.outbox, None, Warning);
      MissingKeepsDelivered(a.outbox, None, Critical);
      if delivered {
        outbox := InsertDeliveredResolutions(outbox, at);
      } else {
        assert outbox == outbox + [] + [];
      }
      assert outbox == Resolve(old(alerts)[id], reason, at).outbox;
      alerts := alerts[id := a.(outbox := outbox)];
    }

    method ResolveByKey(condition: Condition, reason: Reason, at: int)
      requires IndexOk(Contents())
      modifies this`alerts, this`firing
      ensures EndsAll(old(Contents()), Contents(), {condition}, reason, at)
      ensures Contents() == ResolveCondition(old(Contents()), condition, reason, at)
    {
      ConditionEnds(Contents(), condition, reason, at);
      if condition in firing {
        ResolveAlert(firing[condition], reason, at);
      }
    }

    method RecordGoodAnalysis(service: int, indicator: int, at: int)
      requires IndexOk(Contents())
      modifies this
      ensures alerts.Keys == old(alerts).Keys && nextId == old(nextId)
      ensures forall id :: id in alerts ==>
                var a := old(alerts)[id];
                if a.firing && a.condition == MonitoringCondition(service, ANOMALY_ANALYSIS)
                then EndsAs(a, alerts[id], MonitoringRecovered, at)
                else if a.firing && a.condition == AnomalyCondition(service, indicator, false)
                then EndsAs(a, alerts[id], GoodChunk, at)
                else alerts[id] == a
      ensures Contents() == Next(old(Contents()), RecordGood(service, indicator, at))
    {
      GoodEnds(Contents(), service, indicator, at);
      ResolveConditionKeepsIndex(Contents(), MonitoringCondition(service, ANOMALY_ANALYSIS), MonitoringRecovered, at);
      ResolveByKey(MonitoringCondition(service, ANOMALY_ANALYSIS), MonitoringRecovered, at);
      ResolveByKey(AnomalyCondition(service, indicator, false), GoodChunk, at);
      goods := goods + {(service, indicator, clock)};
      clock := clock + 1;
    }

    /** The firing alert of the condition with its next count, or a new one. */
    method EnsureAnomalyAlert(condition: Condition, kind: Kind, threshold: int)
      returns (id: int, count: nat, severity: Severity, created: bool)
      requires IndexOk(Contents())
      modifies this`alerts, this`firing, this`nextId
      ensures Contents() == EnsureAlert(old(Contents()), condition, kind) && id == IdFor(old(Contents()), condition)
      ensures id in alerts && count == alerts[id].occurrenceCount + 1 && created == (condition !in old(firing))
      ensures severity == if created || count < threshold then Warning else Critical
      ensures created ==> id == old(nextId) && alerts[id] == Opened(condition, kind)
      ensures !created ==> id == old(firing)[condition] && alerts == old(alerts) && firing == old(firing)
    {
      if condition in firing {
        id := firing[condition];
        count := alerts[id].occurrenceCount + 1;
        return id, count, SeverityFor(count, threshold), false;
      }
      id := nextId;
      alerts, firing, nextId := alerts[id := Opened(condition, kind)], firing[condition := id], nextId + 1;
      return id, 1, Warning, true;
    }

    method RetireDeliveredSeverity(id: int, at: int)
      requires id in alerts
      modifies this`alerts
      ensures alerts.Keys == old(alerts).Keys && forall other :: other in alerts && other != id ==>
                alerts[other] == old(alerts)[other]
      ensures alerts[id] == old(alerts)[id].(outbox := alerts[id].outbox)
      ensures var before, after := old(alerts)[id].outbox, alerts[id].outbox;
              && (forall i :: 0 <= i < |before| && before[i].state == Delivered ==>
                    i < |after| && after[i] == before[i])
              && (HasDelivered(before, Warning) ==> after == before + [Notice(false, Warning, at, Pending)])
              && (!HasDelivered(before, Warning) ==>
                    && |after| == |before|
                    && (forall i :: 0 <= i < |after| ==>
                          !(after[i].firing && after[i].severity == Warning && after[i].state == Pending))
                    && forall i :: 0 <= i < |after| && after[i] != before[i] ==>
                         before[i].firing && before[i].severity == Warning && after[i] == before[i].(state := Missed))
      ensures alerts == old(alerts)[id := old(alerts)[id].(outbox := RetireWarning(old(alerts)[id].outbox, at))]
    {
      var a := alerts[id];
      if HasDelivered(a.outbox, Warning) {
        alerts := alerts[id := a.(outbox := a.outbox + [Notice(false, Warning, at, Pending)])];
      } else {
        alerts := alerts[id := a.(outbox := Missing(a.outbox, Some(Warning)))];
      }
    }

    method RecordAnomalyOutcome(service: int, indicator: int, timestamp: int, historical: bool, threshold: int)
      requires IndexOk(Contents())
      modifies this
      ensures if KeyIsNew(old(Contents()), ChunkKey(service, indicator, timestamp)) then
                AddsAnomaly(old(Contents()), Contents(), MonitoringCondition(service, ANOMALY_ANALYSIS),
                            AnomalyCondition(service, indicator, historical),
                            if historical then HistoricalAnomaly else Anomaly,
                            Occurrence(ChunkKey(service, indicator, timestamp), None, 0, old(clock)), threshold,
                            timestamp)
              else EndsAll(old(Contents()), Contents(), {MonitoringCondition(service, ANOMALY_ANALYSIS)},
                           MonitoringRecovered, timestamp)
      ensures Contents() == Next(old(Contents()), RecordAnomaly(service, indicator, timestamp, historical, threshold))
    {
      if KeyIsNew(Contents(), ChunkKey(service, indicator, timestamp)) {
        NewAnomalyRaises(Contents(), service, indicator, timestamp, historical, threshold);
      } else {
        RepeatedAnomalyOnlyRecovers(Contents(), service, indicator, timestamp, historical, threshold);
      }
      RecordAnomalyTx(service, indicator, timestamp, historical, threshold);
    }

    method RecordAnomalyTx(service: int, indicator: int, timestamp: int, historical: bool, threshold: int)
      requires IndexOk(Contents())
      modifies this
      ensures Contents() == Next(old(Contents()), RecordAnomaly(service, indicator, timestamp, historical, threshold))
    {
      ResolveConditionKeepsIndex(Contents(), MonitoringCondition(service, ANOMALY_ANALYSIS), MonitoringRecovered,
                                 timestamp);
      ResolveByKey(MonitoringCondition(service, ANOMALY_ANALYSIS), MonitoringRecovered, timestamp);
      var key := ChunkKey(service, indicator, timestamp);
      var duplicate := exists id :: id in alerts && exists o :: o in alerts[id].occurrences && o.key == key;
      if !duplicate {
        AppendAnomaly(AnomalyCondition(service, indicator, historical),
                      if historical then HistoricalAnomaly else Anomaly, key, threshold, timestamp);
      }
      clock := clock + 1;
    }

    method AppendAnomaly(condition: Condition, kind: Kind, key: OccurrenceKey, threshold: int, timestamp: int)
      requires IndexOk(Contents())
      modifies this`alerts, this`firing, this`nextId
      ensures Contents() == AddAnomaly(old(Contents()), condition, kind, key, threshold, timestamp)
    {
      var id, count, severity, created := EnsureAnomalyAlert(condition, kind, threshold);
      var a := alerts[id];
      alerts := alerts[id := a.(occurrences := a.occurrences + [Occurrence(key, None, 0, clock)])];
      CountOnto(id, count, count, severity, severity == Critical && count == threshold, timestamp);
    }

    /** The updates that every kind of occurrence makes to its alert. */
    method CountOnto(id: int, count: nat, consecutive: nat, severity: Severity, escalates: bool, at: int)
      requires id in alerts
      modifies this`alerts
      ensures alerts == old(alerts)[id := Counted(old(alerts)[id], count, consecutive, severity, escalates, at)]
    {
      alerts := alerts[id := alerts[id].(severity := severity, occurrenceCount := count,
                                         consecutiveCount := consecutive)];
      if escalates {
        RetireDeliveredSeverity(id, at);
      }
      alerts := alerts[id := alerts[id].(outbox := alerts[id].outbox + [Notice(true, severity, 0, Pending)])];
    }

    /** The firing alert of a condition, or a new one without any count. */
    method EnsureFailureAlert(condition: Condition, kind: Kind) returns (id: int, created: bool)
      requires IndexOk(Contents())
      modifies this`alerts, this`firing, this`nextId
      ensures Contents() == EnsureAlert(old(Contents()), condition, kind) && id == IdFor(old(Contents()), condition)
      ensures id in alerts && created == (condition !in old(firing))
      ensures created ==> alerts[id] == Opened(condition, kind)
    {
      if condition in firing { return firing[condition], false; }
      id := nextId;
      alerts, firing, nextId := alerts[id := Opened(condition, kind)], firing[condition := id], nextId + 1;
      return id, true;
    }

    method RecordCollectionFailureTx(service: int, start: int, end: int, attempt: int, threshold: int, now: int)
      requires IndexOk(Contents())
      modifies this
      ensures var c, key := CollectionCondition(service), AttemptKey(service, start, end, attempt);
              && c in firing && AddsTo(old(Contents()), Contents(), c, firing[c])
              && forall a :: CountsOn(old(Contents()), c, CollectionFailure, a) ==>
                   var noted := if KeyIsNew(old(Contents()), key) then [Occurrence(key, None, 0, old(clock))] else [];
                   var count := a.consecutiveCount + 1;
                   RaisedTo(a, alerts[firing[c]], a.occurrences + noted, a.occurrenceCount + 1, count,
                            if count >= threshold then Critical else Warning, count == threshold, now)
      ensures Contents() == Next(old(Contents()), RecordCollectionFailure(service, start, end, attempt, threshold, now))
    {
      CountsOnIsUnique(Contents(), CollectionCondition(service), CollectionFailure);
      CollectionFailureRaises(Contents(), service, start, end, attempt, threshold, now,
                              EnsureAlert(Contents(), CollectionCondition(service), CollectionFailure)
                              .alerts[IdFor(Contents(), CollectionCondition(service))]);
      CountCollectionFailure(CollectionCondition(service), AttemptKey(service, start, end, attempt), threshold, now);
      clock := clock + 1;
    }

    method CountCollectionFailure(condition: Condition, key: OccurrenceKey, threshold: int, now: int)
      requires IndexOk(Contents())
      modifies this`alerts, this`firing, this`nextId
      ensures Contents() == AddCollectionFailure(old(Contents()), condition, key, threshold, now)
    {
      ghost var before := Contents();
      var taken := exists other :: other in alerts && exists o :: o in alerts[other].occurrences && o.key == key;
      assert taken <==> HasOccurrence(before, key);
      var id, created := EnsureFailureAlert(condition, CollectionFailure);
      AddedCollectionFailure(before, condition, key, threshold, now);
      var count := alerts[id].consecutiveCount + 1;
      var severity := SeverityFor(count, threshold);
      AppendFailure(id, key, taken, count, alerts[id].occurrenceCount + 1, severity,
                    severity == Critical && count == threshold, now);
    }

    method RecordMonitoringFailureTx(service: int, operation: int, at: int, threshold: int, now: int)
      requires IndexOk(Contents())
      modifies this
      ensures var c, key := MonitoringCondition(service, operation), FailureKey(service, operation, at);
              && c in firing && AddsTo(old(Contents()), Contents(), c, firing[c])
              && forall a :: CountsOn(old(Contents()), c, MonitoringImpaired, a) ==>
                   var noted := if KeyIsNew(old(Contents()), key) then [Occurrence(key, None, 0, old(clock))] else [];
                   var count := a.occurrenceCount + 1;
                   RaisedTo(a, alerts[firing[c]], a.occurrences + noted, count, a.consecutiveCount,
                            if c in old(firing) && count >= threshold then Critical else Warning, count == threshold,
                            now)
      ensures Contents() == Next(old(Contents()), RecordMonitoringFailure(service, operation, at, threshold, now))
    {
      CountsOnIsUnique(Contents(), MonitoringCondition(service, operation), MonitoringImpaired);
      MonitoringFailureRaises(Contents(), service, operation, at, threshold, now,
                              EnsureAlert(Contents(), MonitoringCondition(service, operation), MonitoringImpaired)
                              .alerts[IdFor(Contents(), MonitoringCondition(service, operation))]);
      CountMonitoringFailure(MonitoringCondition(service, operation), FailureKey(service, operation, at), threshold,
                             now);
      clock := clock + 1;
    }

    method CountMonitoringFailure(condition: Condition, key: OccurrenceKey, threshold: int, now: int)
      requires IndexOk(Contents())
      modifies this`alerts, this`firing, this`nextId
      ensures Contents() == AddMonitoringFailure(old(Contents()), condition, key, threshold, now)
    {
      ghost var before := Contents();
      var taken := exists other :: other in alerts && exists o :: o in alerts[other].occurrences && o.key == key;
      assert taken <==> HasOccurrence(before, key);
      var id, created := EnsureFailureAlert(condition, MonitoringImpaired);
      AddedMonitoringFailure(before, condition, key, threshold, now);
      var count := alerts[id].occurrenceCount + 1;
      var severity := if created then Warning else SeverityFor(count, threshold);
      AppendFailure(id, key, taken, alerts[id].consecutiveCount, count, severity, count == threshold, now);
    }

    /** The occurrence of a failure, unless its key is taken, and what it counts. */
    method AppendFailure(id: int, key: OccurrenceKey, taken: bool, consecutive: nat, count: nat, severity: Severity,
                         escalates: bool, now: int)
      requires id in alerts
      modifies this`alerts
      ensures var a := old(alerts)[id];
              alerts == old(alerts)[id := Counted(if taken then a else WithOccurrence(a, key, clock), count,
                                                  consecutive, severity, escalates, now)]
    {
      if !taken {
        alerts := alerts[id := alerts[id].(occurrences := alerts[id].occurrences + [Occurrence(key, None, 0, clock)])];
      }
      CountOnto(id, count, consecutive, severity, escalates, now);
    }

    /** Resolves the alerts of a query result, row after row. */
    method ResolveRows(ids: seq<int>, reason: Reason, at: int)
      requires forall i :: 0 <= i < |ids| ==> ids[i] in alerts
      modifies this`alerts, this`firing
      ensures Contents() == ResolveEach(old(Contents()), ids, reason, at)
    {
      for i := 0 to |ids|
        invariant Contents() == ResolveEach(old(Contents()), ids[..i], reason, at)
        invariant forall j :: 0 <= j < |ids| ==> ids[j] in alerts
      {
        ResolveEachStep(old(Contents()), ids, i, reason, at);
        ResolveAlert(ids[i], reason, at);
      }
      assert ids[..|ids|] == ids;
    }

    method CloseServiceAlerts(service: int, paused: bool, at: int, rows: seq<int>)
      requires IndexOk(Contents()) && Selects(Contents(), rows, set c | c in firing && c.service == service)
      modifies this
      ensures alerts.Keys == old(alerts).Keys && nextId == old(nextId) && goods == old(goods)
      ensures forall id :: id in alerts ==>
                if old(alerts)[id].firing && old(alerts)[id].condition.service == service
                then EndsAs(old(alerts)[id], alerts[id], if paused then MonitoringPaused else ServiceRemoved, at)
                else alerts[id] == old(alerts)[id]
      ensures forall c :: c in firing <==> c in old(firing) && c.service != service
      ensures forall c :: c in firing ==> firing[c] == old(firing)[c]
      ensures Contents() == Next(old(Contents()), CloseService(service, paused, at))
    {
      ClosingEnds(Contents(), service, paused, at);
      CloseRows(service, paused, at, rows);
    }

    method CloseRows(service: int, paused: bool, at: int, rows: seq<int>)
      requires IndexOk(Contents()) && Selects(Contents(), rows, set c | c in firing && c.service == service)
      modifies this
      ensures Contents() == Next(old(Contents()), CloseService(service, paused, at))
    {
      var reason := if paused then MonitoringPaused else ServiceRemoved;
      SelectedConditions(Contents(), rows, (set c | c in firing && c.service == service));
      ResolveEachIsResolveAll(Contents(), rows, reason, at);
      ResolveRows(rows, reason, at);
      clock := clock + 1;
    }

    method InterruptServiceAnomalies(service: int, at: int, rows: seq<int>)
      requires IndexOk(Contents())
      requires Selects(Contents(), rows,
                       set c | c in firing && c.service == service && c.AnomalyCondition? && !c.historical)
      modifies this
      ensures alerts.Keys == old(alerts).Keys && nextId == old(nextId) && goods == old(goods)
      ensures forall id :: id in alerts ==>
                var c := old(alerts)[id].condition;
                if old(alerts)[id].firing && c.service == service && c.AnomalyCondition? && !c.historical
                then EndsAs(old(alerts)[id], alerts[id], MonitoringInterrupted, at)
                else alerts[id] == old(alerts)[id]
      ensures forall c :: c in firing <==>
                c in old(firing) && !(c.service == service && c.AnomalyCondition? && !c.historical)
      ensures forall c :: c in firing ==> firing[c] == old(firing)[c]
      ensures Contents() == Next(old(Contents()), InterruptAnomalies(service, at))
    {
      InterruptionEnds(Contents(), service, at);
      InterruptRows(service, at, rows);
    }

    method InterruptRows(service: int, at: int, rows: seq<int>)
      requires IndexOk(Contents())
      requires Selects(Contents(), rows,
                       set c | c in firing && c.service == service && c.AnomalyCondition? && !c.historical)
      modifies this
      ensures Contents() == Next(old(Contents()), InterruptAnomalies(service, at))
    {
      SelectedConditions(Contents(), rows,
                         (set c | c in firing && c.service == service && c.AnomalyCondition? && !c.historical));
      ResolveEachIsResolveAll(Contents(), rows, MonitoringInterrupted, at);
      ResolveRows(rows, MonitoringInterrupted, at);
      clock := clock + 1;
    }

    /** Review of one occurrence of an anomaly, under optimistic locking by its revision. */
    method ReviewOccurrence(id: int, k: int, expectedRevision: int, accept: bool, now: int)
      returns (outcome: ReviewOutcome)
      modifies this
      ensures OnlyChanges(old(Contents()), Contents(), id)
      ensures outcome == NotReviewable <==>
              !(id in old(alerts) && 0 <= k < |old(alerts)[id].occurrences|
                && old(alerts)[id].occurrences[k].key.ChunkKey?)
      ensures outcome != NotReviewable ==>
                var a, o := old(alerts)[id], old(alerts)[id].occurrences[k];
                var differs, current := o.override != Some(accept), o.revision == expectedRevision;
                var reopens := !accept && !a.firing && a.reason == Some(AcceptedAsNormal);
                var allOthers := forall j :: 0 <= j < |a.occurrences| && j != k && a.occurrences[j].key.ChunkKey? ==>
                                   a.occurrences[j].override == Some(true);
                outcome == if !differs then Unchanged
                           else if !current then Conflict
                           else if accept then Accepted(a.firing && allOthers)
                           else if reopens && a.condition in old(firing) then IndexViolation
                           else Reverted(reopens)
      ensures outcome in {NotReviewable, Unchanged, Conflict, IndexViolation} ==>
                alerts == old(alerts) && firing == old(firing)
      ensures outcome.Accepted? || outcome.Reverted? ==>
                var a, b := old(alerts)[id], alerts[id];
                && 0 <= k < |a.occurrences| && ReviewedAs(a, b, k, accept, now)
                && b.occurrences[k].revision == a.occurrences[k].revision + 1
                && b.occurrences[k].override == Some(accept)
                && firing == if b.firing == a.firing then old(firing)
                             else if b.firing then old(firing)[a.condition := id] else old(firing) - {a.condition}
      ensures Contents() == Next(old(Contents()), Review(id, k, expectedRevision, accept, now))
    {
      ReviewEffect(Contents(), id, k, expectedRevision, accept, now);
      if Reviewable(Contents(), id, k) { AllAcceptedButOne(alerts[id], k); }
      outcome := NotReviewable;
      if id in alerts && 0 <= k < |alerts[id].occurrences| && alerts[id].occurrences[k].key.ChunkKey? {
        outcome := ReviewTx(id, k, expectedRevision, accept, now);
      }
      clock := clock + 1;
    }

    method ReviewTx(id: int, k: nat, expectedRevision: int, accept: bool, now: int) returns (outcome: ReviewOutcome)
      requires id in alerts && k < |alerts[id].occurrences|
      modifies this`alerts, this`firing
      ensures Contents() == DoReview(old(Contents()), id, k, expectedRevision, accept, now)
      ensures outcome == ReviewOf(old(Contents()), id, k, expectedRevision, accept)
    {
      var o := alerts[id].occurrences[k];
      if o.override == Some(accept) { return Unchanged; }
      if o.revision != expectedRevision { return Conflict; }
      var savepoint := alerts;
      MarkReviewed(id, k, accept, now);
      if accept {
        var resolved := ResolveIfAllAccepted(id, now);
        return Accepted(resolved);
      }
      if !alerts[id].firing && alerts[id].reason == Some(AcceptedAsNormal) {
        if alerts[id].condition in firing {
          alerts := savepoint;
          return IndexViolation;
        }
        ReopenAlert(id);
        return Reverted(true);
      }
      return Reverted(false);
    }

    method MarkReviewed(id: int, k: nat, accept: bool, now: int)
      requires id in alerts && k < |alerts[id].occurrences|
      modifies this`alerts
      ensures var a := Reviewed(old(alerts)[id], k, accept);
              alerts == old(alerts)[id := if a.firing then a else a.(anchor := now)]
    {
      var o := alerts[id].occurrences[k];
      o := o.(override := Some(accept), revision := o.revision + 1);
      alerts := alerts[id := alerts[id].(occurrences := alerts[id].occurrences[k := o])];
      if !alerts[id].firing {
        alerts := alerts[id := alerts[id].(anchor := now)];
      }
    }

    method ResolveIfAllAccepted(id: int, now: int) returns (resolved: bool)
      requires id in alerts
      modifies this`alerts, this`firing
      ensures resolved <==> old(alerts)[id].firing && AllAccepted(old(alerts)[id])
      ensures Contents() == if resolved then ResolveId(old(Contents()), id, AcceptedAsNormal, now) else old(Contents())
    {
      if !alerts[id].firing { return false; }
      var remaining := exists p :: p in alerts[id].occurrences && p.key.ChunkKey? && p.override != Some(true);
      if !remaining {
        ResolveAlert(id, AcceptedAsNormal, now);
      }
      return !remaining;
    }

    method ReopenAlert(id: int)
      requires id in alerts
      modifies this`alerts, this`firing
      ensures var a := old(alerts)[id];
              Contents() == Save(old(Contents()), id, Reopen(a)).(firing := old(firing)[a.condition := id])
    {
      alerts := alerts[id := alerts[id].(firing := true, reason := None, anchor := 0, reopened := true)];
      firing := firing[alerts[id].condition := id];
      alerts := alerts[id := alerts[id].(outbox := Refired(alerts[id].outbox))];
    }

    /** Delivers one claimed outbox row; `accepted` is the receiver's answer. */
    method DeliverOne(id: int, k: nat, accepted: bool, now: int)
      requires id in alerts && k < |alerts[id].outbox| && alerts[id].outbox[k].state == Pending
      modifies this
      ensures OnlyChanges(old(Contents()), Contents(), id)
      ensures var a, n := old(alerts)[id], old(alerts)[id].outbox[k];
              if n.endsAt == 0 && !a.firing then
                alerts[id] == a.(outbox := a.outbox[k := n.(state := Missed)]) && firing == old(firing)
              else if n.endsAt == 0 && a.kind == HistoricalAnomaly then
                EndsAs(a, alerts[id], HistoricalDisabled, now) && firing == old(firing) - {a.condition}
              else
                && firing == old(firing)
                && alerts[id] == if !accepted then a
                                 else a.(outbox := a.outbox[k := n.(state := Delivered)], lastHandoff := Some(now),
                                         handoffs := a.handoffs + [k])
      ensures Contents() == Next(old(Contents()), Deliver(id, k, accepted, now))
    {
      DeliveryEffect(Contents(), id, k, accepted, now);
      var row, status, kind := alerts[id].outbox[k], alerts[id].firing, alerts[id].kind;
      if !status && row.endsAt == 0 {
        alerts := alerts[id := alerts[id].(outbox := alerts[id].outbox[k := row.(state := Missed)])];
      } else if kind == HistoricalAnomaly && row.endsAt == 0 {
        ResolveAlert(id, HistoricalDisabled, now);
      } else if accepted {
        alerts := alerts[id := alerts[id].(outbox := alerts[id].outbox[k := row.(state := Delivered)])];
        alerts := alerts[id := alerts[id].(lastHandoff := Some(now), handoffs := alerts[id].handoffs + [k])];
      }
      clock := clock + 1;
    }
  }
}
