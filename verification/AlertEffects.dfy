/**
What each transaction does to the alerts, in the columns of their rows: which alerts it changes and how,
what it queues for the receiver, and that every other alert stays as it is. Then what becomes of two
reviews that were made from the same state of an occurrence.
*/
module AlertEffects {
  import opened Options
  import opened AlertModel
  import opened AlertInvariants

  // ---------------------------------------------------------------- one alert

  /** The outbox of `b` starts with that of `a`, where pending firing rows, all or only warnings, are missed. */
  ghost predicate Misses(a: Alert, b: Alert, onlyWarnings: bool) {
    && |a.outbox| <= |b.outbox|
    && forall i :: 0 <= i < |a.outbox| ==>
         var n := a.outbox[i];
         b.outbox[i] == if n.firing && n.state == Pending && (onlyWarnings ==> n.severity == Warning)
                        then n.(state := Missed) else n
  }

  /** The receiver was handed a firing row of the severity. */
  ghost predicate WasShown(a: Alert, s: Severity) {
    exists i :: 0 <= i < |a.outbox| && a.outbox[i].firing && a.outbox[i].severity == s && a.outbox[i].state == Delivered
  }

  /** Alert `a` ends as `b`: what was pending is missed, and one resolution is queued for each severity shown. */
  ghost predicate EndsAs(a: Alert, b: Alert, reason: Reason, at: int) {
    && b == a.(firing := false, reason := Some(reason), anchor := at, outbox := b.outbox)
    && Misses(a, b, false)
    && b.outbox[|a.outbox|..] ==
       (if WasShown(a, Warning) then [Notice(false, Warning, at, Pending)] else [])
       + (if WasShown(a, Critical) then [Notice(false, Critical, at, Pending)] else [])
  }

  /** Alert `a` becomes `b` by one more anomaly or failure, and a firing row is queued. When it escalates, a
      warning that was shown is resolved before, and one still waiting is missed. */
  ghost predicate RaisedTo(a: Alert, b: Alert, occurrences: seq<Occurrence>, count: nat, consecutive: nat,
                           severity: Severity, escalates: bool, at: int) {
    && b == a.(occurrences := occurrences, occurrenceCount := count, consecutiveCount := consecutive,
               severity := severity, outbox := b.outbox)
    && if !escalates then b.outbox == a.outbox + [Notice(true, severity, 0, Pending)]
       else if WasShown(a, Warning) then
         b.outbox == a.outbox + [Notice(false, Warning, at, Pending), Notice(true, severity, 0, Pending)]
       else Misses(a, b, true) && b.outbox[|a.outbox|..] == [Notice(true, severity, 0, Pending)]
  }

  /** The latest firing row is queued again. */
  ghost predicate Requeues(a: Alert, b: Alert) {
    if forall i :: 0 <= i < |a.outbox| ==> !a.outbox[i].firing then b.outbox == a.outbox
    else exists i :: 0 <= i < |a.outbox| && a.outbox[i].firing
                     && (forall j :: i < j < |a.outbox| ==> !a.outbox[j].firing)
                     && b.outbox == a.outbox + [a.outbox[i].(state := Pending)]
  }

  lemma ShownIsDelivered(a: Alert, s: Severity)
    ensures WasShown(a, s) <==> HasDelivered(a.outbox, s)
  {
    if HasDelivered(a.outbox, s) {
      var n :| n in a.outbox && IsDelivered(n, s);
      var i :| 0 <= i < |a.outbox| && a.outbox[i] == n;
      assert a.outbox[i].firing && a.outbox[i].severity == s && a.outbox[i].state == Delivered;
    }
    if WasShown(a, s) {
      var i :| 0 <= i < |a.outbox| && a.outbox[i].firing && a.outbox[i].severity == s && a.outbox[i].state == Delivered;
      assert a.outbox[i] in a.outbox && IsDelivered(a.outbox[i], s);
    }
  }

  lemma ResolveEnds(a: Alert, reason: Reason, at: int)
    ensures EndsAs(a, Resolve(a, reason, at), reason, at)
  {
    ShownIsDelivered(a, Warning);
    ShownIsDelivered(a, Critical);
    var b := Resolve(a, reason, at);
    var more := ResolvedNotice(a.outbox, Warning, at) + ResolvedNotice(a.outbox, Critical, at);
    assert b.outbox == Missing(a.outbox, None) + more;
    assert b.outbox[|a.outbox|..] == more;
  }

  lemma CountedRaises(a: Alert, occurrences: seq<Occurrence>, count: nat, consecutive: nat, severity: Severity,
                      escalates: bool, at: int)
    ensures RaisedTo(a, Counted(a.(occurrences := occurrences), count, consecutive, severity, escalates, at),
                     occurrences, count, consecutive, severity, escalates, at)
  {
    ShownIsDelivered(a, Warning);
    var b := Counted(a.(occurrences := occurrences), count, consecutive, severity, escalates, at);
    if escalates && !WasShown(a, Warning) {
      assert b.outbox == Missing(a.outbox, Some(Warning)) + [Notice(true, severity, 0, Pending)];
      assert b.outbox[|a.outbox|..] == [Notice(true, severity, 0, Pending)];
    }
  }

  lemma {:induction false} LastFiringIndex(outbox: seq<Notice>) returns (i: nat)
    ensures LastFiring(outbox).None? ==> forall j :: 0 <= j < |outbox| ==> !outbox[j].firing
    ensures LastFiring(outbox).Some? ==>
              && i < |outbox| && outbox[i].firing && LastFiring(outbox).value == outbox[i]
              && forall j :: i < j < |outbox| ==> !outbox[j].firing
  {
    i := 0;
    if outbox != [] {
      var n := |outbox| - 1;
      if outbox[n].firing { i := n; } else { i := LastFiringIndex(outbox[..n]); }
    }
  }

  lemma RefiredRequeues(a: Alert, b: Alert)
    requires b.outbox == Refired(a.outbox)
    ensures Requeues(a, b)
  {
    var i := LastFiringIndex(a.outbox);
  }

  // ---------------------------------------------------------------- resolutions

  /** The alerts that fire for a set of conditions end, and no other alert changes. */
  ghost predicate EndsAll(db: Db, after: Db, ended: set<Condition>, reason: Reason, at: int) {
    && after.alerts.Keys == db.alerts.Keys && after.nextId == db.nextId
    && (forall id :: id in db.alerts ==>
          if db.alerts[id].firing && db.alerts[id].condition in ended
            then EndsAs(db.alerts[id], after.alerts[id], reason, at)
          else after.alerts[id] == db.alerts[id])
    && after.firing == db.firing - ended
  }

  lemma ConditionEnds(db: Db, c: Condition, reason: Reason, at: int)
    requires IndexOk(db)
    ensures EndsAll(db, ResolveCondition(db, c, reason, at), {c}, reason, at)
  {
    if c in db.firing { ResolveEnds(db.alerts[db.firing[c]], reason, at); }
  }

  lemma ConditionsEnd(db: Db, ended: set<Condition>, reason: Reason, at: int)
    ensures EndsAll(db, ResolveAll(db, ended, reason, at), ended, reason, at)
  {
    forall id | id in db.alerts && db.alerts[id].firing && db.alerts[id].condition in ended
      ensures EndsAs(db.alerts[id], ResolveAll(db, ended, reason, at).alerts[id], reason, at)
    {
      ResolveEnds(db.alerts[id], reason, at);
    }
  }

  /** A live Good ends the service's impairment of analysis and the indicator's anomaly; nothing else changes. */
  lemma GoodEnds(db: Db, service: int, indicator: int, at: int)
    requires IndexOk(db)
    ensures var t := Next(db, RecordGood(service, indicator, at));
            var impaired, anomaly := MonitoringCondition(service, ANOMALY_ANALYSIS),
                                     AnomalyCondition(service, indicator, false);
            && t.alerts.Keys == db.alerts.Keys && t.nextId == db.nextId
            && t.goods == db.goods + {(service, indicator, db.clock)}
            && t.firing == db.firing - {impaired, anomaly}
            && forall id :: id in db.alerts ==>
                 var a := db.alerts[id];
                 if a.firing && a.condition == impaired then EndsAs(a, t.alerts[id], MonitoringRecovered, at)
                 else if a.firing && a.condition == anomaly then EndsAs(a, t.alerts[id], GoodChunk, at)
                 else t.alerts[id] == a
  {
    var impaired, anomaly := MonitoringCondition(service, ANOMALY_ANALYSIS),
        AnomalyCondition(service, indicator, false);
    ConditionEnds(db, impaired, MonitoringRecovered, at);
    ResolveConditionKeepsIndex(db, impaired, MonitoringRecovered, at);
    var base := ResolveCondition(db, impaired, MonitoringRecovered, at);
    ConditionEnds(base, anomaly, GoodChunk, at);
    var t := Next(db, RecordGood(service, indicator, at));
    assert t.firing == ResolveCondition(base, anomaly, GoodChunk, at).firing;
    assert t.alerts == ResolveCondition(base, anomaly, GoodChunk, at).alerts;
  }

  /** A recovery ends the alert of its condition; nothing else changes. */
  lemma RecoveriesEnd(db: Db, service: int, operation: int, at: int)
    requires IndexOk(db)
    ensures EndsAll(db, Next(db, ResolveCollection(service, at)), {CollectionCondition(service)}, CollectionRecovered,
                    at)
    ensures EndsAll(db, Next(db, ResolveMonitoring(service, operation, at)), {MonitoringCondition(service, operation)},
                    MonitoringRecovered, at)
  {
    ConditionEnds(db, CollectionCondition(service), CollectionRecovered, at);
    ConditionEnds(db, MonitoringCondition(service, operation), MonitoringRecovered, at);
  }

  /** Closing a service ends all its alerts, historical ones and impairments too; nothing else changes. */
  lemma ClosingEnds(db: Db, service: int, paused: bool, at: int)
    ensures EndsAll(db, Next(db, CloseService(service, paused, at)), (set c | c in db.firing && c.service == service),
                    if paused then MonitoringPaused else ServiceRemoved, at)
  {
    ConditionsEnd(db, (set c | c in db.firing && c.service == service),
                  if paused then MonitoringPaused else ServiceRemoved, at);
  }

  /** A monitoring gap ends the service's live anomalies; nothing else changes. */
  lemma InterruptionEnds(db: Db, service: int, at: int)
    ensures EndsAll(db, Next(db, InterruptAnomalies(service, at)),
                    (set c | c in db.firing && c.service == service && c.AnomalyCondition? && !c.historical),
                    MonitoringInterrupted, at)
  {
    ConditionsEnd(db, (set c | c in db.firing && c.service == service && c.AnomalyCondition? && !c.historical),
                  MonitoringInterrupted, at);
  }

  // ---------------------------------------------------------------- one more anomaly or failure

  /** The alert of the condition is `id`: the one that fires, or the next new one. No other alert changes. */
  ghost predicate AddsTo(db: Db, after: Db, c: Condition, id: int) {
    && id == (if c in db.firing then db.firing[c] else db.nextId)
    && after.nextId == db.nextId + (if c in db.firing then 0 else 1)
    && after.firing == db.firing[c := id] && after.alerts.Keys == db.alerts.Keys + {id}
    && forall other :: other in db.alerts && other != id ==> after.alerts[other] == db.alerts[other]
  }

  ghost predicate KeyIsNew(db: Db, key: OccurrenceKey) {
    forall id, i :: id in db.alerts && 0 <= i < |db.alerts[id].occurrences| ==> db.alerts[id].occurrences[i].key != key
  }

  lemma NewKeyHasNoOccurrence(db: Db, key: OccurrenceKey)
    ensures KeyIsNew(db, key) <==> !HasOccurrence(db, key)
  {
    if HasOccurrence(db, key) {
      var id :| id in db.alerts && exists o :: o in db.alerts[id].occurrences && o.key == key;
      var o :| o in db.alerts[id].occurrences && o.key == key;
      var i :| 0 <= i < |db.alerts[id].occurrences| && db.alerts[id].occurrences[i] == o;
      assert db.alerts[id].occurrences[i].key == key;
    }
    if !KeyIsNew(db, key) {
      var id, i :| id in db.alerts && 0 <= i < |db.alerts[id].occurrences| && db.alerts[id].occurrences[i].key == key;
      assert db.alerts[id].occurrences[i] in db.alerts[id].occurrences;
    }
  }

  /** The first anomaly of a condition opens a warning; each further one raises the count of both kinds, makes
      the alert critical from the threshold on, and escalates at the threshold. */
  lemma AddedAnomalyRaises(db: Db, c: Condition, kind: Kind, key: OccurrenceKey, threshold: int, at: int)
    requires IndexOk(db)
    ensures var t, id := AddAnomaly(db, c, kind, key, threshold, at), if c in db.firing then db.firing[c]
            else db.nextId;
            && AddsTo(db, t, c, id)
            && (c !in db.firing ==>
                  t.alerts[id] == Alert(c, kind, Warning, true, None, 0, 1, 1, None,
                                        [Occurrence(key, None, 0, db.clock)],
                                        [Notice(true, Warning, 0, Pending)], false, []))
            && (c in db.firing ==>
                  var a := db.alerts[id];
                  var count := a.occurrenceCount + 1;
                  RaisedTo(a, t.alerts[id], a.occurrences + [Occurrence(key, None, 0, db.clock)], count, count,
                           if count >= threshold then Critical else Warning, count == threshold, at))
  {
    var id := if c in db.firing then db.firing[c] else db.nextId;
    if c in db.firing {
      var a := db.alerts[id];
      var count := a.occurrenceCount + 1;
      CountedRaises(a, a.occurrences + [Occurrence(key, None, 0, db.clock)], count, count,
                    SeverityFor(count, threshold), count == threshold, at);
      assert db.firing == db.firing[c := id];
    } else {
      OpenedAnomaly(db, c, kind, key, threshold, at);
    }
  }

  lemma OpenedAnomaly(db: Db, c: Condition, kind: Kind, key: OccurrenceKey, threshold: int, at: int)
    requires IndexOk(db) && c !in db.firing
    ensures var t, id := AddAnomaly(db, c, kind, key, threshold, at), db.nextId;
            && AddsTo(db, t, c, id)
            && t.alerts[id] == Alert(c, kind, Warning, true, None, 0, 1, 1, None, [Occurrence(key, None, 0, db.clock)],
                                     [Notice(true, Warning, 0, Pending)], false, [])
  {
    var a := Opened(c, kind);
    assert a.outbox + [Notice(true, Warning, 0, Pending)] == [Notice(true, Warning, 0, Pending)];
    assert a.occurrences + [Occurrence(key, None, 0, db.clock)] == [Occurrence(key, None, 0, db.clock)];
  }

  /** A chunk that is an occurrence already only ends the impairment of analysis. */
  lemma RepeatedAnomalyOnlyRecovers(db: Db, service: int, indicator: int, timestamp: int, historical: bool,
                                    threshold: int)
    requires IndexOk(db) && !KeyIsNew(db, ChunkKey(service, indicator, timestamp))
    ensures EndsAll(db, Next(db, RecordAnomaly(service, indicator, timestamp, historical, threshold)),
                    {MonitoringCondition(service, ANOMALY_ANALYSIS)}, MonitoringRecovered, timestamp)
  {
    var impaired := MonitoringCondition(service, ANOMALY_ANALYSIS);
    ConditionEnds(db, impaired, MonitoringRecovered, timestamp);
    var base := ResolveCondition(db, impaired, MonitoringRecovered, timestamp);
    SameKeysAreNew(db, base, ChunkKey(service, indicator, timestamp));
    NewKeyHasNoOccurrence(base, ChunkKey(service, indicator, timestamp));
  }

  lemma SameKeysAreNew(db: Db, after: Db, key: OccurrenceKey)
    requires after.alerts.Keys == db.alerts.Keys
    requires forall id :: id in db.alerts ==> after.alerts[id].occurrences == db.alerts[id].occurrences
    ensures KeyIsNew(after, key) <==> KeyIsNew(db, key)
  {
  }

  /** The alert of an anomaly's condition afterwards: newly opened as a warning, or raised by one. */
  ghost predicate AnomalyCounted(db: Db, t: Db, c: Condition, kind: Kind, occurrence: Occurrence, threshold: int,
                                 at: int) {
    var id := if c in db.firing then db.firing[c] else db.nextId;
    && id in t.alerts && (c in db.firing ==> id in db.alerts)
    && if c !in db.firing then
         t.alerts[id] == Alert(c, kind, Warning, true, None, 0, 1, 1, None, [occurrence],
                               [Notice(true, Warning, 0, Pending)], false, [])
       else
         var a := db.alerts[id];
         var count := a.occurrenceCount + 1;
         RaisedTo(a, t.alerts[id], a.occurrences + [occurrence], count, count,
                  if count >= threshold then Critical else Warning, count == threshold, at)
  }

  /** All that a new anomaly changes: the impairment ends, the alert of the condition counts it, and every other
      alert stays as it is. */
  ghost predicate AddsAnomaly(db: Db, t: Db, impaired: Condition, c: Condition, kind: Kind, occurrence: Occurrence,
                              threshold: int, at: int) {
    var id := if c in db.firing then db.firing[c] else db.nextId;
    && t.nextId == db.nextId + (if c in db.firing then 0 else 1)
    && t.firing == (db.firing - {impaired})[c := id] && t.alerts.Keys == db.alerts.Keys + {id}
    && (forall other :: other in db.alerts && other != id ==>
          if db.alerts[other].firing && db.alerts[other].condition == impaired
          then EndsAs(db.alerts[other], t.alerts[other], MonitoringRecovered, at)
          else t.alerts[other] == db.alerts[other])
    && AnomalyCounted(db, t, c, kind, occurrence, threshold, at)
  }

  lemma AddAfterEnding(db: Db, base: Db, t: Db, impaired: Condition, c: Condition, kind: Kind, occurrence: Occurrence,
                       threshold: int, at: int)
    requires IndexOk(db) && EndsAll(db, base, {impaired}, MonitoringRecovered, at) && c != impaired
    requires AddsTo(base, t, c, if c in base.firing then base.firing[c] else base.nextId)
    requires AnomalyCounted(base, t, c, kind, occurrence, threshold, at)
    ensures AddsAnomaly(db, t, impaired, c, kind, occurrence, threshold, at)
  {
  }

  /** A new anomaly ends the impairment of analysis and opens or raises the alert of its condition. */
  lemma NewAnomalyRaises(db: Db, service: int, indicator: int, timestamp: int, historical: bool, threshold: int)
    requires IndexOk(db) && KeyIsNew(db, ChunkKey(service, indicator, timestamp))
    ensures AddsAnomaly(db, Next(db, RecordAnomaly(service, indicator, timestamp, historical, threshold)),
                        MonitoringCondition(service, ANOMALY_ANALYSIS),
                            AnomalyCondition(service, indicator, historical),
                        if historical then HistoricalAnomaly else Anomaly,
                        Occurrence(ChunkKey(service, indicator, timestamp), None, 0, db.clock), threshold, timestamp)
  {
    var c, impaired, key := AnomalyCondition(service, indicator, historical),
                            MonitoringCondition(service, ANOMALY_ANALYSIS), ChunkKey(service, indicator, timestamp);
    var kind := if historical then HistoricalAnomaly else Anomaly;
    ConditionEnds(db, impaired, MonitoringRecovered, timestamp);
    ResolveConditionKeepsIndex(db, impaired, MonitoringRecovered, timestamp);
    var base := ResolveCondition(db, impaired, MonitoringRecovered, timestamp);
    SameKeysAreNew(db, base, key);
    NewKeyHasNoOccurrence(base, key);
    AddedAnomalyRaises(base, c, kind, key, threshold, timestamp);
    var t := AddAnomaly(base, c, kind, key, threshold, timestamp);
    AddAfterEnding(db, base, t, impaired, c, kind, Occurrence(key, None, 0, db.clock), threshold, timestamp);
    SameButForTheClock(db, t, impaired, c, kind, Occurrence(key, None, 0, db.clock), threshold, timestamp);
  }

  lemma SameButForTheClock(db: Db, t: Db, impaired: Condition, c: Condition, kind: Kind, occurrence: Occurrence,
                           threshold: int, at: int)
    requires AddsAnomaly(db, t, impaired, c, kind, occurrence, threshold, at)
    ensures AddsAnomaly(db, t.(clock := db.clock + 1), impaired, c, kind, occurrence, threshold, at)
  {
  }

  lemma EnsureAddsTo(db: Db, c: Condition, kind: Kind, t: Db, a: Alert)
    requires IndexOk(db)
    requires t == Save(EnsureAlert(db, c, kind), IdFor(db, c), a).(clock := t.clock)
    ensures AddsTo(db, t, c, if c in db.firing then db.firing[c] else db.nextId)
  {
    if c in db.firing { assert db.firing == db.firing[c := db.firing[c]]; }
  }

  /** The alert that a failure counts on; a new one starts as a warning without any count. */
  ghost predicate CountsOn(db: Db, c: Condition, kind: Kind, a: Alert) {
    if c in db.firing then db.firing[c] in db.alerts && a == db.alerts[db.firing[c]]
    else a == Alert(c, kind, Warning, true, None, 0, 0, 0, None, [], [], false, [])
  }

  lemma FailureRaises(db: Db, c: Condition, kind: Kind, key: OccurrenceKey, count: nat, consecutive: nat,
                      severity: Severity, escalates: bool, at: int) returns (a: Alert, noted: seq<Occurrence>)
    requires IndexOk(db)
    ensures CountsOn(db, c, kind, a) && IdFor(db, c) in EnsureAlert(db, c, kind).alerts
    ensures a == EnsureAlert(db, c, kind).alerts[IdFor(db, c)]
    ensures noted == if KeyIsNew(db, key) then [Occurrence(key, None, 0, db.clock)] else []
    ensures RaisedTo(a, Counted(Noted(db, a, key), count, consecutive, severity, escalates, at), a.occurrences + noted,
                     count, consecutive, severity, escalates, at)
  {
    NewKeyHasNoOccurrence(db, key);
    a := EnsureAlert(db, c, kind).alerts[IdFor(db, c)];
    noted := if KeyIsNew(db, key) then [Occurrence(key, None, 0, db.clock)] else [];
    assert Noted(db, a, key) == a.(occurrences := a.occurrences + noted);
    CountedRaises(a, a.occurrences + noted, count, consecutive, severity, escalates, at);
  }

  lemma CountsOnIsUnique(db: Db, c: Condition, kind: Kind)
    requires IndexOk(db)
    ensures IdFor(db, c) in EnsureAlert(db, c, kind).alerts
    ensures forall a :: CountsOn(db, c, kind, a) <==> a == EnsureAlert(db, c, kind).alerts[IdFor(db, c)]
  {
  }

  /** A failed collection opens or raises the alert of its service. Its severity follows the count from the first
      failure on, and an attempt noted before is counted without a second row. */
  lemma CollectionFailureRaises(db: Db, service: int, start: int, end: int, attempt: int, threshold: int, now: int,
                                a: Alert)
    requires IndexOk(db) && CountsOn(db, CollectionCondition(service), CollectionFailure, a)
    ensures var t := Next(db, RecordCollectionFailure(service, start, end, attempt, threshold, now));
            var c, key := CollectionCondition(service), AttemptKey(service, start, end, attempt);
            var id := if c in db.firing then db.firing[c] else db.nextId;
            AddsTo(db, t, c, id)
            && var noted := if KeyIsNew(db, key) then [Occurrence(key, None, 0, db.clock)] else [];
               var count := a.consecutiveCount + 1;
               RaisedTo(a, t.alerts[id], a.occurrences + noted, a.occurrenceCount + 1, count,
                        if count >= threshold then Critical else Warning, count == threshold, now)
  {
    var c, key := CollectionCondition(service), AttemptKey(service, start, end, attempt);
    CountsOnIsUnique(db, c, CollectionFailure);
    var count := a.consecutiveCount + 1;
    var counted := Counted(Noted(db, a, key), a.occurrenceCount + 1, count, SeverityFor(count, threshold),
                           count == threshold, now);
    var _, _ := FailureRaises(db, c, CollectionFailure, key, a.occurrenceCount + 1, count,
                              SeverityFor(count, threshold), count == threshold, now);
    AddedCollectionFailure(db, c, key, threshold, now);
    EnsureAddsTo(db, c, CollectionFailure, AddCollectionFailure(db, c, key, threshold, now), counted);
  }

  /** A monitoring failure opens a warning of its service and operation, whatever the threshold, and raises it from
      then on; its count in a row stays zero. */
  lemma MonitoringFailureRaises(db: Db, service: int, operation: int, at: int, threshold: int, now: int, a: Alert)
    requires IndexOk(db) && CountsOn(db, MonitoringCondition(service, operation), MonitoringImpaired, a)
    ensures var t := Next(db, RecordMonitoringFailure(service, operation, at, threshold, now));
            var c, key := MonitoringCondition(service, operation), FailureKey(service, operation, at);
            var id := if c in db.firing then db.firing[c] else db.nextId;
            AddsTo(db, t, c, id)
            && var noted := if KeyIsNew(db, key) then [Occurrence(key, None, 0, db.clock)] else [];
               var count := a.occurrenceCount + 1;
               RaisedTo(a, t.alerts[id], a.occurrences + noted, count, a.consecutiveCount,
                        if c in db.firing && count >= threshold then Critical else Warning, count == threshold, now)
  {
    var c, key := MonitoringCondition(service, operation), FailureKey(service, operation, at);
    CountsOnIsUnique(db, c, MonitoringImpaired);
    var count := a.occurrenceCount + 1;
    var severity := if c !in db.firing then Warning else SeverityFor(count, threshold);
    var counted := Counted(Noted(db, a, key), count, a.consecutiveCount, severity, count == threshold, now);
    var _, _ := FailureRaises(db, c, MonitoringImpaired, key, count, a.consecutiveCount, severity, count == threshold,
                              now);
    AddedMonitoringFailure(db, c, key, threshold, now);
    EnsureAddsTo(db, c, MonitoringImpaired, AddMonitoringFailure(db, c, key, threshold, now), counted);
  }

  // ---------------------------------------------------------------- deliveries and upkeep

  ghost predicate OnlyChanges(db: Db, t: Db, id: int) {
    && t.nextId == db.nextId && t.alerts.Keys == db.alerts.Keys
    && forall other :: other in db.alerts && other != id ==> t.alerts[other] == db.alerts[other]
  }

  /** A pending row goes out as delivered if the receiver accepts it, noting when; a firing row of an alert that has
      ended is missed, and one of a historical anomaly ends it. Anything else leaves all rows alone. */
  lemma DeliveryEffect(db: Db, id: int, k: int, accepted: bool, now: int)
    requires id in db.alerts && 0 <= k < |db.alerts[id].outbox|
    ensures var t, a, n := Next(db, Deliver(id, k, accepted, now)), db.alerts[id], db.alerts[id].outbox[k];
            OnlyChanges(db, t, id)
            && if n.state != Pending then t.alerts == db.alerts && t.firing == db.firing
               else if n.endsAt == 0 && !a.firing then
                 t.alerts[id] == a.(outbox := a.outbox[k := n.(state := Missed)]) && t.firing == db.firing
               else if n.endsAt == 0 && a.kind == HistoricalAnomaly then
                 EndsAs(a, t.alerts[id], HistoricalDisabled, now) && t.firing == db.firing - {a.condition}
               else
                 && t.firing == db.firing
                 && t.alerts[id] == if !accepted then a
                                    else a.(outbox := a.outbox[k := n.(state := Delivered)], lastHandoff := Some(now),
                                            handoffs := a.handoffs + [k])
  {
    ResolveEnds(db.alerts[id], HistoricalDisabled, now);
  }

  /** Exactly the firing alerts that the receiver last heard of before the given time, or never, and that have
      nothing pending, get their latest firing row queued again. */
  lemma RefreshesRequeue(db: Db, before: int, id: int)
    requires id in db.alerts
    ensures var t, a := Next(db, EnqueueRefreshes(before)), db.alerts[id];
            && t.alerts.Keys == db.alerts.Keys && t.firing == db.firing && t.nextId == db.nextId
            && t.alerts[id] == a.(outbox := t.alerts[id].outbox)
            && if a.firing && (a.lastHandoff.None? || a.lastHandoff.value < before)
                  && (forall i :: 0 <= i < |a.outbox| ==> a.outbox[i].state != Pending)
               then Requeues(a, t.alerts[id])
               else t.alerts[id] == a
  {
    var t, a := Next(db, EnqueueRefreshes(before)), db.alerts[id];
    if NeedsRefresh(a, before) { RefiredRequeues(a, t.alerts[id]); }
    var i := LastFiringIndex(a.outbox);
    assert (exists n :: n in a.outbox && n.state == Pending) <==>
           !forall i :: 0 <= i < |a.outbox| ==> a.outbox[i].state != Pending;
  }

  /** Retention removes exactly the ended alerts that ended, or were last reviewed, before the given time. */
  lemma DeletionRemoves(db: Db, before: int, id: int)
    ensures var t := Next(db, DeleteExpired(before));
            && t.firing == db.firing && t.nextId == db.nextId
            && (id in t.alerts <==> id in db.alerts && (db.alerts[id].firing || db.alerts[id].anchor >= before))
            && (id in t.alerts ==> t.alerts[id] == db.alerts[id])
  {
  }

  // ---------------------------------------------------------------- reviews

  /** What a review that goes through leaves of its alert: `a` is the alert before, `b` after. */
  ghost predicate ReviewedAs(a: Alert, b: Alert, k: int, accept: bool, now: int) {
    && 0 <= k < |a.occurrences|
    && var o := a.occurrences[k];
       var marked := a.(occurrences := a.occurrences[k := o.(override := Some(accept), revision := o.revision + 1)]);
       if accept && a.firing
          && (forall j :: 0 <= j < |a.occurrences| && j != k && a.occurrences[j].key.ChunkKey? ==>
                a.occurrences[j].override == Some(true))
         then EndsAs(marked, b, AcceptedAsNormal, now)
       else if !accept && !a.firing && a.reason == Some(AcceptedAsNormal) then
         b == marked.(firing := true, reason := None, anchor := 0, outbox := b.outbox, reopened := true)
         && Requeues(a, b)
       else b == if a.firing then marked else marked.(anchor := now)
  }

  /** A review of a chunk goes through exactly if it would change the decision, names the current revision and does
      not reopen an alert whose condition fires anew; otherwise it changes nothing. */
  lemma ReviewEffect(db: Db, id: int, k: int, expectedRevision: int, accept: bool, now: int)
    ensures var t := Next(db, Review(id, k, expectedRevision, accept, now));
            OnlyChanges(db, t, id)
            && if && id in db.alerts && 0 <= k < |db.alerts[id].occurrences|
            && db.alerts[id].occurrences[k].key.ChunkKey?
                  && db.alerts[id].occurrences[k].override != Some(accept)
                  && db.alerts[id].occurrences[k].revision == expectedRevision
                  && !(!accept && !db.alerts[id].firing && db.alerts[id].reason == Some(AcceptedAsNormal)
                       && db.alerts[id].condition in db.firing)
               then
                 && ReviewedAs(db.alerts[id], t.alerts[id], k, accept, now)
                 && t.firing == if t.alerts[id].firing == db.alerts[id].firing then db.firing
                                else if t.alerts[id].firing then db.firing[db.alerts[id].condition := id]
                                else db.firing - {db.alerts[id].condition}
               else t.alerts == db.alerts && t.firing == db.firing
  {
    if Reviewable(db, id, k) {
      var a := db.alerts[id];
      if ReviewOf(db, id, k, expectedRevision, accept) == Accepted(true)
         || ReviewOf(db, id, k, expectedRevision, accept) == Accepted(false) {
        AcceptEffect(db, id, k, expectedRevision, now);
      } else if ReviewOf(db, id, k, expectedRevision, accept) == Reverted(true) {
        var marked := Reviewed(a, k, false).(anchor := now);
        RefiredRequeues(a, Reopen(marked));
      }
    }
  }

  lemma AllAcceptedButOne(a: Alert, k: nat)
    requires k < |a.occurrences|
    ensures AllAccepted(Reviewed(a, k, true)) <==>
            forall j :: 0 <= j < |a.occurrences| && j != k && a.occurrences[j].key.ChunkKey? ==>
              a.occurrences[j].override == Some(true)
  {
    var after := Reviewed(a, k, true).occurrences;
    if AllAccepted(Reviewed(a, k, true)) {
      forall j | 0 <= j < |a.occurrences| && j != k && a.occurrences[j].key.ChunkKey?
        ensures a.occurrences[j].override == Some(true)
      {
        assert after[j] in after;
      }
    }
  }

  lemma AcceptEffect(db: Db, id: int, k: nat, expectedRevision: int, now: int)
    requires id in db.alerts && k < |db.alerts[id].occurrences|
    requires db.alerts[id].occurrences[k].override != Some(true)
             && db.alerts[id].occurrences[k].revision == expectedRevision
    ensures var t := DoReview(db, id, k, expectedRevision, true, now);
            && OnlyChanges(db, t, id) && ReviewedAs(db.alerts[id], t.alerts[id], k, true, now)
            && t.firing == if t.alerts[id].firing == db.alerts[id].firing then db.firing
                           else db.firing - {db.alerts[id].condition}
  {
    AllAcceptedButOne(db.alerts[id], k);
    ResolveEnds(Reviewed(db.alerts[id], k, true), AcceptedAsNormal, now);
  }

  // ---------------------------------------------------------------- two reviews from one state

  /** The occurrence is past a revision for good: ids are not given out again. */
  predicate Past(db: Db, id: int, k: nat, revision: int) {
    id < db.nextId && (id in db.alerts ==>
                         k < |db.alerts[id].occurrences| && db.alerts[id].occurrences[k].revision > revision)
  }

  ghost predicate RevisionsRise(db: Db, t: Db) {
    && db.nextId <= t.nextId && (forall id :: id in t.alerts && id < db.nextId ==> id in db.alerts)
    && forall id :: id in t.alerts && id in db.alerts ==>
         && |db.alerts[id].occurrences| <= |t.alerts[id].occurrences|
         && forall k :: 0 <= k < |db.alerts[id].occurrences| ==>
              t.alerts[id].occurrences[k].revision >= db.alerts[id].occurrences[k].revision
  }

  lemma EndingKeepsRevisions(db: Db, t: Db, ended: set<Condition>, reason: Reason, at: int)
    requires EndsAll(db, t, ended, reason, at)
    ensures RevisionsRise(db, t)
  {
  }

  lemma AddingKeepsRevisions(db: Db, t: Db, c: Condition, id: int)
    requires AddsTo(db, t, c, id) && IndexOk(db)
    requires id in db.alerts ==> db.alerts[id].occurrences <= t.alerts[id].occurrences
    ensures RevisionsRise(db, t)
  {
  }

  lemma AddingAnomalyKeepsRevisions(db: Db, t: Db, impaired: Condition, c: Condition, kind: Kind,
                                    occurrence: Occurrence, threshold: int, at: int)
    requires IndexOk(db) && AddsAnomaly(db, t, impaired, c, kind, occurrence, threshold, at)
    ensures RevisionsRise(db, t)
  {
  }

  lemma AnomalyKeepsRevisions(db: Db, a: Action)
    requires IndexOk(db) && a.RecordAnomaly?
    ensures RevisionsRise(db, Next(db, a))
  {
    var key, impaired := ChunkKey(a.service, a.indicator, a.timestamp),
        MonitoringCondition(a.service, ANOMALY_ANALYSIS);
    if KeyIsNew(db, key) {
      NewAnomalyRaises(db, a.service, a.indicator, a.timestamp, a.historical, a.threshold);
      AddingAnomalyKeepsRevisions(db, Next(db, a), impaired, AnomalyCondition(a.service, a.indicator, a.historical),
                                  if a.historical then HistoricalAnomaly
                                    else Anomaly, Occurrence(key, None, 0, db.clock),
                                  a.threshold, a.timestamp);
    } else {
      RepeatedAnomalyOnlyRecovers(db, a.service, a.indicator, a.timestamp, a.historical, a.threshold);
      EndingKeepsRevisions(db, Next(db, a), {impaired}, MonitoringRecovered, a.timestamp);
    }
  }

  lemma FailureKeepsRevisions(db: Db, a: Action)
    requires IndexOk(db) && (a.RecordCollectionFailure? || a.RecordMonitoringFailure?)
    ensures RevisionsRise(db, Next(db, a))
  {
    if a.RecordCollectionFailure? {
      var c := CollectionCondition(a.service);
      CountsOnIsUnique(db, c, CollectionFailure);
      var counted := EnsureAlert(db, c, CollectionFailure).alerts[IdFor(db, c)];
      CollectionFailureRaises(db, a.service, a.start, a.end, a.attempt, a.threshold, a.now, counted);
      AddingKeepsRevisions(db, Next(db, a), c, IdFor(db, c));
    } else {
      var c := MonitoringCondition(a.service, a.operation);
      CountsOnIsUnique(db, c, MonitoringImpaired);
      var counted := EnsureAlert(db, c, MonitoringImpaired).alerts[IdFor(db, c)];
      MonitoringFailureRaises(db, a.service, a.operation, a.at, a.threshold, a.now, counted);
      AddingKeepsRevisions(db, Next(db, a), c, IdFor(db, c));
    }
  }

  lemma EndsKeepRevisions(db: Db, a: Action)
    requires IndexOk(db)
    requires a.RecordGood? || a.ResolveCollection? || a.ResolveMonitoring? || a.InterruptAnomalies? || a.CloseService?
    ensures RevisionsRise(db, Next(db, a))
  {
    match a
    case RecordGood(service, indicator, at) => GoodEnds(db, service, indicator, at);
    case ResolveCollection(service, at) => RecoveriesEnd(db, service, 0, at);
    case ResolveMonitoring(service, operation, at) => RecoveriesEnd(db, service, operation, at);
    case InterruptAnomalies(service, at) => InterruptionEnds(db, service, at);
    case CloseService(service, paused, at) => ClosingEnds(db, service, paused, at);
  }

  lemma UpkeepKeepsRevisions(db: Db, a: Action)
    requires IndexOk(db) && (a.Deliver? || a.EnqueueRefreshes? || a.DeleteExpired?)
    ensures RevisionsRise(db, Next(db, a))
  {
    match a
    case Deliver(id, k, accepted, now) =>
      if id in db.alerts && 0 <= k < |db.alerts[id].outbox| { DeliveryEffect(db, id, k, accepted, now); }
    case EnqueueRefreshes(before) =>
      forall id | id in db.alerts
        ensures Next(db, a).alerts[id].occurrences == db.alerts[id].occurrences
      {
        RefreshesRequeue(db, before, id);
      }
    case DeleteExpired(before) =>
  }

  lemma ReviewKeepsRevisions(db: Db, a: Action)
    requires IndexOk(db) && a.Review?
    ensures RevisionsRise(db, Next(db, a))
  {
    ReviewEffect(db, a.alert, a.occurrence, a.expectedRevision, a.accept, a.now);
  }

  /** No transaction takes a revision back, or an occurrence away from an alert that it keeps. */
  lemma RevisionsNeverFall(db: Db, a: Action)
    requires IndexOk(db)
    ensures RevisionsRise(db, Next(db, a))
  {
    if a.RecordAnomaly? { AnomalyKeepsRevisions(db, a); }
    else if a.RecordCollectionFailure? || a.RecordMonitoringFailure? { FailureKeepsRevisions(db, a); }
    else if a.Review? { ReviewKeepsRevisions(db, a); }
    else if a.Deliver? || a.EnqueueRefreshes? || a.DeleteExpired? { UpkeepKeepsRevisions(db, a); }
    else { EndsKeepRevisions(db, a); }
  }

  lemma OneMore(before: seq<Action>, later: seq<Action>)
    requires later != []
    ensures var all := before + later;
            all[..|all| - 1] == before + later[..|later| - 1] && all[|all| - 1] == later[|later| - 1]
  {
  }

  lemma {:induction false} StaysPast(before: seq<Action>, later: seq<Action>, id: int, k: nat, revision: int)
    requires Past(After(before), id, k, revision)
    ensures Past(After(before + later), id, k, revision)
  {
    if later == [] {
      assert before + later == before;
    } else {
      var n := |later| - 1;
      StaysPast(before, later[..n], id, k, revision);
      AfterIsSafe(before + later[..n]);
      RevisionsNeverFall(After(before + later[..n]), later[n]);
      OneMore(before, later);
    }
  }

  /** Of any reviews of one occurrence that expect the same revision, at most one takes effect: whatever happens
      after the first that changed the alerts, a later one changes nothing. */
  lemma OneReviewPerRevision(before: seq<Action>, later: seq<Action>, id: int, k: int, revision: int, accept: bool,
                             now: int, otherAccept: bool, otherNow: int)
    requires Next(After(before), Review(id, k, revision, accept, now)).alerts != After(before).alerts
    ensures var s := After(before + [Review(id, k, revision, accept, now)] + later);
            var t := Next(s, Review(id, k, revision, otherAccept, otherNow));
            t.alerts == s.alerts && t.firing == s.firing
  {
    var first := before + [Review(id, k, revision, accept, now)];
    assert first[..|before|] == before && first[|before|] == Review(id, k, revision, accept, now);
    AfterIsSafe(before);
    ReviewEffect(After(before), id, k, revision, accept, now);
    assert ReviewedAs(After(before).alerts[id], After(first).alerts[id], k, accept, now);
    assert Past(After(first), id, k, revision);
    StaysPast(first, later, id, k, revision);
    ReviewEffect(After(first + later), id, k, revision, otherAccept, otherNow);
  }
}
