/** When an alert comes to count two anomalies as consecutive although a live Good lies between them. */
module AlertSpans {
  import opened Options
  import opened AlertModel
  import opened AlertInvariants
  import opened AlertHistory

  ghost predicate Between(g: (int, int, nat), a: Alert, i: int, j: int) {
    && IsGoodFor(g, a) && 0 <= i < |a.occurrences| && 0 <= j < |a.occurrences|
    && a.occurrences[i].seen <= g.2 <= a.occurrences[j].seen
  }

  /** A live Good of its condition lies between two occurrences of the alert. */
  ghost predicate Spans(a: Alert, goods: set<(int, int, nat)>) {
    exists g, i, j :: g in goods && Between(g, a, i, j)
  }

  ghost predicate Past(g: (int, int, nat), a: Alert) {
    IsGoodFor(g, a) && forall i :: 0 <= i < |a.occurrences| ==> a.occurrences[i].seen < g.2
  }

  /** A live Good of its condition was recorded after all its occurrences. */
  ghost predicate GoodSince(a: Alert, goods: set<(int, int, nat)>) {
    |a.occurrences| > 0 && exists g :: g in goods && Past(g, a)
  }

  // ---------------------------------------------------------------- one alert

  ghost predicate Gains(a: Alert, b: Alert, clock: nat) {
    && b.condition == a.condition && |a.occurrences| <= |b.occurrences| <= |a.occurrences| + 1
    && (forall i :: 0 <= i < |a.occurrences| ==> b.occurrences[i].seen == a.occurrences[i].seen)
    && (|b.occurrences| > |a.occurrences| ==> b.occurrences[|a.occurrences|].seen == clock)
  }

  /** All that is recorded lies before the clock. */
  ghost predicate Before(a: Alert, goods: set<(int, int, nat)>, clock: nat) {
    && (forall g :: g in goods ==> g.2 < clock)
    && (forall i :: 0 <= i < |a.occurrences| ==> a.occurrences[i].seen < clock)
  }

  lemma SpansStay(a: Alert, b: Alert, goods: set<(int, int, nat)>, later: set<(int, int, nat)>, clock: nat)
    requires Gains(a, b, clock) && goods <= later && Spans(a, goods)
    ensures Spans(b, later)
  {
    var g, i, j :| g in goods && Between(g, a, i, j);
    assert Between(g, b, i, j);
  }

  lemma SpansBegin(a: Alert, b: Alert, goods: set<(int, int, nat)>, clock: nat)
    requires Gains(a, b, clock) && |b.occurrences| > |a.occurrences| && Before(a, goods, clock) && GoodSince(a, goods)
    ensures Spans(b, goods)
  {
    var g :| g in goods && Past(g, a);
    assert Between(g, b, 0, |a.occurrences|);
  }

  lemma SpansOnlySo(a: Alert, b: Alert, goods: set<(int, int, nat)>, later: set<(int, int, nat)>, clock: nat)
    requires Gains(a, b, clock) && Before(a, goods, clock) && Spans(b, later)
    requires forall g :: g in later ==> g in goods || (g.2 == clock && |b.occurrences| == |a.occurrences|)
    ensures Spans(a, goods) || (|b.occurrences| > |a.occurrences| && GoodSince(a, goods))
  {
    var g, i, j :| g in later && Between(g, b, i, j);
    if i < |a.occurrences| && j < |a.occurrences| {
      assert Between(g, a, i, j);
    } else if i < |a.occurrences| && !Past(g, a) {
      var k :| 0 <= k < |a.occurrences| && a.occurrences[k].seen >= g.2;
      assert Between(g, a, i, k);
    }
  }

  lemma SpansAfter(a: Alert, b: Alert, goods: set<(int, int, nat)>, later: set<(int, int, nat)>, clock: nat)
    requires Gains(a, b, clock) && Before(a, goods, clock) && goods <= later
    requires forall g :: g in later ==> g in goods || (g.2 == clock && |b.occurrences| == |a.occurrences|)
    ensures Spans(b, later) <==> Spans(a, goods) || (|b.occurrences| > |a.occurrences| && GoodSince(a, goods))
  {
    if Spans(a, goods) { SpansStay(a, b, goods, later, clock); }
    if |b.occurrences| > |a.occurrences| && GoodSince(a, goods) {
      SpansBegin(a, b, goods, clock);
      var g, i, j :| g in goods && Between(g, b, i, j);
    }
    if Spans(b, later) { SpansOnlySo(a, b, goods, later, clock); }
  }

  lemma OneOccurrenceSpansNothing(a: Alert, goods: set<(int, int, nat)>, later: set<(int, int, nat)>, clock: nat)
    requires |a.occurrences| <= 1 && (forall i :: 0 <= i < |a.occurrences| ==> a.occurrences[i].seen == clock)
    requires later == goods && forall g :: g in goods ==> g.2 < clock
    ensures !Spans(a, later)
  {
  }

  // ---------------------------------------------------------------- one transaction

  /** Old alerts gain at most one occurrence, now; new ones start with at most one. */
  ghost predicate GainsDb(db: Db, after: Db) {
    forall id :: id in after.alerts ==>
      if id in db.alerts then Gains(db.alerts[id], after.alerts[id], db.clock)
      else |after.alerts[id].occurrences| <= 1
           && forall i :: 0 <= i < |after.alerts[id].occurrences| ==> after.alerts[id].occurrences[i].seen == db.clock
  }

  lemma QuietGains(db: Db, after: Db)
    requires QuietDb(db, after)
    ensures GainsDb(db, after)
  {
  }

  lemma SavedGains(db: Db, c: Condition, kind: Kind, b: Alert)
    requires IndexOk(db) && IdFor(db, c) in EnsureAlert(db, c, kind).alerts
    requires Gains(EnsureAlert(db, c, kind).alerts[IdFor(db, c)], b, db.clock)
    ensures GainsDb(db, Save(EnsureAlert(db, c, kind), IdFor(db, c), b))
  {
    EnsureKeepsIndex(db, c, kind);
  }

  lemma AnomalyGains(db: Db, c: Condition, key: OccurrenceKey, threshold: int, at: int)
    requires IndexOk(db)
    ensures GainsDb(db, AddAnomaly(db, c, KindOf(c), key, threshold, at))
  {
    EnsureKeepsIndex(db, c, KindOf(c));
    AddedAnomaly(db, c, key, threshold, at);
    SavedGains(db, c, KindOf(c), AddAnomaly(db, c, KindOf(c), key, threshold, at).alerts[IdFor(db, c)]);
  }

  lemma CollectionGains(db: Db, c: Condition, key: OccurrenceKey, threshold: int, now: int)
    requires IndexOk(db)
    ensures GainsDb(db, AddCollectionFailure(db, c, key, threshold, now))
  {
    EnsureKeepsIndex(db, c, CollectionFailure);
    AddedCollectionFailure(db, c, key, threshold, now);
    SavedGains(db, c, CollectionFailure, AddCollectionFailure(db, c, key, threshold, now).alerts[IdFor(db, c)]);
  }

  lemma MonitoringGains(db: Db, c: Condition, key: OccurrenceKey, threshold: int, now: int)
    requires IndexOk(db)
    ensures GainsDb(db, AddMonitoringFailure(db, c, key, threshold, now))
  {
    EnsureKeepsIndex(db, c, MonitoringImpaired);
    AddedMonitoringFailure(db, c, key, threshold, now);
    SavedGains(db, c, MonitoringImpaired, AddMonitoringFailure(db, c, key, threshold, now).alerts[IdFor(db, c)]);
  }

  lemma RecordAnomalyGains(db: Db, service: int, indicator: int, timestamp: int, historical: bool, threshold: int)
    requires IndexOk(db)
    ensures GainsDb(db, DoRecordAnomaly(db, service, indicator, timestamp, historical, threshold))
  {
    var base, key := Recovered(db, service, timestamp), ChunkKey(service, indicator, timestamp);
    RecoveryIsQuiet(db, service, indicator, timestamp);
    if HasOccurrence(base, key) {
      QuietGains(db, base);
    } else {
      ResolveConditionKeepsIndex(db, MonitoringCondition(service, ANOMALY_ANALYSIS), MonitoringRecovered, timestamp);
      AnomalyGains(base, AnomalyCondition(service, indicator, historical), key, threshold, timestamp);
      QuietThenGains(db, base, DoRecordAnomaly(db, service, indicator, timestamp, historical, threshold));
    }
  }

  lemma QuietThenGains(db: Db, base: Db, after: Db)
    requires QuietDb(db, base) && base.clock == db.clock && base.alerts.Keys == db.alerts.Keys && GainsDb(base, after)
    ensures GainsDb(db, after)
  {
    forall id | id in after.alerts && id in db.alerts
      ensures Gains(db.alerts[id], after.alerts[id], db.clock)
    {
      assert Quiet(db.alerts[id], base.alerts[id]) && Gains(base.alerts[id], after.alerts[id], db.clock);
    }
  }

  lemma TransactionGains(db: Db, a: Action)
    requires IndexOk(db)
    ensures GainsDb(db, Transaction(db, a))
  {
    match a
    case RecordAnomaly(service, indicator, timestamp, historical, threshold) =>
      RecordAnomalyGains(db, service, indicator, timestamp, historical, threshold);
    case RecordCollectionFailure(service, start, end, attempt, threshold, now) =>
      CollectionGains(db, CollectionCondition(service), AttemptKey(service, start, end, attempt), threshold, now);
    case RecordMonitoringFailure(service, operation, at, threshold, now) =>
      MonitoringGains(db, MonitoringCondition(service, operation), FailureKey(service, operation, at), threshold, now);
    case _ =>
      OthersAreQuiet(db, a);
      QuietGains(db, Transaction(db, a));
  }

  lemma GoodsGrow(db: Db, a: Action)
    ensures db.goods <= Next(db, a).goods
    ensures forall g :: g in Next(db, a).goods ==> g in db.goods || (a.RecordGood? && g.2 == db.clock)
  {
  }

  /** The transaction counts one more occurrence onto an alert that was there before. */
  ghost predicate CountsOnto(db: Db, a: Action, id: int) {
    && id in db.alerts && id in Next(db, a).alerts
    && |Next(db, a).alerts[id].occurrences| > |db.alerts[id].occurrences|
  }

  /** An alert spans a Good after a transaction exactly if it did before, or is counted on although a Good
      was recorded after its last occurrence. */
  lemma SpansExactly(db: Db, a: Action, id: int)
    requires Safe(db) && HistoryOk(db) && id in Next(db, a).alerts
    ensures Spans(Next(db, a).alerts[id], Next(db, a).goods) <==>
            id in db.alerts && (Spans(db.alerts[id], db.goods)
                                || (CountsOnto(db, a, id) && GoodSince(db.alerts[id], db.goods)))
  {
    TransactionGains(db, a);
    GoodsGrow(db, a);
    var y, goods, later := Next(db, a).alerts[id], db.goods, Next(db, a).goods;
    if a.RecordGood? { OthersAreQuiet(db, a); }
    if id in db.alerts {
      var x := db.alerts[id];
      assert forall i :: 0 <= i < |x.occurrences| ==> x.occurrences[i] in x.occurrences;
      SpansAfter(x, y, goods, later, db.clock);
    } else {
      OneOccurrenceSpansNothing(y, goods, later, db.clock);
    }
  }

  // ---------------------------------------------------------------- whole runs

  /** The alert is counted on although a Good came after its last occurrence. */
  ghost predicate Bridges(db: Db, a: Action, id: int) {
    CountsOnto(db, a, id) && GoodSince(db.alerts[id], db.goods)
  }

  /** Some action of the run does so. */
  ghost predicate EverBridges(actions: seq<Action>, id: int) {
    if actions == [] then false
    else
      var before := actions[..|actions| - 1];
      EverBridges(before, id) || Bridges(After(before), actions[|actions| - 1], id)
  }

  lemma {:induction false} OnlyKnownIdsBridge(actions: seq<Action>, id: int)
    requires EverBridges(actions, id)
    ensures id < After(actions).nextId
  {
    var before := actions[..|actions| - 1];
    AfterIsSafe(before);
    IdsAreNew(After(before), actions[|actions| - 1]);
    if EverBridges(before, id) { OnlyKnownIdsBridge(before, id); }
  }

  /** After any run an alert spans a Good exactly if at some point of the run it was counted on although
      a Good of its condition had been recorded after its last occurrence. */
  lemma {:induction false} SpanningRunsExactly(actions: seq<Action>, id: int)
    requires id in After(actions).alerts
    ensures Spans(After(actions).alerts[id], After(actions).goods) <==> EverBridges(actions, id)
  {
    if actions != [] {
      var before := actions[..|actions| - 1];
      AfterIsSafe(before);
      AfterKeepsHistory(before);
      SpansExactly(After(before), actions[|actions| - 1], id);
      if id in After(before).alerts {
        SpanningRunsExactly(before, id);
      } else {
        IdsAreNew(After(before), actions[|actions| - 1]);
        if EverBridges(before, id) { OnlyKnownIdsBridge(before, id); }
      }
    }
  }

  /** Only an alert that was reopened can be counted on after a Good. */
  lemma OnlyReopenedBridge(actions: seq<Action>, a: Action, id: int)
    requires Bridges(After(actions), a, id)
    ensures After(actions).alerts[id].reopened && After(actions).alerts[id].firing
  {
    var db := After(actions);
    AfterIsSafe(actions);
    AfterKeepsHistory(actions);
    var x := db.alerts[id];
    var g :| g in db.goods && Past(g, x);
    assert x.occurrences[0] in x.occurrences;
    CountedOnFires(db, a, id);
  }

  lemma CountedOnFires(db: Db, a: Action, id: int)
    requires IndexOk(db) && CountsOnto(db, a, id)
    ensures db.alerts[id].firing
  {
    if !Counts(a) { OthersAreQuiet(db, a); }
  }
}
