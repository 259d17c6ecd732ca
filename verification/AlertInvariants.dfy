/** What every alert transaction keeps, and what follows for whole runs. */
module AlertInvariants {
  import opened Options
  import opened AlertModel

  // ---------------------------------------------------------------- the outbox of one alert

  ghost predicate ResolvedLater(outbox: seq<Notice>, i: nat)
    requires i < |outbox|
  {
    exists j :: i < j < |outbox| && !outbox[j].firing && outbox[j].severity == outbox[i].severity
  }

  ghost predicate FiredEarlier(outbox: seq<Notice>, j: nat)
    requires j < |outbox|
  {
    exists i :: 0 <= i < j && IsDelivered(outbox[i], outbox[j].severity)
  }

  /** Every resolution answers an earlier handed-off firing of its severity. */
  ghost predicate Answers(outbox: seq<Notice>) {
    forall j :: 0 <= j < |outbox| && !outbox[j].firing ==> FiredEarlier(outbox, j)
  }

  /** Nothing is left to fire, and every handed-off firing is answered. */
  ghost predicate Settled(outbox: seq<Notice>) {
    forall i :: 0 <= i < |outbox| && outbox[i].firing ==>
      && outbox[i].state != Pending
      && (outbox[i].state == Delivered ==> ResolvedLater(outbox, i))
  }

  /** `later` adds rows and moves states on, but undoes no hand-off. */
  ghost predicate Grows(outbox: seq<Notice>, later: seq<Notice>) {
    && |outbox| <= |later|
    && forall i :: 0 <= i < |outbox| ==>
         && later[i].firing == outbox[i].firing && later[i].severity == outbox[i].severity
         && (outbox[i].state == Delivered ==> later[i].state == Delivered)
  }

  lemma GrowthKeepsAnswers(outbox: seq<Notice>, later: seq<Notice>)
    requires Answers(outbox) && Grows(outbox, later)
    requires forall j :: |outbox| <= j < |later| && !later[j].firing ==> HasDelivered(outbox, later[j].severity)
    ensures Answers(later)
  {
    forall j | 0 <= j < |later| && !later[j].firing
      ensures FiredEarlier(later, j)
    {
      if j < |outbox| {
        assert FiredEarlier(outbox, j);
        var i :| 0 <= i < j && IsDelivered(outbox[i], outbox[j].severity);
        assert IsDelivered(later[i], later[j].severity);
      } else {
        var n :| n in outbox && IsDelivered(n, later[j].severity);
        var i :| 0 <= i < |outbox| && outbox[i] == n;
        assert IsDelivered(later[i], later[j].severity);
      }
    }
  }

  lemma ResolveSettles(a: Alert, reason: Reason, at: int)
    requires Answers(a.outbox)
    ensures var after := Resolve(a, reason, at).outbox; Answers(after) && Settled(after)
  {
    var before, after := a.outbox, Resolve(a, reason, at).outbox;
    GrowthKeepsAnswers(before, after);
    forall i | 0 <= i < |after| && after[i].firing
      ensures after[i].state != Pending
      ensures after[i].state == Delivered ==> ResolvedLater(after, i)
    {
      if after[i].state == Delivered {
        assert before[i] in before && IsDelivered(before[i], after[i].severity);
        var j := if after[i].severity == Warning then |before| else |after| - 1;
        assert !after[j].firing && after[j].severity == after[i].severity;
      }
    }
  }

  lemma RetireKeepsAnswers(outbox: seq<Notice>, at: int)
    requires Answers(outbox)
    ensures Answers(RetireWarning(outbox, at))
  {
    GrowthKeepsAnswers(outbox, RetireWarning(outbox, at));
  }

  lemma DeliveryKeepsAnswers(outbox: seq<Notice>, k: nat, state: Delivery)
    requires k < |outbox| && outbox[k].state == Pending && Answers(outbox)
    ensures Answers(outbox[k := outbox[k].(state := state)])
  {
    GrowthKeepsAnswers(outbox, outbox[k := outbox[k].(state := state)]);
  }

  lemma DeliveryKeepsSettled(outbox: seq<Notice>, k: nat, state: Delivery)
    requires k < |outbox| && outbox[k].state == Pending && Settled(outbox)
    ensures Settled(outbox[k := outbox[k].(state := state)])
  {
    var after := outbox[k := outbox[k].(state := state)];
    forall i | 0 <= i < |after| && after[i].firing
      ensures after[i].state != Pending && (after[i].state == Delivered ==> ResolvedLater(after, i))
    {
      assert i != k && after[i] == outbox[i];
      if after[i].state == Delivered {
        var j :| i < j < |outbox| && !outbox[j].firing && outbox[j].severity == outbox[i].severity;
        assert !after[j].firing && after[j].severity == after[i].severity;
      }
    }
  }

  lemma {:induction false} LastFiringFires(outbox: seq<Notice>)
    ensures LastFiring(outbox).Some? ==> LastFiring(outbox).value.firing
  {
    if outbox != [] { LastFiringFires(outbox[..|outbox| - 1]); }
  }

  lemma RefireKeepsAnswers(outbox: seq<Notice>)
    requires Answers(outbox)
    ensures Answers(Refired(outbox))
  {
    LastFiringFires(outbox);
    GrowthKeepsAnswers(outbox, Refired(outbox));
  }

  // ---------------------------------------------------------------- one alert

  function KindOf(c: Condition): Kind {
    match c
    case AnomalyCondition(_, _, historical) => if historical then HistoricalAnomaly else Anomaly
    case CollectionCondition(_) => CollectionFailure
    case MonitoringCondition(_, _) => MonitoringImpaired
  }

  ghost predicate OccurrencesOk(a: Alert) {
    && (forall i, j :: 0 <= i < j < |a.occurrences| ==> a.occurrences[i].key != a.occurrences[j].key)
    && (forall o :: o in a.occurrences ==> (o.key.ChunkKey? <==> a.condition.AnomalyCondition?))
  }

  /** A firing anomaly has a chunk nobody accepted; one closed as accepted has none. */
  ghost predicate ReviewOk(a: Alert) {
    && (a.firing <==> a.reason.None?)
    && (a.condition.AnomalyCondition? && a.firing ==> !AllAccepted(a))
    && (a.reason == Some(AcceptedAsNormal) ==> a.condition.AnomalyCondition? && AllAccepted(a))
  }

  predicate CountsOk(a: Alert) {
    && (a.condition.AnomalyCondition? ==> a.occurrenceCount == |a.occurrences|)
    && (!a.condition.MonitoringCondition? ==> a.consecutiveCount == a.occurrenceCount)
    && |a.occurrences| <= a.occurrenceCount
  }

  ghost predicate AlertOk(a: Alert) {
    && a.kind == KindOf(a.condition)
    && Answers(a.outbox) && (!a.firing ==> Settled(a.outbox))
    && OccurrencesOk(a) && ReviewOk(a) && CountsOk(a)
  }

  function KeysOf(a: Alert): set<OccurrenceKey> {
    set o | o in a.occurrences :: o.key
  }

  // ---------------------------------------------------------------- the database

  ghost predicate IndexOk(db: Db) {
    && (forall id :: id in db.alerts ==> id < db.nextId)
    && (forall c :: c in db.firing ==>
          db.firing[c] in db.alerts && db.alerts[db.firing[c]].firing && db.alerts[db.firing[c]].condition == c)
    && (forall id :: id in db.alerts && db.alerts[id].firing ==>
          db.alerts[id].condition in db.firing && db.firing[db.alerts[id].condition] == id)
  }

  ghost predicate AlertsOk(db: Db) {
    forall id :: id in db.alerts ==> AlertOk(db.alerts[id])
  }

  /** No occurrence key is used twice: the unique index on occurrence keys. */
  ghost predicate KeysApart(db: Db) {
    forall x, y :: x in db.alerts && y in db.alerts && x != y ==> KeysOf(db.alerts[x]) !! KeysOf(db.alerts[y])
  }

  ghost predicate Safe(db: Db) {
    IndexOk(db) && AlertsOk(db) && KeysApart(db)
  }

  lemma ResolveKeepsAlert(a: Alert, reason: Reason, at: int)
    requires AlertOk(a)
    requires reason == AcceptedAsNormal ==> a.condition.AnomalyCondition? && AllAccepted(a)
    ensures AlertOk(Resolve(a, reason, at)) && KeysOf(Resolve(a, reason, at)) == KeysOf(a)
  {
    ResolveSettles(a, reason, at);
  }

  /** `after` keeps every alert with its condition and occurrences, and stops those of
      `closed` from firing. */
  ghost predicate Closes(db: Db, after: Db, closed: set<Condition>) {
    && after.alerts.Keys == db.alerts.Keys && after.nextId == db.nextId && after.firing == db.firing - closed
    && forall id :: id in db.alerts ==>
         && after.alerts[id].condition == db.alerts[id].condition
         && KeysOf(after.alerts[id]) == KeysOf(db.alerts[id])
         && (after.alerts[id].firing <==> db.alerts[id].firing && db.alerts[id].condition !in closed)
  }

  lemma ClosingKeepsSafe(db: Db, after: Db, closed: set<Condition>)
    requires Safe(db) && Closes(db, after, closed)
    requires forall id :: id in after.alerts ==> AlertOk(after.alerts[id])
    ensures Safe(after)
  {
    forall c | c in after.firing
      ensures after.firing[c] in after.alerts
      ensures after.alerts[after.firing[c]].firing && after.alerts[after.firing[c]].condition == c
    {
      assert c in db.firing && after.firing[c] == db.firing[c];
      assert db.firing[c] in db.alerts;
    }
  }

  lemma SaveKeepsSafe(db: Db, id: int, a: Alert)
    requires Safe(db) && id in db.alerts && AlertOk(a)
    requires a.condition == db.alerts[id].condition && a.firing == db.alerts[id].firing
             && KeysOf(a) == KeysOf(db.alerts[id])
    ensures Safe(Save(db, id, a))
  {
    ClosingKeepsSafe(db, Save(db, id, a), {});
  }

  lemma ResolveIdKeepsSafe(db: Db, id: int, reason: Reason, at: int)
    requires Safe(db) && id in db.alerts && db.alerts[id].firing && reason != AcceptedAsNormal
    ensures Safe(ResolveId(db, id, reason, at))
  {
    ResolveKeepsAlert(db.alerts[id], reason, at);
    ClosingKeepsSafe(db, ResolveId(db, id, reason, at), {db.alerts[id].condition});
  }

  lemma ResolveConditionKeepsIndex(db: Db, c: Condition, reason: Reason, at: int)
    requires IndexOk(db)
    ensures IndexOk(ResolveCondition(db, c, reason, at))
  {
  }

  lemma ResolveConditionKeepsSafe(db: Db, c: Condition, reason: Reason, at: int)
    requires Safe(db) && reason != AcceptedAsNormal
    ensures Safe(ResolveCondition(db, c, reason, at))
  {
    if c in db.firing { ResolveIdKeepsSafe(db, db.firing[c], reason, at); }
  }

  lemma ResolveAllKeepsSafe(db: Db, cs: set<Condition>, reason: Reason, at: int)
    requires Safe(db) && reason != AcceptedAsNormal
    ensures Safe(ResolveAll(db, cs, reason, at))
  {
    var after := ResolveAll(db, cs, reason, at);
    forall id | id in db.alerts
      ensures AlertOk(after.alerts[id]) && KeysOf(after.alerts[id]) == KeysOf(db.alerts[id])
    {
      ResolveKeepsAlert(db.alerts[id], reason, at);
    }
    ClosingKeepsSafe(db, after, cs);
  }

  // ---------------------------------------------------------------- opening and counting

  lemma EnsureKeepsIndex(db: Db, c: Condition, kind: Kind)
    requires IndexOk(db)
    ensures var after, id := EnsureAlert(db, c, kind), IdFor(db, c);
            && IndexOk(after) && id in after.alerts && c in after.firing && after.firing[c] == id
            && after.alerts[id] == (if c in db.firing then db.alerts[id] else Opened(c, kind))
            && (forall x :: x in after.alerts && x != id ==> x in db.alerts && after.alerts[x] == db.alerts[x])
            && (id in db.alerts <==> c in db.firing)
  {
  }

  lemma SaveKeepsIndex(db: Db, id: int, a: Alert)
    requires IndexOk(db) && id in db.alerts && a.firing && db.alerts[id].firing
             && a.condition == db.alerts[id].condition
    ensures IndexOk(Save(db, id, a))
  {
  }

  lemma GainKeepsKeysApart(db: Db, id: int, a: Alert, gained: set<OccurrenceKey>)
    requires KeysApart(db) && (if id in db.alerts then KeysOf(a) == KeysOf(db.alerts[id]) + gained
                                 else KeysOf(a) == gained)
    requires forall key :: key in gained ==> !HasOccurrence(db, key)
    ensures KeysApart(Save(db, id, a))
  {
    forall x | x in db.alerts
      ensures KeysOf(db.alerts[x]) !! gained
    {
      assert forall o :: o in db.alerts[x].occurrences ==> o.key !in gained;
    }
  }

  /** A firing alert gains a notice, and perhaps an occurrence that no alert had before. */
  lemma GainKeepsSafe(db: Db, c: Condition, a: Alert, gained: set<OccurrenceKey>)
    requires Safe(db) && AlertOk(a) && a.firing && a.condition == c
    requires var after, id := EnsureAlert(db, c, KindOf(c)), IdFor(db, c);
             id in after.alerts && KeysOf(a) == KeysOf(after.alerts[id]) + gained
    requires forall key :: key in gained ==> !HasOccurrence(db, key)
    ensures var after, id := EnsureAlert(db, c, KindOf(c)), IdFor(db, c); Safe(Save(after, id, a))
  {
    EnsureKeepsIndex(db, c, KindOf(c));
    var after, id := EnsureAlert(db, c, KindOf(c)), IdFor(db, c);
    SaveKeepsIndex(after, id, a);
    GainKeepsKeysApart(db, id, a, gained);
    assert Save(after, id, a).alerts == Save(db, id, a).alerts;
  }

  /** What an alert that is about to gain an occurrence already satisfies. */
  ghost predicate Gaining(a: Alert, c: Condition) {
    && a.condition == c && a.kind == KindOf(c) && a.firing && a.reason.None?
    && Answers(a.outbox) && OccurrencesOk(a) && CountsOk(a)
  }

  lemma EnsuredIsGaining(db: Db, c: Condition)
    requires Safe(db)
    ensures var after, id := EnsureAlert(db, c, KindOf(c)), IdFor(db, c);
            id in after.alerts && Gaining(after.alerts[id], c)
    ensures var after, id := EnsureAlert(db, c, KindOf(c)), IdFor(db, c);
            forall key :: key in KeysOf(after.alerts[id]) ==> HasOccurrence(db, key)
  {
    EnsureKeepsIndex(db, c, KindOf(c));
  }

  lemma WithOccurrenceKeys(a: Alert, key: OccurrenceKey, seen: nat)
    ensures KeysOf(WithOccurrence(a, key, seen)) == KeysOf(a) + {key}
  {
    var b := WithOccurrence(a, key, seen);
    assert b.occurrences[|a.occurrences|] in b.occurrences;
    assert forall o :: o in a.occurrences ==> o in b.occurrences;
  }

  lemma CountedKeepsAnswers(a: Alert, count: nat, consecutive: nat, severity: Severity, escalates: bool, at: int)
    requires Answers(a.outbox)
    ensures Answers(Counted(a, count, consecutive, severity, escalates, at).outbox)
  {
    RetireKeepsAnswers(a.outbox, at);
    var outbox := if escalates then RetireWarning(a.outbox, at) else a.outbox;
    GrowthKeepsAnswers(outbox, outbox + [Notice(true, severity, 0, Pending)]);
  }

  lemma WithOccurrenceOk(a: Alert, key: OccurrenceKey, seen: nat)
    requires OccurrencesOk(a) && key !in KeysOf(a) && (key.ChunkKey? <==> a.condition.AnomalyCondition?)
    ensures OccurrencesOk(WithOccurrence(a, key, seen))
    ensures key.ChunkKey? ==> !AllAccepted(WithOccurrence(a, key, seen))
  {
    var b := WithOccurrence(a, key, seen);
    var last := b.occurrences[|a.occurrences|];
    assert last in b.occurrences && last.override != Some(true);
    forall i | 0 <= i < |a.occurrences|
      ensures a.occurrences[i].key != key
    {
      assert a.occurrences[i] in a.occurrences;
    }
  }

  /** `b` is the alert `a` with perhaps one more occurrence, under a new key. */
  ghost predicate Gained(db: Db, a: Alert, b: Alert, gained: set<OccurrenceKey>) {
    && OccurrencesOk(b) && KeysOf(b) == KeysOf(a) + gained
    && |a.occurrences| <= |b.occurrences| <= |a.occurrences| + 1
    && forall key :: key in gained ==> !HasOccurrence(db, key)
  }

  lemma CountedIsOk(a: Alert, b: Alert, c: Condition, count: nat, consecutive: nat, severity: Severity,
                    escalates: bool, at: int)
    requires Gaining(a, c) && b == a.(occurrences := b.occurrences) && OccurrencesOk(b)
    requires |a.occurrences| <= |b.occurrences| <= |a.occurrences| + 1 && count == a.occurrenceCount + 1
    requires c.AnomalyCondition? ==> |b.occurrences| == |a.occurrences| + 1 && !AllAccepted(b)
    requires !c.MonitoringCondition? ==> consecutive == count
    ensures AlertOk(Counted(b, count, consecutive, severity, escalates, at))
    ensures KeysOf(Counted(b, count, consecutive, severity, escalates, at)) == KeysOf(b)
  {
    CountedKeepsAnswers(b, count, consecutive, severity, escalates, at);
  }

  lemma AnomalyKeepsSafe(db: Db, c: Condition, key: OccurrenceKey, count: nat, severity: Severity, escalates: bool,
                         at: int)
    requires Safe(db) && c.AnomalyCondition? && key.ChunkKey? && !HasOccurrence(db, key)
    requires var after, id := EnsureAlert(db, c, KindOf(c)), IdFor(db, c);
             id in after.alerts && count == after.alerts[id].occurrenceCount + 1
    ensures var after, id := EnsureAlert(db, c, KindOf(c)), IdFor(db, c);
            Safe(Save(after, id, Counted(WithOccurrence(after.alerts[id], key, db.clock), count, count, severity,
                                         escalates, at)))
  {
    EnsuredIsGaining(db, c);
    var after, id := EnsureAlert(db, c, KindOf(c)), IdFor(db, c);
    var a := after.alerts[id];
    WithOccurrenceKeys(a, key, db.clock);
    WithOccurrenceOk(a, key, db.clock);
    CountedIsOk(a, WithOccurrence(a, key, db.clock), c, count, count, severity, escalates, at);
    GainKeepsSafe(db, c, Counted(WithOccurrence(a, key, db.clock), count, count, severity, escalates, at), {key});
  }

  lemma AddedAnomaly(db: Db, c: Condition, key: OccurrenceKey, threshold: int, at: int)
    requires IdFor(db, c) in EnsureAlert(db, c, KindOf(c)).alerts
    ensures var after, id := EnsureAlert(db, c, KindOf(c)), IdFor(db, c);
            var count := after.alerts[id].occurrenceCount + 1;
            var severity := if c !in db.firing then Warning else SeverityFor(count, threshold);
            AddAnomaly(db, c, KindOf(c), key, threshold, at) ==
              Save(after, id, Counted(WithOccurrence(after.alerts[id], key, db.clock), count, count, severity,
                                      severity == Critical && count == threshold, at))
  {
  }

  lemma AddAnomalyKeepsSafe(db: Db, c: Condition, key: OccurrenceKey, threshold: int, at: int)
    requires Safe(db) && c.AnomalyCondition? && key.ChunkKey? && !HasOccurrence(db, key)
    ensures Safe(AddAnomaly(db, c, KindOf(c), key, threshold, at))
  {
    EnsureKeepsIndex(db, c, KindOf(c));
    AddedAnomaly(db, c, key, threshold, at);
    var after, id := EnsureAlert(db, c, KindOf(c)), IdFor(db, c);
    var count := after.alerts[id].occurrenceCount + 1;
    var severity := if c !in db.firing then Warning else SeverityFor(count, threshold);
    AnomalyKeepsSafe(db, c, key, count, severity, severity == Critical && count == threshold, at);
  }

  lemma NotedIsGained(db: Db, a: Alert, c: Condition, key: OccurrenceKey) returns (gained: set<OccurrenceKey>)
    requires Gaining(a, c) && !c.AnomalyCondition? && !key.ChunkKey?
    requires forall k :: k in KeysOf(a) ==> HasOccurrence(db, k)
    ensures Gained(db, a, Noted(db, a, key), gained)
  {
    if HasOccurrence(db, key) {
      gained := {};
    } else {
      gained := {key};
      WithOccurrenceKeys(a, key, db.clock);
      WithOccurrenceOk(a, key, db.clock);
    }
  }

  lemma FailureKeepsSafe(db: Db, c: Condition, key: OccurrenceKey, count: nat, consecutive: nat, severity: Severity,
                         escalates: bool, at: int)
    requires Safe(db) && !c.AnomalyCondition? && !key.ChunkKey?
    requires var after, id := EnsureAlert(db, c, KindOf(c)), IdFor(db, c);
             id in after.alerts && count == after.alerts[id].occurrenceCount + 1
    requires !c.MonitoringCondition? ==> consecutive == count
    ensures var after, id := EnsureAlert(db, c, KindOf(c)), IdFor(db, c);
            Safe(Save(after, id, Counted(Noted(db, after.alerts[id], key), count, consecutive, severity, escalates,
                                         at)))
  {
    EnsuredIsGaining(db, c);
    var after, id := EnsureAlert(db, c, KindOf(c)), IdFor(db, c);
    var a := after.alerts[id];
    var gained := NotedIsGained(db, a, c, key);
    CountedIsOk(a, Noted(db, a, key), c, count, consecutive, severity, escalates, at);
    GainKeepsSafe(db, c, Counted(Noted(db, a, key), count, consecutive, severity, escalates, at), gained);
  }

  lemma AddedCollectionFailure(db: Db, c: Condition, key: OccurrenceKey, threshold: int, now: int)
    requires IdFor(db, c) in EnsureAlert(db, c, CollectionFailure).alerts
    ensures var after, id := EnsureAlert(db, c, CollectionFailure), IdFor(db, c);
            var count := after.alerts[id].consecutiveCount + 1;
            var severity := SeverityFor(count, threshold);
            AddCollectionFailure(db, c, key, threshold, now) ==
              Save(after, id, Counted(Noted(db, after.alerts[id], key), after.alerts[id].occurrenceCount + 1, count,
                                      severity, severity == Critical && count == threshold, now))
  {
  }

  lemma AddCollectionFailureKeepsSafe(db: Db, c: Condition, key: OccurrenceKey, threshold: int, now: int)
    requires Safe(db) && c.CollectionCondition? && key.AttemptKey?
    ensures Safe(AddCollectionFailure(db, c, key, threshold, now))
  {
    EnsuredIsGaining(db, c);
    AddedCollectionFailure(db, c, key, threshold, now);
    var after, id := EnsureAlert(db, c, CollectionFailure), IdFor(db, c);
    var count := after.alerts[id].occurrenceCount + 1;
    var severity := SeverityFor(count, threshold);
    FailureKeepsSafe(db, c, key, count, count, severity, severity == Critical && count == threshold, now);
  }

  lemma AddedMonitoringFailure(db: Db, c: Condition, key: OccurrenceKey, threshold: int, now: int)
    requires IdFor(db, c) in EnsureAlert(db, c, MonitoringImpaired).alerts
    ensures var after, id := EnsureAlert(db, c, MonitoringImpaired), IdFor(db, c);
            var count := after.alerts[id].occurrenceCount + 1;
            var severity := if c !in db.firing then Warning else SeverityFor(count, threshold);
            AddMonitoringFailure(db, c, key, threshold, now) ==
              Save(after, id, Counted(Noted(db, after.alerts[id], key), count, after.alerts[id].consecutiveCount,
                                      severity, count == threshold, now))
  {
  }

  lemma AddMonitoringFailureKeepsSafe(db: Db, c: Condition, key: OccurrenceKey, threshold: int, now: int)
    requires Safe(db) && c.MonitoringCondition? && key.FailureKey?
    ensures Safe(AddMonitoringFailure(db, c, key, threshold, now))
  {
    EnsureKeepsIndex(db, c, MonitoringImpaired);
    AddedMonitoringFailure(db, c, key, threshold, now);
    var after, id := EnsureAlert(db, c, MonitoringImpaired), IdFor(db, c);
    var count := after.alerts[id].occurrenceCount + 1;
    var severity := if c !in db.firing then Warning else SeverityFor(count, threshold);
    FailureKeepsSafe(db, c, key, count, after.alerts[id].consecutiveCount, severity, count == threshold, now);
  }

  // ---------------------------------------------------------------- review, delivery, upkeep

  lemma SameKeys(a: Alert, b: Alert)
    requires |a.occurrences| == |b.occurrences|
    requires forall i :: 0 <= i < |a.occurrences| ==> a.occurrences[i].key == b.occurrences[i].key
    ensures KeysOf(a) <= KeysOf(b)
  {
    forall o | o in a.occurrences
      ensures o.key in KeysOf(b)
    {
      var i :| 0 <= i < |a.occurrences| && a.occurrences[i] == o;
      assert b.occurrences[i] in b.occurrences;
    }
  }

  lemma ReviewedKeys(a: Alert, k: nat, accept: bool)
    requires k < |a.occurrences| && OccurrencesOk(a)
    ensures KeysOf(Reviewed(a, k, accept)) == KeysOf(a) && OccurrencesOk(Reviewed(a, k, accept))
    ensures a.occurrences[k].key.ChunkKey? && !accept ==> !AllAccepted(Reviewed(a, k, accept))
  {
    var b := Reviewed(a, k, accept);
    SameKeys(a, b);
    SameKeys(b, a);
    forall o | o in b.occurrences
      ensures o.key.ChunkKey? <==> a.condition.AnomalyCondition?
    {
      var i :| 0 <= i < |b.occurrences| && b.occurrences[i] == o;
      assert a.occurrences[i] in a.occurrences;
    }
    assert b.occurrences[k] in b.occurrences;
  }

  lemma AcceptedStayAccepted(a: Alert, k: nat)
    requires k < |a.occurrences| && AllAccepted(a)
    ensures AllAccepted(Reviewed(a, k, true))
  {
  }

  lemma ReopenKeepsSafe(db: Db, id: int, a: Alert)
    requires Safe(db) && id in db.alerts && !db.alerts[id].firing && a.condition !in db.firing
    requires a.condition == db.alerts[id].condition && KeysOf(a) == KeysOf(db.alerts[id])
    requires OccurrencesOk(a) && CountsOk(a) && Answers(a.outbox) && a.kind == KindOf(a.condition)
    requires a.condition.AnomalyCondition? ==> !AllAccepted(a)
    ensures Safe(Save(db, id, Reopen(a)).(firing := db.firing[a.condition := id]))
  {
    RefireKeepsAnswers(a.outbox);
  }

  lemma AcceptKeepsSafe(db: Db, id: int, k: nat, a: Alert, resolved: bool, now: int)
    requires Safe(db) && id in db.alerts && k < |db.alerts[id].occurrences|
    requires a == Reviewed(db.alerts[id], k, true).(anchor := a.anchor) && KeysOf(a) == KeysOf(db.alerts[id])
             && OccurrencesOk(a)
    requires db.alerts[id].occurrences[k].key.ChunkKey?
    requires resolved <==> a.firing && AllAccepted(a)
    ensures Safe(if resolved then ResolveId(Save(db, id, a), id, AcceptedAsNormal, now) else Save(db, id, a))
  {
    var before := db.alerts[id];
    assert before.occurrences[k] in before.occurrences;
    if resolved {
      ResolveSettles(a, AcceptedAsNormal, now);
      ClosingKeepsSafe(db, ResolveId(Save(db, id, a), id, AcceptedAsNormal, now), {a.condition});
    } else {
      if before.reason == Some(AcceptedAsNormal) { AcceptedStayAccepted(before, k); }
      SaveKeepsSafe(db, id, a);
    }
  }

  lemma RevertKeepsSafe(db: Db, id: int, k: nat, a: Alert, reopened: bool)
    requires Safe(db) && id in db.alerts && k < |db.alerts[id].occurrences|
    requires a == Reviewed(db.alerts[id], k, false).(anchor := a.anchor) && KeysOf(a) == KeysOf(db.alerts[id])
             && OccurrencesOk(a)
    requires !AllAccepted(a) && (reopened <==> !a.firing && a.reason == Some(AcceptedAsNormal))
    requires reopened ==> a.condition !in db.firing
    ensures Safe(if reopened then Save(db, id, Reopen(a)).(firing := db.firing[a.condition := id]) else Save(db, id, a))
  {
    if reopened { ReopenKeepsSafe(db, id, a); } else { SaveKeepsSafe(db, id, a); }
  }

  lemma ReviewKeepsSafe(db: Db, id: int, k: nat, expectedRevision: int, accept: bool, now: int)
    requires Safe(db) && id in db.alerts && k < |db.alerts[id].occurrences|
             && db.alerts[id].occurrences[k].key.ChunkKey?
    ensures Safe(DoReview(db, id, k, expectedRevision, accept, now))
  {
    var reviewed := Reviewed(db.alerts[id], k, accept);
    var a := if reviewed.firing then reviewed else reviewed.(anchor := now);
    ReviewedKeys(db.alerts[id], k, accept);
    match ReviewOf(db, id, k, expectedRevision, accept)
    case Accepted(resolved) => AcceptKeepsSafe(db, id, k, a, resolved, now);
    case Reverted(reopened) => RevertKeepsSafe(db, id, k, a, reopened);
    case _ =>
  }

  lemma DeliverKeepsSafe(db: Db, id: int, k: nat, accepted: bool, now: int)
    requires Safe(db) && id in db.alerts && k < |db.alerts[id].outbox|
    ensures Safe(DoDeliver(db, id, k, accepted, now))
  {
    var a := db.alerts[id];
    var n := a.outbox[k];
    if n.state == Pending {
      if !(!a.firing && n.endsAt == 0) && a.kind == HistoricalAnomaly && n.endsAt == 0 {
        ResolveIdKeepsSafe(db, id, HistoricalDisabled, now);
      } else {
        var state := if !a.firing && n.endsAt == 0 then Missed else Delivered;
        DeliveryKeepsAnswers(a.outbox, k, state);
        if !a.firing { DeliveryKeepsSettled(a.outbox, k, state); }
        var outbox := a.outbox[k := n.(state := state)];
        SaveKeepsSafe(db, id, a.(outbox := outbox));
        SaveKeepsSafe(db, id, a.(outbox := outbox, lastHandoff := Some(now), handoffs := a.handoffs + [k]));
      }
    }
  }

  lemma RefreshesKeepSafe(db: Db, before: int)
    requires Safe(db)
    ensures Safe(DoEnqueueRefreshes(db, before))
  {
    var after := DoEnqueueRefreshes(db, before);
    forall id | id in db.alerts
      ensures AlertOk(after.alerts[id])
    {
      RefireKeepsAnswers(db.alerts[id].outbox);
    }
    ClosingKeepsSafe(db, after, {});
  }

  lemma DeletionKeepsSafe(db: Db, before: int)
    requires Safe(db)
    ensures Safe(DoDeleteExpired(db, before))
  {
  }

  // ---------------------------------------------------------------- every transaction

  lemma RecordKeepsSafe(db: Db, service: int, indicator: int, timestamp: int, historical: bool, threshold: int)
    requires Safe(db)
    ensures Safe(DoRecordGood(db, service, indicator, timestamp))
    ensures Safe(DoRecordAnomaly(db, service, indicator, timestamp, historical, threshold))
  {
    ResolveConditionKeepsSafe(db, MonitoringCondition(service, ANOMALY_ANALYSIS), MonitoringRecovered, timestamp);
    var base := Recovered(db, service, timestamp);
    ResolveConditionKeepsSafe(base, AnomalyCondition(service, indicator, false), GoodChunk, timestamp);
    var key := ChunkKey(service, indicator, timestamp);
    if !HasOccurrence(base, key) {
      AddAnomalyKeepsSafe(base, AnomalyCondition(service, indicator, historical), key, threshold, timestamp);
    }
  }

  lemma TransactionKeepsSafe(db: Db, a: Action)
    requires Safe(db)
    ensures Safe(Transaction(db, a))
  {
    match a
    case RecordGood(service, indicator, at) => RecordKeepsSafe(db, service, indicator, at, false, 0);
    case RecordAnomaly(service, indicator, timestamp, historical, threshold) =>
      RecordKeepsSafe(db, service, indicator, timestamp, historical, threshold);
    case RecordCollectionFailure(service, start, end, attempt, threshold, now) =>
      AddCollectionFailureKeepsSafe(db, CollectionCondition(service), AttemptKey(service, start, end, attempt),
                                    threshold, now);
    case RecordMonitoringFailure(service, operation, at, threshold, now) =>
      AddMonitoringFailureKeepsSafe(db, MonitoringCondition(service, operation), FailureKey(service, operation, at),
                                    threshold, now);
    case ResolveCollection(service, at) =>
      ResolveConditionKeepsSafe(db, CollectionCondition(service), CollectionRecovered, at);
    case ResolveMonitoring(service, operation, at) =>
      ResolveConditionKeepsSafe(db, MonitoringCondition(service, operation), MonitoringRecovered, at);
    case InterruptAnomalies(service, at) =>
      ResolveAllKeepsSafe(db, (set c | c in db.firing && c.service == service && c.AnomalyCondition? && !c.historical),
                          MonitoringInterrupted, at);
    case CloseService(service, paused, at) =>
      ResolveAllKeepsSafe(db, (set c | c in db.firing && c.service == service),
                          if paused then MonitoringPaused else ServiceRemoved, at);
    case Review(id, k, expectedRevision, accept, now) =>
      if Reviewable(db, id, k) {
        ReviewKeepsSafe(db, id, k, expectedRevision, accept, now);
      }
    case Deliver(id, k, accepted, now) =>
      if id in db.alerts && 0 <= k < |db.alerts[id].outbox| { DeliverKeepsSafe(db, id, k, accepted, now); }
    case EnqueueRefreshes(before) => RefreshesKeepSafe(db, before);
    case DeleteExpired(before) => DeletionKeepsSafe(db, before);
  }

  lemma NextKeepsSafe(db: Db, a: Action)
    requires Safe(db)
    ensures Safe(Next(db, a))
  {
    TransactionKeepsSafe(db, a);
  }

  lemma {:induction false} AfterIsSafe(actions: seq<Action>)
    ensures Safe(After(actions))
  {
    if actions != [] {
      AfterIsSafe(actions[..|actions| - 1]);
      NextKeepsSafe(After(actions[..|actions| - 1]), actions[|actions| - 1]);
    }
  }

  // ---------------------------------------------------------------- what holds after any run

  /** At most one alert of a condition fires, and the index finds it. */
  lemma OneAlertFiresPerCondition(actions: seq<Action>, x: int, y: int)
    requires var db := After(actions); x in db.alerts && y in db.alerts && db.alerts[x].firing && db.alerts[y].firing
    requires After(actions).alerts[x].condition == After(actions).alerts[y].condition
    ensures x == y
  {
    AfterIsSafe(actions);
  }

  /** A firing anomaly has a chunk that nobody accepted; one resolved as accepted has only accepted ones. */
  lemma ReviewDecidesFiring(actions: seq<Action>, id: int)
    requires id in After(actions).alerts && After(actions).alerts[id].condition.AnomalyCondition?
    ensures var a := After(actions).alerts[id];
            && (a.firing ==> exists o :: o in a.occurrences && o.key.ChunkKey? && o.override != Some(true))
            && (!a.firing && a.reason == Some(AcceptedAsNormal) ==> forall o :: o in a.occurrences ==>
                  o.override == Some(true))
  {
    AfterIsSafe(actions);
  }

  /** A resolved alert fires nothing more, and each severity it fired with is resolved. */
  lemma ResolvedAlertsAreSettled(actions: seq<Action>, id: int, i: nat)
    requires id in After(actions).alerts && !After(actions).alerts[id].firing
    requires i < |After(actions).alerts[id].outbox| && After(actions).alerts[id].outbox[i].firing
    ensures var outbox := After(actions).alerts[id].outbox;
            && outbox[i].state != Pending
            && (outbox[i].state == Delivered ==>
                  exists j :: i < j < |outbox| && !outbox[j].firing && outbox[j].severity == outbox[i].severity)
  {
    AfterIsSafe(actions);
    assert ResolvedLater(After(actions).alerts[id].outbox, i) || After(actions).alerts[id].outbox[i].state == Missed;
  }

  /** Nothing is resolved at the receiver that was not handed to it before. */
  lemma ResolutionsAnswerFirings(actions: seq<Action>, id: int, j: nat)
    requires id in After(actions).alerts
    requires j < |After(actions).alerts[id].outbox| && !After(actions).alerts[id].outbox[j].firing
    ensures var outbox := After(actions).alerts[id].outbox;
            exists i ::
                  0 <= i < j && outbox[i].firing && outbox[i].state == Delivered
                  && outbox[i].severity == outbox[j].severity
  {
    AfterIsSafe(actions);
    assert FiredEarlier(After(actions).alerts[id].outbox, j);
  }

  /** The count is the number of occurrence rows, and no chunk is in two of them. */
  lemma ChunksCountOnce(actions: seq<Action>, x: int, i: nat, y: int, j: nat)
    requires var db := After(actions); x in db.alerts && y in db.alerts && db.alerts[x].condition.AnomalyCondition?
    requires i < |After(actions).alerts[x].occurrences| && j < |After(actions).alerts[y].occurrences|
    ensures After(actions).alerts[x].occurrenceCount == |After(actions).alerts[x].occurrences|
    ensures After(actions).alerts[x].occurrences[i].key == After(actions).alerts[y].occurrences[j].key ==>
              x == y && i == j
  {
    AfterIsSafe(actions);
    var a, b := After(actions).alerts[x], After(actions).alerts[y];
    assert a.occurrences[i] in a.occurrences && b.occurrences[j] in b.occurrences;
    assert a.occurrences[i].key in KeysOf(a) && b.occurrences[j].key in KeysOf(b);
  }

  // ---------------------------------------------------------------- what one analysis result does

  lemma ResolvedConditionIsClosed(db: Db, c: Condition, reason: Reason, at: int, id: int)
    requires IndexOk(db)
    ensures var after := ResolveCondition(db, c, reason, at);
            && c !in after.firing && after.alerts.Keys == db.alerts.Keys
            && (id in db.alerts && db.alerts[id].condition != c ==> after.alerts[id] == db.alerts[id])
  {
  }

  /** After a live Good neither its anomaly nor the impairment of analysis fires for it, and no alert of
      another condition has changed. */
  lemma GoodClosesItsConditions(actions: seq<Action>, service: int, indicator: int, at: int, id: int)
    requires id in After(actions).alerts
    ensures var before, after := After(actions).alerts[id],
            Next(After(actions), RecordGood(service, indicator, at)).alerts;
            && id in after
            && (if before.condition == AnomalyCondition(service, indicator, false)
                   || before.condition == MonitoringCondition(service, ANOMALY_ANALYSIS)
                then after[id].condition == before.condition && !after[id].firing
                else after[id] == before)
  {
    var db := After(actions);
    AfterIsSafe(actions);
    ResolveConditionKeepsIndex(db, MonitoringCondition(service, ANOMALY_ANALYSIS), MonitoringRecovered, at);
    ResolvedConditionIsClosed(db, MonitoringCondition(service, ANOMALY_ANALYSIS), MonitoringRecovered, at, id);
    var base := Recovered(db, service, at);
    ResolvedConditionIsClosed(base, AnomalyCondition(service, indicator, false), GoodChunk, at, id);
    ResolveConditionKeepsIndex(base, AnomalyCondition(service, indicator, false), GoodChunk, at);
  }

  /** The condition's alert fires, its last occurrence has the key, and its last outbox row fires for it. */
  ghost predicate FiresFor(db: Db, c: Condition, key: OccurrenceKey) {
    && c in db.firing && db.firing[c] in db.alerts
    && var a := db.alerts[db.firing[c]];
       && a.firing && |a.occurrences| > 0 && a.occurrences[|a.occurrences| - 1].key == key
       && |a.outbox| > 0 && a.outbox[|a.outbox| - 1] == Notice(true, a.severity, 0, Pending)
  }

  lemma AnomalyIsAppended(db: Db, c: Condition, key: OccurrenceKey, threshold: int, at: int)
    requires Safe(db) && c.AnomalyCondition?
    ensures var after := AddAnomaly(db, c, KindOf(c), key, threshold, at);
            FiresFor(after, c, key) && HasOccurrence(after, key)
  {
    EnsuredIsGaining(db, c);
    EnsureKeepsIndex(db, c, KindOf(c));
    var a := AddAnomaly(db, c, KindOf(c), key, threshold, at).alerts[IdFor(db, c)];
    assert a.occurrences[|a.occurrences| - 1] in a.occurrences;
  }

  /** After an anomaly its chunk is an occurrence of some retained alert; if it was of none before, the
      alert of its condition fires for it. */
  lemma AnomalyIsRecorded(actions: seq<Action>, service: int, indicator: int, timestamp: int, historical: bool,
                          threshold: int)
    ensures var key, c := ChunkKey(service, indicator, timestamp), AnomalyCondition(service, indicator, historical);
            var after := DoRecordAnomaly(After(actions), service, indicator, timestamp, historical, threshold);
            && HasOccurrence(after, key)
            && (!HasOccurrence(Recovered(After(actions), service, timestamp), key) ==> FiresFor(after, c, key))
  {
    AfterIsSafe(actions);
    ResolveConditionKeepsSafe(After(actions), MonitoringCondition(service, ANOMALY_ANALYSIS), MonitoringRecovered,
                              timestamp);
    var base, key := Recovered(After(actions), service, timestamp), ChunkKey(service, indicator, timestamp);
    if !HasOccurrence(base, key) {
      AnomalyIsAppended(base, AnomalyCondition(service, indicator, historical), key, threshold, timestamp);
    }
  }
}
