/** Runs that leave the receiver with the wrong picture of an alert. */
module AlertHandoffRuns {
  import opened Options
  import opened AlertModel
  import opened AlertInvariants
  import opened AlertHistory
  import opened AlertHandoff

  const FIRST: Condition := AnomalyCondition(1, 1, false)

  ghost predicate Only(db: Db, a: Alert) {
    db.alerts == map[0 := a] && db.firing == (if a.firing then map[FIRST := 0] else map[]) && a.condition == FIRST
    && a.kind == Anomaly
  }

  function Fired(at: int): Alert {
    Alert(FIRST, Anomaly, Warning, true, None, 0, 1, 1, None, [Occurrence(ChunkKey(1, 1, at), None, 0, 0)],
          [Notice(true, Warning, 0, Pending)], false, [])
  }

  function HandedOff(a: Alert, k: nat, now: int): Alert
    requires k < |a.outbox|
  {
    a.(outbox := a.outbox[k := a.outbox[k].(state := Delivered)], lastHandoff := Some(now),
       handoffs := a.handoffs + [k])
  }

  lemma FirstFires(threshold: int)
    ensures Only(After([RecordAnomaly(1, 1, 10, false, threshold)]), Fired(10))
  {
    FirstAnomaly(10, threshold);
    OneMore([], RecordAnomaly(1, 1, 10, false, threshold));
    assert [] + [RecordAnomaly(1, 1, 10, false, threshold)] == [RecordAnomaly(1, 1, 10, false, threshold)];
    var db := After([RecordAnomaly(1, 1, 10, false, threshold)]);
    assert db.alerts == map[0 := Fired(10)];
  }

  lemma OneDelivery(actions: seq<Action>, a: Alert, k: nat, now: int)
    requires Only(After(actions), a) && k < |a.outbox| && a.outbox[k].state == Pending
             && (a.firing || a.outbox[k].endsAt != 0)
    ensures Only(After(actions + [Deliver(0, k, true, now)]), HandedOff(a, k, now))
  {
    OneMore(actions, Deliver(0, k, true, now));
  }

  function Again(a: Alert, at: int, seen: nat, severity: Severity, outbox: seq<Notice>): Alert {
    var n := a.occurrenceCount + 1;
    WithOccurrence(a, ChunkKey(1, 1, at), seen).(occurrenceCount := n, consecutiveCount := n, severity := severity,
      outbox := outbox + [Notice(true, severity, 0, Pending)])
  }

  lemma CountsAgain(db: Db, a: Alert, at: int, threshold: int)
    requires Only(db, a) && a.firing
    ensures var severity := SeverityFor(a.occurrenceCount + 1, threshold);
            Only(AddAnomaly(db, FIRST, Anomaly, ChunkKey(1, 1, at), threshold, at),
                 Again(a, at, db.clock, severity,
                       if severity == Critical && a.occurrenceCount + 1 == threshold then RetireWarning(a.outbox, at)
                         else a.outbox))
  {
    assert EnsureAlert(db, FIRST, Anomaly) == db && IdFor(db, FIRST) == 0;
  }

  lemma NothingBefore(db: Db, a: Alert, at: int)
    requires Only(db, a) && forall o :: o in a.occurrences ==> o.key != ChunkKey(1, 1, at)
    ensures Recovered(db, 1, at) == db && !HasOccurrence(db, ChunkKey(1, 1, at))
  {
  }

  lemma OneMoreAnomaly(actions: seq<Action>, a: Alert, at: int, threshold: int)
    requires Only(After(actions), a) && a.firing && forall o :: o in a.occurrences ==> o.key != ChunkKey(1, 1, at)
    ensures var severity := SeverityFor(a.occurrenceCount + 1, threshold);
            Only(After(actions + [RecordAnomaly(1, 1, at, false, threshold)]),
                 Again(a, at, After(actions).clock, severity,
                       if severity == Critical && a.occurrenceCount + 1 == threshold then RetireWarning(a.outbox, at)
                         else a.outbox))
  {
    OneMore(actions, RecordAnomaly(1, 1, at, false, threshold));
    NothingBefore(After(actions), a, at);
    CountsAgain(After(actions), a, at, threshold);
  }

  /** Two warnings, the first handed off, the second not. */
  ghost predicate TwoWarnings(a: Alert) {
    && a.condition == FIRST && a.firing && a.occurrenceCount == 2 && a.handoffs == [0]
    && a.outbox == [Notice(true, Warning, 0, Delivered), Notice(true, Warning, 0, Pending)]
    && forall o :: o in a.occurrences ==> o.key != ChunkKey(1, 1, 30)
  }

  lemma TwoAnomalies(t: Thresholds) returns (actions: seq<Action>, a: Alert)
    requires t.anomaly == 3
    ensures Usual(actions, t) && Only(After(actions), a) && TwoWarnings(a)
  {
    a, actions := Fired(10), [RecordAnomaly(1, 1, 10, false, 3)];
    FirstFires(3);
    OneDelivery(actions, a, 0, 11);
    a, actions := HandedOff(a, 0, 11), actions + [Deliver(0, 0, true, 11)];
    OneMoreAnomaly(actions, a, 20, 3);
    a, actions := Again(a, 20, After(actions).clock, Warning, a.outbox), actions + [RecordAnomaly(1, 1, 20, false, 3)];
  }

  lemma ThirdAnomaly(actions: seq<Action>, a: Alert, t: Thresholds) returns (b: Alert)
    requires t.anomaly == 3 && Only(After(actions), a) && TwoWarnings(a)
    ensures Only(After(actions + [RecordAnomaly(1, 1, 30, false, 3)]), b) && b.severity == Critical
            && b.handoffs == [0] && b.firing
    ensures b.outbox == a.outbox + [Notice(false, Warning, 30, Pending), Notice(true, Critical, 0, Pending)]
  {
    assert a.outbox[0] in a.outbox && IsDelivered(a.outbox[0], Warning);
    OneMoreAnomaly(actions, a, 30, 3);
    b := Again(a, 30, After(actions).clock, Critical, RetireWarning(a.outbox, 30));
  }

  /** The later of two pending rows is handed off first. */
  lemma SendTwo(actions: seq<Action>, a: Alert, first: nat, second: nat, t: Thresholds)
    returns (later: seq<Action>, b: Alert)
    requires Usual(actions, t) && Only(After(actions), a) && a.firing && first < |a.outbox| && second < |a.outbox|
             && first != second
    requires a.outbox[first].state == Pending && a.outbox[second].state == Pending
    ensures Usual(later, t) && Only(After(later), b) && b == HandedOff(HandedOff(a, first, 31), second, 32)
  {
    OneDelivery(actions, a, first, 31);
    OneDelivery(actions + [Deliver(0, first, true, 31)], HandedOff(a, first, 31), second, 32);
    b := HandedOff(HandedOff(a, first, 31), second, 32);
    later := actions + [Deliver(0, first, true, 31)] + [Deliver(0, second, true, 32)];
  }

  lemma PassedBy(outbox: seq<Notice>)
    requires |outbox| == 4 && outbox[1].firing && outbox[1].severity == Warning && outbox[0].severity == Warning
    ensures Shows(outbox, [0] + [2] + [1], Warning)
  {
  }

  /** Three anomalies and a threshold of three, the second warning unsent until the withdrawal has passed
      it: the receiver is left with a warning of a critical alert. */
  lemma CrowdedEscalationHappens(t: Thresholds)
    requires t.anomaly == 3
    ensures exists actions ::
              Usual(actions, t) && Stuck(After(actions), 0) && After(actions).alerts[0].severity == Critical
  {
    var before, a := TwoAnomalies(t);
    var b := ThirdAnomaly(before, a, t);
    var actions := before + [RecordAnomaly(1, 1, 30, false, 3)];
    var later, c := SendTwo(actions, b, 2, 1, t);
    PassedBy(c.outbox);
    assert Stuck(After(later), 0);
  }

  /** Lowering the setting passes the escalation by: the count is above the new threshold when the alert
      becomes critical, never equal to it, and nothing withdraws the warnings. */
  lemma LoweredThresholdLeavesWarning()
    ensures exists actions ::
              && (forall a :: a in actions && Counts(a) ==> a.threshold in {2, 3})
              && Stuck(After(actions), 0) && After(actions).alerts[0].severity == Critical
  {
    var t := Thresholds(3, 3, 3);
    var before, a := TwoAnomalies(t);
    UsualThresholds(before, 3);
    var actions, b := PassesThreshold(before, a);
    assert Stuck(After(actions), 0);
  }

  lemma UsualThresholds(actions: seq<Action>, threshold: int)
    requires Usual(actions, Thresholds(threshold, threshold, threshold))
    ensures forall a :: a in actions && Counts(a) ==> a.threshold == threshold
  {
    forall a | a in actions && Counts(a)
      ensures a.threshold == threshold
    {
      assert Follows(a, Thresholds(threshold, threshold, threshold));
    }
  }

  lemma PassesThreshold(before: seq<Action>, a: Alert) returns (actions: seq<Action>, b: Alert)
    requires Only(After(before), a) && TwoWarnings(a)
    ensures actions == before + [RecordAnomaly(1, 1, 30, false, 2)] + [Deliver(0, 1, true, 31)]
    ensures Only(After(actions), b) && b.severity == Critical && b.handoffs == [0] + [1]
    ensures b.outbox == [Notice(true, Warning, 0, Delivered), Notice(true, Warning, 0, Delivered),
                         Notice(true, Critical, 0, Pending)]
  {
    OneMoreAnomaly(before, a, 30, 2);
    b := Again(a, 30, After(before).clock, Critical, a.outbox);
    OneDelivery(before + [RecordAnomaly(1, 1, 30, false, 2)], b, 1, 31);
    b := HandedOff(b, 1, 31);
    actions := before + [RecordAnomaly(1, 1, 30, false, 2)] + [Deliver(0, 1, true, 31)];
  }

  lemma SecondIsCritical(threshold: int) returns (actions: seq<Action>, a: Alert)
    requires threshold <= 1
    ensures actions == [RecordAnomaly(1, 1, 10, false, threshold)] + [RecordAnomaly(1, 1, 20, false, threshold)]
    ensures Only(After(actions), a) && a.firing && a.severity == Critical && a.handoffs == []
    ensures a.outbox == [Notice(true, Warning, 0, Pending), Notice(true, Critical, 0, Pending)]
  {
    FirstFires(threshold);
    OneMoreAnomaly([RecordAnomaly(1, 1, 10, false, threshold)], Fired(10), 20, threshold);
    a := Again(Fired(10), 20, After([RecordAnomaly(1, 1, 10, false, threshold)]).clock, Critical, Fired(10).outbox);
    actions := [RecordAnomaly(1, 1, 10, false, threshold)] + [RecordAnomaly(1, 1, 20, false, threshold)];
  }

  /** A threshold of one does the same to every second anomaly: the first is a warning all the same. */
  lemma ThresholdOneLeavesWarning(t: Thresholds)
    requires t.anomaly <= 1
    ensures exists actions ::
              Usual(actions, t) && Stuck(After(actions), 0) && After(actions).alerts[0].severity == Critical
  {
    var before, a := SecondIsCritical(t.anomaly);
    OneDelivery(before, a, 0, 21);
    assert HandedOff(a, 0, 21).handoffs == [0];
    assert Stuck(After(before + [Deliver(0, 0, true, 21)]), 0);
  }

  // ---------------------------------------------------------------- reopened alerts at the receiver

  /** The alert fires, all its rows are settled, and the receiver shows nothing of it. */
  ghost predicate Silent(a: Alert) {
    && a.firing && (forall n :: n in a.outbox ==> n.state != Pending)
    && !Shows(a.outbox, a.handoffs, Warning) && !Shows(a.outbox, a.handoffs, Critical)
  }

  lemma AcceptResolves(actions: seq<Action>, a: Alert)
    requires Only(After(actions), a) && a == HandedOff(Fired(10), 0, 11)
    ensures Only(After(actions + [Review(0, 0, 0, true, 12)]), Resolve(Reviewed(a, 0, true), AcceptedAsNormal, 12))
  {
    OneMore(actions, Review(0, 0, 0, true, 12));
    assert AllAccepted(Reviewed(a, 0, true));
  }

  lemma RevertReopens(actions: seq<Action>, a: Alert)
    requires Only(After(actions), a) && !a.firing && a.reason == Some(AcceptedAsNormal)
    requires |a.occurrences| == 1 && a.occurrences[0] == Occurrence(ChunkKey(1, 1, 10), Some(true), 1, 0)
    ensures Only(After(actions + [Review(0, 0, 1, false, 13)]), Reopen(Reviewed(a, 0, false).(anchor := 13)))
  {
    OneMore(actions, Review(0, 0, 1, false, 13));
  }

  lemma ResolvedOutbox(a: Alert)
    requires a == Resolve(Reviewed(HandedOff(Fired(10), 0, 11), 0, true), AcceptedAsNormal, 12)
    ensures a.outbox == [Notice(true, Warning, 0, Delivered), Notice(false, Warning, 12, Pending)]
    ensures Refired(a.outbox) == a.outbox + [Notice(true, Warning, 0, Pending)]
  {
    var before := HandedOff(Fired(10), 0, 11).outbox;
    assert before[0] in before && IsDelivered(before[0], Warning);
    assert before == [Notice(true, Warning, 0, Delivered)];
    assert a.outbox[..1] == before;
    assert LastFiring(before) == Some(before[0]);
  }

  lemma FirstSent(t: Thresholds) returns (actions: seq<Action>, a: Alert)
    ensures Usual(actions, t) && Only(After(actions), a) && a == HandedOff(Fired(10), 0, 11)
  {
    actions, a := [RecordAnomaly(1, 1, 10, false, t.anomaly)], Fired(10);
    FirstFires(t.anomaly);
    OneDelivery(actions, a, 0, 11);
    a, actions := HandedOff(a, 0, 11), actions + [Deliver(0, 0, true, 11)];
  }

  lemma ResolvedThenReopened(t: Thresholds) returns (actions: seq<Action>, a: Alert)
    ensures Usual(actions, t) && Only(After(actions), a) && a.firing && a.handoffs == [0]
    ensures a.outbox == [Notice(true, Warning, 0, Delivered), Notice(false, Warning, 12, Pending),
                         Notice(true, Warning, 0, Pending)]
  {
    actions, a := FirstSent(t);
    AcceptResolves(actions, a);
    a, actions := Resolve(Reviewed(a, 0, true), AcceptedAsNormal, 12), actions + [Review(0, 0, 0, true, 12)];
    ResolvedOutbox(a);
    RevertReopens(actions, a);
    a, actions := Reopen(Reviewed(a, 0, false).(anchor := 13)), actions + [Review(0, 0, 1, false, 13)];
  }

  lemma PassedByAgain(outbox: seq<Notice>, s: Severity)
    requires |outbox| == 3 && !outbox[1].firing && forall i :: 0 <= i < 3 ==> outbox[i].severity == Warning
    ensures !Shows(outbox, [0] + [2] + [1], s)
  {
    assert ([0] + [2] + [1])[..2] == [0] + [2] && ([0] + [2])[..1] == [0];
    if s == Critical { assert !Shows(outbox, [0], s) && !Shows(outbox, [0] + [2], s); }
  }

  /** A reopened alert can be handed off before its old resolution is: it fires, and the receiver shows it resolved. */
  lemma ReopenedCanShowResolved(t: Thresholds)
    ensures exists actions :: Usual(actions, t) && 0 in After(actions).alerts && Silent(After(actions).alerts[0])
  {
    var actions, a := ResolvedThenReopened(t);
    var later, b := SendTwo(actions, a, 2, 1, t);
    PassedByAgain(b.outbox, Warning);
    PassedByAgain(b.outbox, Critical);
    assert Silent(After(later).alerts[0]);
  }
}
