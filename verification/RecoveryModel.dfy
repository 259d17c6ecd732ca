/**
Live collection and backlog recovery, interleaved.

The scheduler of `SchedulerModel` runs a collection callback for each service. A
callback whose collection fails writes a backlog row and then reports success, so
the scheduler moves past the window; workers drain the rows. Every database
statement is a step of its own, any number of workers may hold the same row, and
any statement may fail.
*/
module RecoveryModel {
  import opened Options
  import opened SchedulerModel
  import opened WindowProcessor

  const RESERVED_IDS := 1000

  datatype CallbackType = CollectCallback | BuilderCallback

  function CallbackID(service: int, kind: CallbackType): int {
    RESERVED_IDS + 2 * service + match kind case CollectCallback => 0 case BuilderCallback => 1
  }

  predicate IsCollectId(id: int) {
    (id - RESERVED_IDS) % 2 == 0
  }

  /** The scheduler keeps the two callbacks of every service apart. */
  lemma CallbackIDsAreDistinct(a: int, b: int, j: CallbackType, k: CallbackType)
    ensures CallbackID(a, j) == CallbackID(b, k) <==> a == b && j == k
    ensures IsCollectId(CallbackID(a, j)) <==> j == CollectCallback
  {
  }

  datatype Key = Key(id: int, window: Window)

  datatype RowState = Pending | InCollection | Recovered | Expired

  /** `closedAt` records when a worker marked the row expired. */
  datatype Row = Row(state: RowState, attempts: nat, readyAt: int, expiresAt: int, closedAt: int)

  /** A live callback that has tried to collect: it failed, or its window is safe. */
  datatype Phase = CollectFailed | WindowKept

  datatype Worker =
    | Idle
    | HasRead(key: Key, attempt: Attempt, now: int)
    | HasCollected(key: Key, attempt: Attempt, now: int, task: Option<CollectError>)

  datatype State = State(
    sched: Sys,
    phases: map<Invocation, Phase>,
    rows: map<Key, Row>,
    collected: set<Key>,
    workers: map<int, Worker>)

  datatype Action =
    | Scheduler(event: Event)
    | Collect(invocation: Invocation, task: Option<CollectError>)
    | Enqueue(invocation: Invocation, retryAt: int, expiresAt: int)
    | Read(worker: int, key: Key, now: int)
    | MarkCollecting(worker: int)
    | CollectRow(worker: int, task: Option<CollectError>)
    | Finish(worker: int, cancelled: bool, written: bool, probeAfter: int, probeInterval: int)

  function KeyOf(i: Invocation): Key {
    Key(i.id, i.window)
  }

  /** A collection callback returns success only once its window is kept. */
  predicate MayHappen(s: State, e: Event) {
    e.Complete? && e.outcome.Succeeded? && IsCollectId(e.invocation.id) ==>
      e.invocation in s.phases && s.phases[e.invocation] == WindowKept
  }

  predicate IsOpen(r: Row) {
    r.state == Pending || r.state == InCollection
  }

  /** The row that the worker's query returns: open, of that service, oldest first. */
  predicate IsOldestOpen(rows: map<Key, Row>, k: Key) {
    && k in rows && IsOpen(rows[k])
    && forall j :: j in rows && j.id == k.id && IsOpen(rows[j]) ==> k.window.start <= j.window.start
  }

  function Upserted(rows: map<Key, Row>, k: Key, retryAt: int, expiresAt: int): map<Key, Row> {
    if k in rows then rows[k := rows[k].(state := Pending, attempts := rows[k].attempts + 1, readyAt := retryAt)]
    else rows[k := Row(Pending, 1, retryAt, expiresAt, 0)]
  }

  function WorkerAt(s: State, w: int): Worker {
    if w in s.workers then s.workers[w] else Idle
  }

  function Finished(s: State, w: int, key: Key, r: Result, attempts: nat, now: int, written: bool): State
    requires key in s.rows
  {
    var row := s.rows[key];
    var row' :=
      if !written then row
      else match r
           case Completed => row.(state := Recovered)
           case MonitoringGap => row.(state := Expired, closedAt := now)
           case Retry(after) => row.(state := Pending, attempts := attempts, readyAt := now + after)
           case _ => row;
    s.(rows := s.rows[key := row'], workers := s.workers[w := Idle])
  }

  /** As in `SchedulerModel`, an action that cannot occur changes nothing. */
  function Next(s: State, a: Action): State {
    match a
    case Scheduler(e) =>
      if !MayHappen(s, e) then s
      else s.(sched := Step(s.sched, e), phases := if e.Complete? then s.phases - {e.invocation} else s.phases)
    case Collect(i, task) =>
      if i !in s.sched.running || i in s.phases then s
      else if task.Some? then s.(phases := s.phases[i := CollectFailed])
      else s.(phases := s.phases[i := WindowKept], collected := s.collected + {KeyOf(i)})
    case Enqueue(i, retryAt, expiresAt) =>
      if i !in s.phases || s.phases[i] != CollectFailed then s
      else s.(phases := s.phases[i := WindowKept], rows := Upserted(s.rows, KeyOf(i), retryAt, expiresAt))
    case Read(w, k, now) =>
      if WorkerAt(s, w) != Idle || !IsOldestOpen(s.rows, k) then s
      else
        var a := Attempt(s.rows[k].attempts + 1, s.rows[k].readyAt, s.rows[k].expiresAt, now - k.window.start);
        s.(workers := s.workers[w := HasRead(k, a, now)])
    case MarkCollecting(w) =>
      (match WorkerAt(s, w)
       case HasRead(k, a, now) =>
         if k in s.rows && GateOf(a, now) == MayRun then s.(rows := s.rows[k := s.rows[k].(state := InCollection)])
           else s
       case _ => s)
    case CollectRow(w, task) =>
      (match WorkerAt(s, w)
       case HasRead(k, a, now) =>
         if GateOf(a, now) != MayRun then s
         else s.(workers := s.workers[w := HasCollected(k, a, now, task)],
                 collected := if task.None? then s.collected + {k} else s.collected)
       case _ => s)
    case Finish(w, cancelled, written, probeAfter, probeInterval) =>
      (match WorkerAt(s, w)
       case HasRead(k, a, now) =>
         if k !in s.rows || (GateOf(a, now) == MayRun && !cancelled) then s
         else Finished(s, w, k, Process(cancelled, now, a, None, cancelled, RecoveryPolicy(probeAfter, probeInterval)),
                       a.attempts, now, written)
       case HasCollected(k, a, now, task) =>
         if k !in s.rows then s
         else Finished(s, w, k, Process(false, now, a, task, cancelled, RecoveryPolicy(probeAfter, probeInterval)),
                       a.attempts, now, written)
       case _ => s)
  }

  const START := State(EMPTY, map[], map[], {}, map[])

  function After(actions: seq<Action>): State {
    if actions == [] then START else Next(After(actions[..|actions| - 1]), actions[|actions| - 1])
  }

  // ---------------------------------------------------------------- invariant

  predicate Kept(s: State, k: Key) {
    k in s.collected || k in s.rows
  }

  predicate RowEarned(s: State, k: Key)
    requires k in s.rows
  {
    && (s.rows[k].state == Recovered ==> k in s.collected)
    && (s.rows[k].state == Expired ==> s.rows[k].expiresAt != 0 && s.rows[k].expiresAt <= s.rows[k].closedAt)
  }

  predicate WorkerOk(s: State, w: Worker) {
    match w
    case Idle => true
    case HasRead(k, a, _) => k in s.rows && a.expiresAt == s.rows[k].expiresAt
    case HasCollected(k, a, now, task) =>
      k in s.rows && a.expiresAt == s.rows[k].expiresAt && GateOf(a, now) == MayRun && (task.None? ==> k in s.collected)
  }

  ghost predicate LogKept(s: State, r: Registration) {
    IsCollectId(r.id) ==> forall w :: w in Successes(r.tries) ==> Kept(s, Key(r.id, w))
  }

  ghost predicate TablesOk(s: State) {
    && (forall i :: i in s.phases ==> i in s.sched.running && (s.phases[i] == WindowKept ==> Kept(s, KeyOf(i))))
    && (forall k :: k in s.rows ==> RowEarned(s, k))
    && (forall w :: w in s.workers ==> WorkerOk(s, s.workers[w]))
  }

  ghost predicate LogsKept(s: State) {
    forall r :: HasLog(s.sched, r) ==> LogKept(s, r)
  }

  lemma LastReplaced(tries: seq<Try>, t: Try)
    requires tries != []
    ensures Successes(tries[|tries| - 1 := t]) ==
            Successes(tries[..|tries| - 1]) + if t.result == Some(Succeeded) then [t.window] else []
  {
    assert tries[|tries| - 1 := t][..|tries| - 1] == tries[..|tries| - 1];
  }

  lemma BegunKeepsSuccesses(e: Entry, now: int)
    ensures Successes(Begun(e, now).log.tries) == Successes(e.log.tries)
  {
    assert Begun(e, now).log.tries[..|e.log.tries|] == e.log.tries;
  }

  lemma MarkUpdatedKeepsSuccesses(r: Registration)
    ensures Successes(MarkUpdated(r).tries) == Successes(r.tries)
  {
    if r.tries != [] {
      var last := r.tries[|r.tries| - 1];
      LastReplaced(r.tries, last.(updated := true));
    }
  }

  lemma ReportedAddsWindow(r: Registration, o: Outcome, updated: bool, delay: int, now: int, w: Window)
    requires r.tries != [] && r.tries[|r.tries| - 1].result.None?
             && w in Successes(Reported(r, o, updated, delay, now).tries)
    ensures w in Successes(r.tries) || (o == Succeeded && w == r.tries[|r.tries| - 1].window)
  {
    var last := r.tries[|r.tries| - 1];
    LastReplaced(r.tries, last.(result := Some(o), updated := updated, retryAt := now + delay, delay := delay));
  }

  /** A window newly counted as collected is that of the invocation reporting success. */
  ghost predicate NewlyCollected(s: Sys, e: Event, id: int, w: Window) {
    e.Complete? && e.outcome.Succeeded? && e.invocation in s.running && e.invocation.id == id
    && e.invocation.window == w
  }

  ghost predicate AlreadyCollected(s: Sys, id: int, w: Window) {
    exists r :: HasLog(s, r) && r.id == id && w in Successes(r.tries)
  }

  lemma CompletionLogs(s: Sys, i: Invocation, o: Outcome, delay: int, now: int, r: Registration)
    requires i.id in s.states && HasLog(HandleCompletion(s, i, o, delay, now), r) && !HasLog(s, r)
    ensures var e := s.states[i.id]; r == Reported(e.log, o, e.cb.pending.Some?, delay, now)
  {
  }

  lemma CompletionCollectsOneWindow(s: Sys, e: Event, r: Registration, w: Window)
    requires Inv(s) && e.Complete? && e.invocation in s.running
    requires HasLog(Step(s, e), r) && !HasLog(s, r) && w in Successes(r.tries)
    ensures AlreadyCollected(s, r.id, w) || NewlyCollected(s, e, r.id, w)
  {
    RunningIsCurrent(s, e.invocation);
    var entry := s.states[e.invocation.id];
    CompletionLogs(s, e.invocation, e.outcome, e.delay, e.now, r);
    ReportedAddsWindow(entry.log, e.outcome, entry.cb.pending.Some?, e.delay, e.now, w);
    assert HasLog(s, entry.log);
  }

  lemma OtherStepCollectsNothing(s: Sys, e: Event, r: Registration, w: Window)
    requires forall id :: id in s.states ==> s.states[id].log.id == id
    requires !e.Complete? && HasLog(Step(s, e), r) && !HasLog(s, r) && w in Successes(r.tries)
    ensures AlreadyCollected(s, r.id, w)
  {
    var id :| id in Step(s, e).states && Step(s, e).states[id].log == r;
    if e.Add? { MarkUpdatedKeepsSuccesses(s.states[id].log); } else { BegunKeepsSuccesses(s.states[id], e.now); }
    assert HasLog(s, s.states[id].log);
  }

  lemma StepCollectsOneWindow(s: Sys, e: Event)
    requires Inv(s)
    ensures forall r, w :: HasLog(Step(s, e), r) && w in Successes(r.tries) ==>
              AlreadyCollected(s, r.id, w) || NewlyCollected(s, e, r.id, w)
  {
    forall r, w | HasLog(Step(s, e), r) && w in Successes(r.tries)
      ensures AlreadyCollected(s, r.id, w) || NewlyCollected(s, e, r.id, w)
    {
      if !HasLog(s, r) {
        if e.Complete? { CompletionCollectsOneWindow(s, e, r, w); } else { OtherStepCollectsNothing(s, e, r, w); }
      }
    }
  }

  lemma SchedulerKeepsTables(s: State, e: Event)
    requires TablesOk(s)
    ensures TablesOk(Next(s, Scheduler(e)))
  {
  }

  lemma SchedulerKeepsLogs(s: State, e: Event)
    requires TablesOk(s) && LogsKept(s) && MayHappen(s, e)
    requires forall r, w :: HasLog(Step(s.sched, e), r) && w in Successes(r.tries) ==>
               AlreadyCollected(s.sched, r.id, w) || NewlyCollected(s.sched, e, r.id, w)
    ensures LogsKept(Next(s, Scheduler(e)))
  {
    var t := Next(s, Scheduler(e));
    forall r, w | HasLog(t.sched, r) && IsCollectId(r.id) && w in Successes(r.tries)
      ensures Kept(t, Key(r.id, w))
    {
      if AlreadyCollected(s.sched, r.id, w) {
        var earlier :| HasLog(s.sched, earlier) && earlier.id == r.id && w in Successes(earlier.tries);
        assert LogKept(s, earlier);
      }
    }
    assert forall r :: HasLog(t.sched, r) ==> LogKept(t, r);
  }

  lemma OtherActionsOnlyKeepMore(s: State, a: Action)
    requires !a.Scheduler?
    ensures Next(s, a).sched == s.sched
    ensures s.collected <= Next(s, a).collected && s.rows.Keys <= Next(s, a).rows.Keys
  {
  }

  lemma OtherActionKeepsLogs(s: State, t: State)
    requires LogsKept(s) && t.sched == s.sched && s.collected <= t.collected && s.rows.Keys <= t.rows.Keys
    ensures LogsKept(t)
  {
    forall r | HasLog(t.sched, r)
      ensures LogKept(t, r)
    {
      assert LogKept(s, r);
      assert forall k :: Kept(s, k) ==> Kept(t, k);
    }
  }

  lemma LiveActionKeepsTables(s: State, a: Action)
    requires TablesOk(s) && (a.Collect? || a.Enqueue?)
    ensures TablesOk(Next(s, a))
  {
  }

  lemma FinishedKeepsTables(s: State, w: int, key: Key, r: Result, attempts: nat, now: int, written: bool)
    requires TablesOk(s) && key in s.rows
    requires r == Completed ==> key in s.collected
    requires r == MonitoringGap ==> s.rows[key].expiresAt != 0 && s.rows[key].expiresAt <= now
    ensures TablesOk(Finished(s, w, key, r, attempts, now, written))
  {
  }

  lemma WorkerActionKeepsTables(s: State, a: Action)
    requires TablesOk(s) && (a.Read? || a.MarkCollecting? || a.CollectRow?)
    ensures TablesOk(Next(s, a))
  {
  }

  lemma FinishKeepsTables(s: State, a: Action)
    requires TablesOk(s) && a.Finish?
    ensures TablesOk(Next(s, a))
  {
    match WorkerAt(s, a.worker)
    case HasRead(k, attempt, now) =>
      var r := Process(a.cancelled, now, attempt, None, a.cancelled, RecoveryPolicy(a.probeAfter, a.probeInterval));
      if GateOf(attempt, now) != MayRun || a.cancelled {
        FinishedKeepsTables(s, a.worker, k, r, attempt.attempts, now, a.written);
      }
    case HasCollected(k, attempt, now, task) =>
      var r := Process(false, now, attempt, task, a.cancelled, RecoveryPolicy(a.probeAfter, a.probeInterval));
      FinishedKeepsTables(s, a.worker, k, r, attempt.attempts, now, a.written);
    case _ =>
  }

  lemma NextKeepsAll(s: State, a: Action)
    requires Inv(s.sched) && TablesOk(s) && LogsKept(s)
    ensures Inv(Next(s, a).sched) && TablesOk(Next(s, a)) && LogsKept(Next(s, a))
  {
    if a.Scheduler? {
      StepKeepsInv(s.sched, a.event);
      SchedulerKeepsTables(s, a.event);
      StepCollectsOneWindow(s.sched, a.event);
      if MayHappen(s, a.event) { SchedulerKeepsLogs(s, a.event); }
    } else {
      OtherActionsOnlyKeepMore(s, a);
      OtherActionKeepsLogs(s, Next(s, a));
      if a.Finish? { FinishKeepsTables(s, a); }
      else if a.Collect? || a.Enqueue? { LiveActionKeepsTables(s, a); }
      else { WorkerActionKeepsTables(s, a); }
    }
  }

  lemma {:induction false} AfterIsSound(actions: seq<Action>)
    ensures Inv(After(actions).sched) && TablesOk(After(actions)) && LogsKept(After(actions))
  {
    if actions != [] {
      AfterIsSound(actions[..|actions| - 1]);
      NextKeepsAll(After(actions[..|actions| - 1]), actions[|actions| - 1]);
    }
  }

  /** Where a window that the scheduler has moved past can be. */
  ghost predicate AccountedFor(s: State, k: Key) {
    || k in s.collected
    || (k in s.rows && IsOpen(s.rows[k]))
    || (k in s.rows && s.rows[k].state == Expired && s.rows[k].expiresAt != 0
        && s.rows[k].expiresAt <= s.rows[k].closedAt)
  }

  /** In every interleaving, every window the scheduler has moved past was collected,
      waits in the backlog, or expired no earlier than its deadline. */
  lemma NoWindowIsLost(actions: seq<Action>, r: Registration, w: Window)
    requires HasLog(After(actions).sched, r) && IsCollectId(r.id) && w in Successes(r.tries)
    ensures AccountedFor(After(actions), Key(r.id, w))
  {
    AfterIsSound(actions);
    assert LogKept(After(actions), r);
  }

  /** In every interleaving, each instant between a registration's first lastEnd and
      its current one lies in exactly one window, and that window is accounted for. */
  lemma EveryInstantIsAccountedFor(actions: seq<Action>, r: Registration, t: int)
    requires HasLog(After(actions).sched, r) && IsCollectId(r.id) && r.origin <= t < Reached(r)
    ensures exists k :: 0 <= k < |Successes(r.tries)| && Holds(Successes(r.tries)[k], t)
                        && AccountedFor(After(actions), Key(r.id, Successes(r.tries)[k]))
    ensures forall j, k :: 0 <= j < k < |Successes(r.tries)| ==>
              !(Holds(Successes(r.tries)[j], t) && Holds(Successes(r.tries)[k], t))
  {
    AfterIsSound(actions);
    SuccessesFormChain(r);
    ChainCoversOnce(r.origin, Successes(r.tries), Reached(r), t);
    var k :| 0 <= k < |Successes(r.tries)| && Holds(Successes(r.tries)[k], t);
    NoWindowIsLost(actions, r, Successes(r.tries)[k]);
  }

  /** A row is recovered only if its window was collected, and expired only past its deadline. */
  lemma RowsAreEarned(actions: seq<Action>, k: Key)
    requires k in After(actions).rows
    ensures RowEarned(After(actions), k)
  {
    AfterIsSound(actions);
  }

  // ---------------------------------------------------------------- the live callback

  /** A live collection that succeeds keeps its window at once and may report success. */
  lemma LiveSuccessCompletes(s: State, i: Invocation)
    requires i in s.sched.running && i !in s.phases
    ensures var t := Next(s, Collect(i, None));
            && KeyOf(i) in t.collected && t.rows == s.rows && t.sched == s.sched
            && forall delay, now :: MayHappen(t, Complete(i, Succeeded, delay, now))
  {
  }

  /** One that fails may not report success before its window is a row of the backlog, open and ready at the time
      given, with one attempt more. */
  lemma LiveFailureIsQueued(s: State, i: Invocation, error: CollectError, retryAt: int, expiresAt: int)
    requires i in s.sched.running && i !in s.phases && IsCollectId(i.id)
    ensures var failed := Next(s, Collect(i, Some(error)));
            var queued := Next(failed, Enqueue(i, retryAt, expiresAt));
            && failed.collected == queued.collected == s.collected && failed.rows == s.rows
            && queued.rows.Keys == s.rows.Keys + {KeyOf(i)}
            && (forall k :: k in s.rows && k != KeyOf(i) ==> queued.rows[k] == s.rows[k])
            && queued.rows[KeyOf(i)].state == Pending && queued.rows[KeyOf(i)].readyAt == retryAt
            && queued.rows[KeyOf(i)].attempts == 1 + (if KeyOf(i) in s.rows then s.rows[KeyOf(i)].attempts else 0)
            && queued.rows[KeyOf(i)].expiresAt ==
               (if KeyOf(i) in s.rows then s.rows[KeyOf(i)].expiresAt else expiresAt)
            && forall delay, now ::
                 && !MayHappen(failed, Complete(i, Succeeded, delay, now))
                 && MayHappen(queued, Complete(i, Succeeded, delay, now))
  {
  }

  // ---------------------------------------------------------------- retries wait

  /** A worker takes up a row exactly if it is pending or left in collection, and no such row of the service
      begins before it. */
  lemma ReadTakesTheOldest(s: State, w: int, k: Key, now: int)
    requires WorkerAt(s, w) == Idle
    ensures WorkerAt(Next(s, Read(w, k, now)), w) != Idle <==>
            && k in s.rows && s.rows[k].state in {Pending, InCollection}
            && forall j :: j in s.rows && j.id == k.id && s.rows[j].state in {Pending, InCollection} ==>
                 k.window.start <= j.window.start
    ensures WorkerAt(Next(s, Read(w, k, now)), w) != Idle ==>
              var a := Attempt(s.rows[k].attempts + 1, s.rows[k].readyAt, s.rows[k].expiresAt, now - k.window.start);
              WorkerAt(Next(s, Read(w, k, now)), w) == HasRead(k, a, now)
  {
  }

  predicate WorksOn(w: Worker, k: Key) {
    !w.Idle? && w.key == k
  }

  /** Nobody collects the row, or may collect it, with a clock before `t`. */
  ghost predicate WaitsUntil(s: State, k: Key, t: int) {
    && k in s.rows && s.rows[k].readyAt >= t
    && forall w :: w in s.workers && WorksOn(s.workers[w], k) ==> WorkerWaits(s.workers[w], t)
  }

  predicate WorkerWaits(w: Worker, t: int) {
    match w
    case Idle => true
    case HasRead(_, a, now) => now >= t || (a.readyAt >= t)
    case HasCollected(_, _, now, _) => now >= t
  }

  /** No collection of the window itself fails meanwhile, and the probe interval is never negative. */
  predicate LeavesWaiting(a: Action, k: Key) {
    && (a.Enqueue? ==> KeyOf(a.invocation) != k)
    && (a.Finish? ==> a.probeInterval >= 0)
  }

  lemma DelayNotNegative(probeAfter: int, probeInterval: int, attempts: nat, failingFor: int)
    requires probeInterval >= 0
    ensures RecoveryDelay(probeAfter, probeInterval, attempts, failingFor) >= 0
  {
    if failingFor < probeAfter {
      RecoveryDelaysGrow(probeAfter, probeInterval, attempts, attempts, failingFor);
    }
  }

  lemma FinishedKeepsWaiting(s: State, w: int, key: Key, r: Result, attempts: nat, now: int, written: bool,
                             k: Key, t: int)
    requires WaitsUntil(s, k, t) && key in s.rows && (key == k && r.Retry? ==> now + r.after >= t)
    ensures WaitsUntil(Finished(s, w, key, r, attempts, now, written), k, t)
  {
  }

  lemma FinishKeepsWaiting(s: State, a: Action, k: Key, t: int)
    requires WaitsUntil(s, k, t) && a.Finish? && LeavesWaiting(a, k) && 0 < t
    ensures WaitsUntil(Next(s, a), k, t)
  {
    match WorkerAt(s, a.worker)
    case HasRead(j, attempt, now) =>
      if j in s.rows && !(GateOf(attempt, now) == MayRun && !a.cancelled) {
        var r := Process(a.cancelled, now, attempt, None, a.cancelled, RecoveryPolicy(a.probeAfter, a.probeInterval));
        FinishedKeepsWaiting(s, a.worker, j, r, attempt.attempts, now, a.written, k, t);
      }
    case HasCollected(j, attempt, now, task) =>
      if j in s.rows {
        var r := Process(false, now, attempt, task, a.cancelled, RecoveryPolicy(a.probeAfter, a.probeInterval));
        DelayNotNegative(a.probeAfter, a.probeInterval, attempt.attempts, attempt.failingFor);
        FinishedKeepsWaiting(s, a.worker, j, r, attempt.attempts, now, a.written, k, t);
      }
    case _ =>
  }

  lemma WorkerStepKeepsWaiting(s: State, a: Action, k: Key, t: int)
    requires WaitsUntil(s, k, t) && (a.Read? || a.MarkCollecting? || a.CollectRow?) && 0 < t
    ensures WaitsUntil(Next(s, a), k, t)
  {
  }

  lemma LiveStepKeepsWaiting(s: State, a: Action, k: Key, t: int)
    requires WaitsUntil(s, k, t) && (a.Scheduler? || a.Collect? || a.Enqueue?) && LeavesWaiting(a, k)
    ensures WaitsUntil(Next(s, a), k, t)
  {
  }

  lemma NextKeepsWaiting(s: State, a: Action, k: Key, t: int)
    requires WaitsUntil(s, k, t) && LeavesWaiting(a, k) && 0 < t
    ensures WaitsUntil(Next(s, a), k, t)
  {
    if a.Finish? { FinishKeepsWaiting(s, a, k, t); }
    else if a.Read? || a.MarkCollecting? || a.CollectRow? { WorkerStepKeepsWaiting(s, a, k, t); }
    else { LiveStepKeepsWaiting(s, a, k, t); }
  }

  lemma OneMore(before: seq<Action>, later: seq<Action>)
    requires later != []
    ensures var all := before + later;
            all[..|all| - 1] == before + later[..|later| - 1] && all[|all| - 1] == later[|later| - 1]
  {
  }

  lemma {:induction false} RunKeepsWaiting(before: seq<Action>, later: seq<Action>, k: Key, t: int)
    requires WaitsUntil(After(before), k, t) && 0 < t && forall a :: a in later ==> LeavesWaiting(a, k)
    ensures WaitsUntil(After(before + later), k, t)
  {
    if later == [] {
      assert before + later == before;
    } else {
      var n := |later| - 1;
      RunKeepsWaiting(before, later[..n], k, t);
      OneMore(before, later);
      NextKeepsWaiting(After(before + later[..n]), later[n], k, t);
    }
  }

  lemma FailureSetsTheClock(s: State, w: int, written: Action)
    requires written.Finish? && written.worker == w && !written.cancelled && written.written
    requires var worker := WorkerAt(s, w);
             worker.HasCollected? && worker.task.Some? && worker.key in s.rows
             && GateOf(worker.attempt, worker.now) == MayRun
    ensures var worker, t := WorkerAt(s, w), Next(s, written);
            && worker.key in t.rows && WorkerAt(t, w) == Idle
            && t.rows[worker.key].state == Pending && t.rows[worker.key].attempts == worker.attempt.attempts
            && t.rows[worker.key].readyAt ==
               worker.now + RecoveryDelay(written.probeAfter, written.probeInterval, worker.attempt.attempts,
                                          worker.attempt.failingFor)
            && forall v :: v != w ==> WorkerAt(t, v) == WorkerAt(s, v)
  {
  }

  /** Once a failed attempt has been written down, in every later run no worker collects the window with a clock
      before the retry time, as long as its live collection does not fail anew. */
  lemma RetryWaits(before: seq<Action>, w: int, finish: Action, later: seq<Action>, v: int, task: Option<CollectError>)
    requires finish.Finish? && finish.worker == w && !finish.cancelled && finish.written
    requires WorkerAt(After(before), w).HasCollected? && WorkerAt(After(before), w).task.Some?
    requires forall u :: u != w ==> !WorksOn(WorkerAt(After(before), u), WorkerAt(After(before), w).key)
    requires forall a :: a in later ==> LeavesWaiting(a, WorkerAt(After(before), w).key)
    requires WorksOn(WorkerAt(After(before + [finish] + later), v), WorkerAt(After(before), w).key)
    requires var run := before + [finish] + later;
             WorkerAt(After(run + [CollectRow(v, task)]), v) != WorkerAt(After(run), v)
    ensures var tried := WorkerAt(After(before), w);
            var retryAt := tried.now + RecoveryDelay(finish.probeAfter, finish.probeInterval, tried.attempt.attempts,
                                                     tried.attempt.failingFor);
            retryAt > 0 ==> WorkerAt(After(before + [finish] + later), v).now >= retryAt
  {
    var s, tried := After(before), WorkerAt(After(before), w);
    AfterIsSound(before);
    FailureSetsTheClock(s, w, finish);
    assert (before + [finish])[..|before|] == before;
    var retryAt := tried.now + RecoveryDelay(finish.probeAfter, finish.probeInterval, tried.attempt.attempts,
                                             tried.attempt.failingFor);
    assert forall u :: u in Next(s, finish).workers ==> Next(s, finish).workers[u] == WorkerAt(Next(s, finish), u);
    if retryAt > 0 {
      assert WaitsUntil(After(before + [finish]), tried.key, retryAt);
      RunKeepsWaiting(before + [finish], later, tried.key, retryAt);
      var run := before + [finish] + later;
      assert (run + [CollectRow(v, task)])[..|run|] == run;
    }
  }
}
