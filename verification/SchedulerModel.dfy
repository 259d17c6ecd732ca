/**
The interval scheduler as a transition system on values.

Times and durations are whole nanoseconds since Go's zero time, so that the zero
time is 0 and `time.Time.Truncate` rounds down to a multiple of the interval. The
state holds what `run` holds in its `states` map, the invocations whose
goroutines have not reported yet, and a history: one `Registration` for each time
a callback ID was entered into the map, listing every window tried for it.
*/
module SchedulerModel {
  import opened Options

  datatype Window = Window(start: int, end: int)

  datatype Outcome = Succeeded | Retryable | Permanent

  type Interval = i: int | 0 < i witness 1

  datatype Update = Update(interval: Interval, fn: int, maxWindow: int)

  datatype Callback = Callback(
    interval: Interval, fn: int, lastEnd: int, maxWindow: int,
    nextStart: int, nextEnd: int, nextAttempt: int, attempt: nat,
    inFlight: bool, disabled: bool, removeAfter: bool, pending: Option<Update>)

  datatype Invocation = Invocation(id: int, fn: int, window: Window)

  /** One dispatched window: the interval active then, the dispatch time, the result
      once reported, whether an update was applied before the next dispatch, the
      instant of the report plus the delay that the policy then gave, and that delay. */
  datatype Try = Try(window: Window, interval: Interval, at: int, result: Option<Outcome>, updated: bool, retryAt: int,
                     delay: int)

  datatype Registration = Registration(id: int, origin: int, tries: seq<Try>)

  datatype Entry = Entry(cb: Callback, log: Registration)

  datatype Sys = Sys(
    states: map<int, Entry>,
    closed: seq<Registration>,
    running: multiset<Invocation>,
    stopping: bool)

  datatype Event =
    | Add(id: int, interval: int, fn: Option<int>, lastEnd: Option<int>, now: int)
    | Remove(id: int)
    | DispatchDue(now: int)
    | Complete(invocation: Invocation, outcome: Outcome, delay: int, now: int)
    | Stop

  datatype AddError = InvalidInterval | NilCallback | SchedulerStopped

  // ---------------------------------------------------------------- planning

  function NextBoundary(t: int, interval: Interval): int {
    var boundary := t - t % interval;
    if boundary != t then boundary + interval else boundary
  }

  function PlanNextWindow(c: Callback): Callback {
    var boundary := NextBoundary(c.lastEnd, c.interval);
    var cap := if c.maxWindow <= 0 then c.interval else c.maxWindow;
    var end :=
      if c.lastEnd == boundary then c.lastEnd + c.interval
      else if c.lastEnd + cap > boundary then boundary
      else c.lastEnd + cap;
    c.(nextStart := c.lastEnd, nextEnd := end, nextAttempt := 0)
  }

  function ApplyUpdate(c: Callback, u: Update): Callback {
    PlanNextWindow(c.(interval := u.interval, fn := u.fn, maxWindow := u.maxWindow,
                      pending := None, disabled := false, attempt := 0, nextAttempt := 0))
  }

  predicate Aligned(t: int, interval: Interval) {
    t % interval == 0
  }

  /** `end` is the first boundary of `interval` strictly after `start`. */
  ghost predicate FirstBoundaryAfter(start: int, interval: Interval, end: int) {
    && start < end <= start + interval
    && Aligned(end, interval)
    && forall t :: start < t < end ==> !Aligned(t, interval)
  }

  lemma MultipleIsFarFromZero(n: int, interval: Interval)
    ensures n >= 1 ==> interval * n >= interval
    ensures n <= 0 ==> interval * n <= 0
    ensures n <= -1 ==> interval * n + interval <= 0
  {
  }

  lemma MultiplesAreSpaced(a: int, b: int, interval: Interval)
    requires Aligned(a, interval) && Aligned(b, interval) && a < b
    ensures a + interval <= b
  {
    var n := b / interval - a / interval;
    assert b - a == interval * n;
    MultipleIsFarFromZero(n, interval);
  }

  lemma MultipleIsAligned(q: int, interval: Interval)
    ensures Aligned(interval * q, interval)
  {
    var n := q - (interval * q) / interval;
    assert (interval * q) % interval == interval * n;
    MultipleIsFarFromZero(n, interval);
  }

  lemma RoundedDownIsAligned(t: int, interval: Interval)
    ensures Aligned(t - t % interval, interval)
    ensures Aligned(t - t % interval + interval, interval)
  {
    var q := t / interval;
    assert t - t % interval == interval * q && interval * q + interval == interval * (q + 1);
    MultipleIsAligned(q, interval);
    MultipleIsAligned(q + 1, interval);
  }

  /** Because an interval never exceeds its window cap, planning always reaches the
      first boundary of the active interval in one window, from any starting point. */
  lemma PlanReachesFirstBoundary(c: Callback)
    requires c.interval <= c.maxWindow
    ensures PlanNextWindow(c).nextStart == c.lastEnd
    ensures FirstBoundaryAfter(c.lastEnd, c.interval, PlanNextWindow(c).nextEnd)
    ensures Aligned(c.lastEnd, c.interval) ==> PlanNextWindow(c).nextEnd == c.lastEnd + c.interval
  {
    var p := PlanNextWindow(c);
    var floor := c.lastEnd - c.lastEnd % c.interval;
    RoundedDownIsAligned(c.lastEnd, c.interval);
    assert p.nextEnd == floor + c.interval;
    forall t | c.lastEnd < t < p.nextEnd
      ensures !Aligned(t, c.interval)
    {
      if Aligned(t, c.interval) { MultiplesAreSpaced(floor, t, c.interval); }
    }
  }

  // ---------------------------------------------------------------- steps

  function CurrentWindow(c: Callback): Window {
    Window(c.nextStart, c.nextEnd)
  }

  function CurrentInvocation(id: int, c: Callback): Invocation {
    Invocation(id, c.fn, CurrentWindow(c))
  }

  predicate Due(c: Callback, now: int) {
    !c.disabled && !c.inFlight && c.nextAttempt <= now && c.nextEnd <= now
  }

  function NewCallback(interval: Interval, fn: int, lastEnd: Option<int>, now: int): Callback {
    var origin := if lastEnd.Some? then lastEnd.value else NextBoundary(now, interval) - interval;
    PlanNextWindow(Callback(interval, fn, origin, interval, 0, 0, 0, 0, false, false, false, None))
  }

  function MarkUpdated(r: Registration): Registration {
    if r.tries == [] then r
    else
      var last := |r.tries| - 1;
      r.(tries := r.tries[last := r.tries[last].(updated := true)])
  }

  function AddOutcome(s: Sys, interval: int, fn: Option<int>): Option<AddError> {
    if interval <= 0 then Some(InvalidInterval)
    else if fn.None? then Some(NilCallback)
    else if s.stopping then Some(SchedulerStopped)
    else None
  }

  function UpdateFor(c: Callback, interval: Interval, fn: int): Update {
    Update(interval, fn, if c.interval > interval then c.interval else interval)
  }

  /** handleAdd for an ID already in the map. */
  function Upserted(e: Entry, interval: Interval, fn: int): Entry {
    var u := UpdateFor(e.cb, interval, fn);
    if e.cb.inFlight then e.(cb := e.cb.(pending := Some(u)))
    else Entry(ApplyUpdate(e.cb, u), MarkUpdated(e.log))
  }

  function HandleAdd(s: Sys, id: int, interval: Interval, fn: int, lastEnd: Option<int>, now: int): Sys {
    if id in s.states then s.(states := s.states[id := Upserted(s.states[id], interval, fn)])
    else
      var c := NewCallback(interval, fn, lastEnd, now);
      s.(states := s.states[id := Entry(c, Registration(id, c.lastEnd, []))])
  }

  function Drop(s: Sys, id: int): Sys
    requires id in s.states
  {
    s.(states := s.states - {id}, closed := s.closed + [s.states[id].log])
  }

  function HandleRemove(s: Sys, id: int): Sys {
    if id !in s.states then s
    else
      var e := s.states[id];
      if e.cb.inFlight then s.(states := s.states[id := e.(cb := e.cb.(removeAfter := true))])
      else Drop(s, id)
  }

  function Begun(e: Entry, now: int): Entry {
    Entry(e.cb.(inFlight := true),
          e.log.(tries := e.log.tries + [Try(CurrentWindow(e.cb), e.cb.interval, now, None, false, 0, 0)]))
  }

  function Begins(s: Sys, ids: set<int>): set<Invocation>
    requires ids <= s.states.Keys
  {
    set id | id in ids :: CurrentInvocation(id, s.states[id].cb)
  }

  function Dispatched(s: Sys, ids: set<int>, now: int): Sys
    requires ids <= s.states.Keys
  {
    s.(states := map id | id in s.states :: if id in ids then Begun(s.states[id], now) else s.states[id],
       running := s.running + multiset(Begins(s, ids)))
  }

  /** One turn of dispatchDue's loop. */
  function StartedIfDue(s: Sys, id: int, now: int): Sys
    requires id in s.states
  {
    if !Due(s.states[id].cb, now) then s
    else
      s.(states := s.states[id := Begun(s.states[id], now)],
         running := s.running + multiset{CurrentInvocation(id, s.states[id].cb)})
  }

  lemma NothingDispatched(s: Sys, ids: set<int>, now: int)
    requires ids == {}
    ensures Dispatched(s, ids, now) == s
  {
    var t := Dispatched(s, ids, now);
    assert t.states == s.states && t.running == s.running;
  }

  function DueIds(s: Sys, now: int): set<int> {
    set id | id in s.states && Due(s.states[id].cb, now)
  }

  lemma BeginsOneMore(s: Sys, ids: set<int>, id: int)
    requires ids <= s.states.Keys && id in s.states && id !in ids
    ensures var one := CurrentInvocation(id, s.states[id].cb);
            one !in Begins(s, ids) && Begins(s, ids + {id}) == Begins(s, ids) + {one}
  {
    assert CurrentInvocation(id, s.states[id].cb) in Begins(s, ids + {id});
  }

  lemma StartedIsOneMore(s: Sys, ids: set<int>, id: int, now: int)
    requires ids <= s.states.Keys && id in s.states && id !in ids && Due(s.states[id].cb, now)
    ensures StartedIfDue(Dispatched(s, ids, now), id, now) == Dispatched(s, ids + {id}, now)
  {
    BeginsOneMore(s, ids, id);
    var t, u := StartedIfDue(Dispatched(s, ids, now), id, now), Dispatched(s, ids + {id}, now);
    assert t.states == u.states;
    var one := CurrentInvocation(id, s.states[id].cb);
    assert multiset(Begins(s, ids + {id})) == multiset(Begins(s, ids)) + multiset{one};
    assert t.running == u.running;
  }

  lemma OneMoreDispatched(s: Sys, todo: set<int>, id: int, now: int)
    requires id in todo && todo <= s.states.Keys
    ensures var due := DueIds(s, now);
            StartedIfDue(Dispatched(s, due - todo, now), id, now) == Dispatched(s, due - (todo - {id}), now)
  {
    var due := DueIds(s, now);
    OneFewerLeft(due, todo, id);
    if id in due {
      StartedIsOneMore(s, due - todo, id, now);
    } else {
      assert due - (todo - {id}) == due - todo;
    }
  }

  function Reported(r: Registration, o: Outcome, updated: bool, delay: int, now: int): Registration {
    if r.tries == [] then r
    else
      var last := |r.tries| - 1;
      r.(tries := r.tries[last := r.tries[last].(result := Some(o), updated := updated, retryAt := now + delay,
                                                 delay := delay)])
  }

  function Completed(c: Callback, w: Window, o: Outcome, delay: int, now: int): Callback {
    var idle := c.(inFlight := false);
    if o.Succeeded? then
      var advanced := idle.(lastEnd := w.end, attempt := 0);
      if c.pending.Some? then ApplyUpdate(advanced, c.pending.value) else PlanNextWindow(advanced)
    else if c.pending.Some? then ApplyUpdate(idle, c.pending.value)
    else if o.Retryable? then
      idle.(attempt := c.attempt + 1, nextStart := w.start, nextEnd := w.end, nextAttempt := now + delay)
    else idle.(disabled := true)
  }

  function HandleCompletion(s: Sys, i: Invocation, o: Outcome, delay: int, now: int): Sys {
    var t := s.(running := s.running - multiset{i});
    if i.id !in s.states then t
    else
      var e := s.states[i.id];
      var log := Reported(e.log, o, e.cb.pending.Some?, delay, now);
      if e.cb.removeAfter then Drop(t.(states := s.states[i.id := e.(log := log)]), i.id)
      else t.(states := s.states[i.id := Entry(Completed(e.cb, i.window, o, delay, now), log)])
  }

  /** Every event is accepted in every state; one that cannot occur, or that the
      scheduler turns away, changes nothing. */
  function Step(s: Sys, e: Event): Sys {
    match e
    case Add(id, interval, fn, lastEnd, now) =>
      if AddOutcome(s, interval, fn).None? then HandleAdd(s, id, interval, fn.value, lastEnd, now) else s
    case Remove(id) => HandleRemove(s, id)
    case DispatchDue(now) => if s.stopping then s else Dispatched(s, DueIds(s, now), now)
    case Complete(i, o, delay, now) => if i in s.running then HandleCompletion(s, i, o, delay, now) else s
    case Stop => s.(stopping := true)
  }

  const EMPTY := Sys(map[], [], multiset{}, false)

  function Run(s: Sys, events: seq<Event>): Sys {
    if events == [] then s else Step(Run(s, events[..|events| - 1]), events[|events| - 1])
  }

  // ---------------------------------------------------------------- invariant

  ghost predicate TryOk(t: Try) {
    && FirstBoundaryAfter(t.window.start, t.interval, t.window.end)
    && t.window.end <= t.at
  }

  /** What one try says about the next try of the same registration. */
  predicate Follows(a: Try, b: Try) {
    && (!a.updated ==> b.interval == a.interval)
    && match a.result
       case None => false
       case Some(Succeeded) => b.window.start == a.window.end
       case Some(Retryable) =>
         b.window.start == a.window.start && (!a.updated ==> b.window == a.window && a.retryAt <= b.at)
       case Some(Permanent) => b.window.start == a.window.start && a.updated
  }

  ghost predicate LogOk(r: Registration) {
    && (forall k :: 0 <= k < |r.tries| ==> TryOk(r.tries[k]))
    && (forall j, k :: 0 <= j && k == j + 1 < |r.tries| ==> Follows(r.tries[j], r.tries[k]))
    && (r.tries != [] ==> r.tries[0].window.start == r.origin)
  }

  /** The instant up to which a registration has collected. */
  function Reached(r: Registration): int {
    if r.tries == [] then r.origin
    else
      var last := r.tries[|r.tries| - 1];
      if last.result == Some(Succeeded) then last.window.end else last.window.start
  }

  ghost predicate CallbackOk(c: Callback) {
    && c.interval <= c.maxWindow
    && c.nextStart == c.lastEnd
    && FirstBoundaryAfter(c.lastEnd, c.interval, c.nextEnd)
    && (c.pending.Some? ==> c.inFlight && c.pending.value.interval <= c.pending.value.maxWindow)
    && (c.removeAfter ==> c.inFlight)
    && !(c.inFlight && c.disabled)
  }

  ghost predicate InStep(c: Callback, r: Registration) {
    && LogOk(r)
    && Reached(r) == c.lastEnd
    && (c.inFlight ==> r.tries != [])
    && (r.tries != [] ==>
          var last := r.tries[|r.tries| - 1];
          && (c.inFlight <==> last.result.None?)
          && (!last.updated ==> c.interval == last.interval)
          && (c.inFlight ==> last.window == CurrentWindow(c) && !last.updated)
          && (last.result == Some(Permanent) && !last.updated ==> c.disabled)
          && (last.result == Some(Retryable) && !last.updated ==> c.nextAttempt == last.retryAt))
  }

  ghost predicate EntryOk(e: Entry) {
    CallbackOk(e.cb) && InStep(e.cb, e.log)
  }

  /** How many running invocations equal `i`. */
  ghost function Expected(states: map<int, Entry>, i: Invocation): nat {
    if i.id in states && states[i.id].cb.inFlight && i == CurrentInvocation(i.id, states[i.id].cb) then 1 else 0
  }

  ghost predicate EntriesOk(s: Sys) {
    && (forall id :: id in s.states ==> EntryOk(s.states[id]) && s.states[id].log.id == id)
    && (forall k :: 0 <= k < |s.closed| ==> LogOk(s.closed[k]))
  }

  /** Each in-flight callback has exactly one running invocation, and nothing else runs. */
  ghost predicate Inv(s: Sys) {
    EntriesOk(s) && forall i: Invocation :: s.running[i] == Expected(s.states, i)
  }

  lemma NewEntryOk(id: int, interval: Interval, fn: int, lastEnd: Option<int>, now: int)
    ensures var c := NewCallback(interval, fn, lastEnd, now);
            EntryOk(Entry(c, Registration(id, c.lastEnd, [])))
  {
    var origin := if lastEnd.Some? then lastEnd.value else NextBoundary(now, interval) - interval;
    PlanReachesFirstBoundary(Callback(interval, fn, origin, interval, 0, 0, 0, 0, false, false, false, None));
  }

  lemma ApplyUpdateOk(c: Callback, u: Update)
    requires u.interval <= u.maxWindow && !c.inFlight && !c.removeAfter
    ensures CallbackOk(ApplyUpdate(c, u)) && ApplyUpdate(c, u).lastEnd == c.lastEnd
  {
    PlanReachesFirstBoundary(c.(interval := u.interval, fn := u.fn, maxWindow := u.maxWindow,
                                pending := None, disabled := false, attempt := 0, nextAttempt := 0));
  }

  lemma MarkUpdatedOk(r: Registration)
    requires LogOk(r)
    requires r.tries != [] ==> r.tries[|r.tries| - 1].result.Some?
    ensures LogOk(MarkUpdated(r)) && Reached(MarkUpdated(r)) == Reached(r)
  {
  }

  lemma UpsertedOk(e: Entry, interval: Interval, fn: int)
    requires EntryOk(e)
    ensures EntryOk(Upserted(e, interval, fn))
  {
    if !e.cb.inFlight {
      ApplyUpdateOk(e.cb, Update(interval, fn, if e.cb.interval > interval then e.cb.interval else interval));
      MarkUpdatedOk(e.log);
    }
  }

  lemma BegunOk(e: Entry, now: int)
    requires EntryOk(e) && Due(e.cb, now)
    ensures EntryOk(Begun(e, now))
  {
    var b := Begun(e, now);
    var n := |e.log.tries|;
    if n > 0 {
      var last := e.log.tries[n - 1];
      if last.result == Some(Retryable) && !last.updated {
        assert last.window.end == e.cb.nextEnd;
      }
      assert Follows(last, b.log.tries[n]);
    }
    forall j, k | 0 <= j && k == j + 1 < |b.log.tries|
      ensures Follows(b.log.tries[j], b.log.tries[k])
    {
    }
  }

  lemma ReportedOk(r: Registration, o: Outcome, updated: bool, delay: int, now: int)
    requires LogOk(r)
    ensures LogOk(Reported(r, o, updated, delay, now))
  {
  }

  lemma CompletedOk(e: Entry, o: Outcome, delay: int, now: int)
    requires EntryOk(e) && e.cb.inFlight && !e.cb.removeAfter
    ensures EntryOk(Entry(Completed(e.cb, CurrentWindow(e.cb), o, delay, now),
                          Reported(e.log, o, e.cb.pending.Some?, delay, now)))
  {
    var c := e.cb;
    var idle := c.(inFlight := false);
    ReportedOk(e.log, o, c.pending.Some?, delay, now);
    if o.Succeeded? {
      var advanced := idle.(lastEnd := c.nextEnd, attempt := 0);
      if c.pending.Some? { ApplyUpdateOk(advanced, c.pending.value); } else { PlanReachesFirstBoundary(advanced); }
    } else if c.pending.Some? {
      ApplyUpdateOk(idle, c.pending.value);
    }
  }

  lemma DispatchKeepsInv(s: Sys, now: int)
    requires Inv(s)
    ensures Inv(Dispatched(s, DueIds(s, now), now))
  {
    var ids := DueIds(s, now);
    var t := Dispatched(s, ids, now);
    forall id | id in t.states
      ensures EntryOk(t.states[id]) && t.states[id].log.id == id
    {
      if id in ids { BegunOk(s.states[id], now); }
    }
    var begun := Begins(s, ids);
    forall i: Invocation
      ensures t.running[i] == Expected(t.states, i)
    {
      assert t.running[i] == s.running[i] + (if i in begun then 1 else 0);
      assert i in begun <==> i.id in ids && i == CurrentInvocation(i.id, s.states[i.id].cb);
    }
  }

  lemma CompletionKeepsRunning(s: Sys, i: Invocation, o: Outcome, delay: int, now: int)
    requires Inv(s) && i in s.running
    ensures var t := HandleCompletion(s, i, o, delay, now);
            forall j: Invocation :: t.running[j] == Expected(t.states, j)
  {
    assert Expected(s.states, i) == 1;
    var t := HandleCompletion(s, i, o, delay, now);
    assert i.id in t.states ==> !t.states[i.id].cb.inFlight;
    forall j: Invocation
      ensures t.running[j] == Expected(t.states, j)
    {
      assert s.running[j] == Expected(s.states, j);
    }
  }

  lemma RunningIsCurrent(s: Sys, i: Invocation)
    requires Inv(s) && i in s.running
    ensures i.id in s.states && s.states[i.id].cb.inFlight && i == CurrentInvocation(i.id, s.states[i.id].cb)
    ensures EntryOk(s.states[i.id])
  {
    assert Expected(s.states, i) == 1;
  }

  lemma DropKeepsEntries(s: Sys, id: int, log: Registration, t: Sys)
    requires EntriesOk(s) && LogOk(log)
    requires t.states == s.states - {id} && t.closed == s.closed + [log]
    ensures EntriesOk(t)
  {
  }

  lemma ReplaceKeepsEntries(s: Sys, id: int, e: Entry, t: Sys)
    requires EntriesOk(s) && EntryOk(e) && e.log.id == id
    requires t.states == s.states[id := e] && t.closed == s.closed
    ensures EntriesOk(t)
  {
  }

  lemma CompletionKeepsEntries(s: Sys, i: Invocation, o: Outcome, delay: int, now: int)
    requires Inv(s) && i in s.running
    ensures EntriesOk(HandleCompletion(s, i, o, delay, now))
  {
    RunningIsCurrent(s, i);
    var e := s.states[i.id];
    var log := Reported(e.log, o, e.cb.pending.Some?, delay, now);
    ReportedOk(e.log, o, e.cb.pending.Some?, delay, now);
    var t := HandleCompletion(s, i, o, delay, now);
    if e.cb.removeAfter {
      DropKeepsEntries(s, i.id, log, t);
    } else {
      CompletedOk(e, o, delay, now);
      ReplaceKeepsEntries(s, i.id, Entry(Completed(e.cb, i.window, o, delay, now), log), t);
    }
  }

  lemma CompletionKeepsInv(s: Sys, i: Invocation, o: Outcome, delay: int, now: int)
    requires Inv(s) && i in s.running
    ensures Inv(HandleCompletion(s, i, o, delay, now))
  {
    CompletionKeepsEntries(s, i, o, delay, now);
    CompletionKeepsRunning(s, i, o, delay, now);
  }

  lemma AddKeepsInv(s: Sys, id: int, interval: Interval, fn: int, lastEnd: Option<int>, now: int)
    requires Inv(s)
    ensures Inv(HandleAdd(s, id, interval, fn, lastEnd, now))
  {
    var t := HandleAdd(s, id, interval, fn, lastEnd, now);
    if id in s.states { UpsertedOk(s.states[id], interval, fn); } else { NewEntryOk(id, interval, fn, lastEnd, now); }
    forall i: Invocation
      ensures t.running[i] == Expected(t.states, i)
    {
      assert s.running[i] == Expected(s.states, i);
    }
  }

  lemma RemoveAfterOk(e: Entry)
    requires EntryOk(e) && e.cb.inFlight
    ensures EntryOk(e.(cb := e.cb.(removeAfter := true)))
  {
  }

  lemma RemoveKeepsInv(s: Sys, id: int)
    requires Inv(s)
    ensures Inv(HandleRemove(s, id))
  {
    var t := HandleRemove(s, id);
    if id in s.states && s.states[id].cb.inFlight { RemoveAfterOk(s.states[id]); }
    forall i: Invocation
      ensures t.running[i] == Expected(t.states, i)
    {
      assert s.running[i] == Expected(s.states, i);
    }
  }

  lemma StepKeepsInv(s: Sys, e: Event)
    requires Inv(s)
    ensures Inv(Step(s, e))
  {
    match e
    case Add(id, interval, fn, lastEnd, now) =>
      if AddOutcome(s, interval, fn).None? { AddKeepsInv(s, id, interval, fn.value, lastEnd, now); }
    case Remove(id) => RemoveKeepsInv(s, id);
    case DispatchDue(now) => DispatchKeepsInv(s, now);
    case Complete(i, o, delay, now) => if i in s.running { CompletionKeepsInv(s, i, o, delay, now); }
    case Stop =>
  }

  lemma {:induction false} RunKeepsInv(s: Sys, events: seq<Event>)
    requires Inv(s)
    ensures Inv(Run(s, events))
  {
    if events != [] {
      RunKeepsInv(s, events[..|events| - 1]);
      StepKeepsInv(Run(s, events[..|events| - 1]), events[|events| - 1]);
    }
  }

  // ---------------------------------------------------------------- whole runs

  function Successes(tries: seq<Try>): seq<Window> {
    if tries == [] then []
    else
      var last := tries[|tries| - 1];
      Successes(tries[..|tries| - 1]) + if last.result == Some(Succeeded) then [last.window] else []
  }

  /** The windows run from `from` to `to`, each starting where the one before it ended. */
  ghost predicate Chain(from: int, windows: seq<Window>, to: int) {
    if windows == [] then from == to
    else
      var last := windows[|windows| - 1];
      last.start < last.end == to && Chain(from, windows[..|windows| - 1], last.start)
  }

  predicate Holds(w: Window, t: int) {
    w.start <= t < w.end
  }

  /** A chain leaves no gap and no overlap: each instant lies in exactly one window. */
  lemma {:induction false} ChainCoversOnce(from: int, windows: seq<Window>, to: int, t: int)
    requires Chain(from, windows, to)
    ensures from <= to
    ensures from <= t < to <==> exists k :: 0 <= k < |windows| && Holds(windows[k], t)
    ensures forall j, k :: 0 <= j < k < |windows| ==> !(Holds(windows[j], t) && Holds(windows[k], t))
  {
    if windows != [] {
      var n := |windows| - 1;
      ChainCoversOnce(from, windows[..n], windows[n].start, t);
      if from <= t < windows[n].start {
        var k :| 0 <= k < n && Holds(windows[..n][k], t);
        assert Holds(windows[k], t);
      }
      forall k | 0 <= k < |windows| && Holds(windows[k], t)
        ensures from <= t < to
      {
        if k < n { assert Holds(windows[..n][k], t); }
      }
      forall j, k | 0 <= j < k < |windows|
        ensures !(Holds(windows[j], t) && Holds(windows[k], t))
      {
        if Holds(windows[j], t) { assert Holds(windows[..n][j], t); }
      }
    }
  }

  lemma {:induction false} SuccessesFormChain(r: Registration)
    requires LogOk(r)
    ensures Chain(r.origin, Successes(r.tries), Reached(r))
    decreases |r.tries|
  {
    if r.tries != [] {
      var n := |r.tries| - 1;
      var earlier := r.(tries := r.tries[..n]);
      assert LogOk(earlier);
      SuccessesFormChain(earlier);
      var last := r.tries[n];
      if n > 0 { assert Follows(r.tries[n - 1], last); }
      assert last.window.start == Reached(earlier);
      var done := Successes(earlier.tries);
      assert (done + [last.window])[..|done|] == done && done + [] == done;
    }
  }

  ghost predicate HasLog(s: Sys, r: Registration) {
    (exists id :: id in s.states && s.states[id].log == r) || r in s.closed
  }

  /** For every registration in every run, live or ended: the windows collected
      successfully form one chain from the first lastEnd to the current one. */
  lemma SuccessfulWindowsFormChain(events: seq<Event>, r: Registration)
    requires HasLog(Run(EMPTY, events), r)
    ensures Chain(r.origin, Successes(r.tries), Reached(r))
    ensures forall id :: id in Run(EMPTY, events).states && Run(EMPTY, events).states[id].log == r ==>
              Reached(r) == Run(EMPTY, events).states[id].cb.lastEnd
  {
    RunKeepsInv(EMPTY, events);
    SuccessesFormChain(r);
  }

  /** In every run each window ends on the first boundary of its interval after its
      start and is dispatched no earlier than that; a retryable failure is followed by
      the very same window, no earlier than its delay allows, unless an update came between; a permanent failure is
      followed by nothing until an update; and once two windows in a row succeed
      under one interval, the later one lasts exactly that interval. */
  lemma EveryTryIsInOrder(events: seq<Event>, r: Registration, k: nat)
    requires HasLog(Run(EMPTY, events), r) && k < |r.tries|
    ensures var t := r.tries[k];
            FirstBoundaryAfter(t.window.start, t.interval, t.window.end) && t.window.end <= t.at
    ensures k + 1 < |r.tries| ==>
              var a, b := r.tries[k], r.tries[k + 1];
              && (a.result == Some(Succeeded) ==> b.window.start == a.window.end)
              && (a.result == Some(Retryable) && !a.updated ==> b.window == a.window && a.retryAt <= b.at)
              && (a.result == Some(Permanent) ==> a.updated)
              && (a.result != Some(Succeeded) ==> b.window.start == a.window.start)
              && (a.result == Some(Succeeded) && !a.updated ==>
                    b.interval == a.interval && b.window.end == b.window.start + b.interval)
  {
    RunKeepsInv(EMPTY, events);
    assert LogOk(r);
    if k + 1 < |r.tries| {
      var a, b := r.tries[k], r.tries[k + 1];
      assert Follows(a, b);
      if a.result == Some(Succeeded) && !a.updated {
        MultiplesAreSpaced(b.window.start, b.window.end, b.interval);
      }
    }
  }

  /** No run ever has two invocations of one callback ID at the same time. */
  lemma AtMostOneInvocation(events: seq<Event>, i: Invocation, j: Invocation)
    requires i in Run(EMPTY, events).running && j in Run(EMPTY, events).running && i.id == j.id
    ensures i == j && Run(EMPTY, events).running[i] == 1
    ensures i.id in Run(EMPTY, events).states && Run(EMPTY, events).states[i.id].cb.inFlight
  {
    RunKeepsInv(EMPTY, events);
    assert Run(EMPTY, events).running[i] == Expected(Run(EMPTY, events).states, i);
    assert Run(EMPTY, events).running[j] == Expected(Run(EMPTY, events).states, j);
  }

  predicate IsReport(s: Sys, e: Event) {
    e.Complete? && e.invocation in s.running
  }

  lemma StoppedStep(s: Sys, e: Event)
    requires Inv(s) && s.stopping
    ensures Step(s, e).stopping
    ensures Step(s, e).running == if IsReport(s, e) then s.running - multiset{e.invocation} else s.running
  {
    match e
    case Complete(i, _, _, _) => if i in s.running { assert Expected(s.states, i) == 1; }
    case _ =>
  }

  lemma IdleExactlyWhenNothingRuns(s: Sys)
    requires Inv(s)
    ensures (forall id :: id in s.states ==> !s.states[id].cb.inFlight) <==> s.running == multiset{}
  {
    forall id | id in s.states && s.states[id].cb.inFlight
      ensures s.running != multiset{}
    {
      var i := CurrentInvocation(id, s.states[id].cb);
      assert s.running[i] == Expected(s.states, i);
    }
    if forall id :: id in s.states ==> !s.states[id].cb.inFlight {
      assert forall i: Invocation :: s.running[i] == Expected(s.states, i) == 0;
    }
  }

  /** After stop begins, whatever happens next starts nothing: the running invocations
      are those that were running then, less the ones that have reported. */
  lemma {:induction false} StopDrains(s: Sys, events: seq<Event>)
    requires Inv(s) && s.stopping
    ensures Run(s, events).stopping && Run(s, events).running <= s.running
    ensures |Run(s, events).running| + Reports(s, events) == |s.running|
  {
    if events != [] {
      StopDrains(s, events[..|events| - 1]);
      RunKeepsInv(s, events[..|events| - 1]);
      StoppedStep(Run(s, events[..|events| - 1]), events[|events| - 1]);
    }
  }

  /** How many events of the run are reports of an invocation running at that point. */
  function Reports(s: Sys, events: seq<Event>): nat {
    if events == [] then 0
    else
      Reports(s, events[..|events| - 1])
      + if IsReport(Run(s, events[..|events| - 1]), events[|events| - 1]) then 1 else 0
  }

  // ---------------------------------------------------------------- updates while an invocation runs

  predicate Accepted(s: Sys, e: Event, id: int) {
    e.Add? && e.id == id && AddOutcome(s, e.interval, e.fn).None?
  }

  /** The update that waits for the report: the last one accepted, if any. */
  function Waiting(s: Sys, id: int, events: seq<Event>): Option<Update>
    requires id in s.states
  {
    if events == [] then s.states[id].cb.pending
    else
      var before, last := events[..|events| - 1], events[|events| - 1];
      if Accepted(Run(s, before), last, id) then
        Some(UpdateFor(s.states[id].cb, last.interval, last.fn.value))
      else Waiting(s, id, before)
  }

  predicate IsReportOf(e: Event, i: Invocation) {
    e.Complete? && e.invocation == i
  }

  lemma ReportOfAnother(s: Sys, id: int, e: Event)
    requires Inv(s) && id in s.states && s.states[id].cb.inFlight && e.Complete?
    requires e.invocation != CurrentInvocation(id, s.states[id].cb)
    ensures id in Step(s, e).states && Step(s, e).states[id].cb == s.states[id].cb
  {
    assert s.running[e.invocation] == Expected(s.states, e.invocation);
  }

  lemma InFlightStep(s: Sys, id: int, e: Event)
    requires Inv(s) && id in s.states && s.states[id].cb.inFlight
             && !IsReportOf(e, CurrentInvocation(id, s.states[id].cb))
    ensures var c := s.states[id].cb;
            && id in Step(s, e).states
            && Step(s, e).states[id].cb ==
                 if Accepted(s, e, id) then c.(pending := Some(UpdateFor(c, e.interval, e.fn.value)))
                 else c.(removeAfter := c.removeAfter || e == Remove(id))
  {
    if e.Complete? { ReportOfAnother(s, id, e); }
  }

  lemma RunningIsInFlight(s: Sys, i: Invocation)
    requires Inv(s)
    ensures i in s.running <==>
              i.id in s.states && s.states[i.id].cb.inFlight && i == CurrentInvocation(i.id, s.states[i.id].cb)
  {
    assert s.running[i] == Expected(s.states, i);
  }

  /** The callback of a running invocation, with what came in since. */
  ghost predicate InFlightWith(c: Callback, t: Sys, i: Invocation, waiting: Option<Update>, removed: bool) {
    && Inv(t) && i in t.running && i.id in t.states
    && t.states[i.id].cb == c.(pending := waiting, removeAfter := c.removeAfter || removed)
  }

  lemma InFlightOneMore(c: Callback, t: Sys, i: Invocation, waiting: Option<Update>, removed: bool, e: Event)
    requires InFlightWith(c, t, i, waiting, removed) && !IsReportOf(e, i)
    ensures InFlightWith(c, Step(t, e), i,
                         if Accepted(t, e, i.id) then Some(UpdateFor(c, e.interval, e.fn.value)) else waiting,
                         removed || e == Remove(i.id))
  {
    RunningIsInFlight(t, i);
    InFlightStep(t, i.id, e);
    StepKeepsInv(t, e);
    RunningIsInFlight(Step(t, e), i);
  }

  lemma {:induction false} InFlightUntilReport(s: Sys, i: Invocation, events: seq<Event>)
    requires Inv(s) && i in s.running && forall k :: 0 <= k < |events| ==> !IsReportOf(events[k], i)
    ensures i.id in s.states
    ensures InFlightWith(s.states[i.id].cb, Run(s, events), i, Waiting(s, i.id, events), Remove(i.id) in events)
  {
    RunningIsInFlight(s, i);
    if events != [] {
      var before, last := events[..|events| - 1], events[|events| - 1];
      InFlightUntilReport(s, i, before);
      InFlightOneMore(s.states[i.id].cb, Run(s, before), i, Waiting(s, i.id, before), Remove(i.id) in before, last);
      LastOfRun(s, i.id, events);
    }
  }

  lemma LastOfRun(s: Sys, id: int, events: seq<Event>)
    requires id in s.states && events != []
    ensures var before, last := events[..|events| - 1], events[|events| - 1];
            && Run(s, events) == Step(Run(s, before), last)
            && (Remove(id) in events <==> Remove(id) in before || last == Remove(id))
            && Waiting(s, id, events) ==
                 if Accepted(Run(s, before), last, id)
                   then Some(UpdateFor(s.states[id].cb, last.interval, last.fn.value))
                 else Waiting(s, id, before)
  {
    var before, last := events[..|events| - 1], events[|events| - 1];
    assert events == before + [last];
  }

  /** Whatever happens between the start of an invocation and its report: at the report the callback
      goes exactly if a removal was asked for at some point, before or after any update; otherwise the
      last update accepted takes effect, from where the reported window leaves lastEnd. */
  lemma AddInFlightSurvives(s: Sys, i: Invocation, events: seq<Event>, o: Outcome, delay: int, later: int)
    requires Inv(s) && i in s.running && forall k :: 0 <= k < |events| ==> !IsReportOf(events[k], i)
    ensures i.id in s.states
    ensures var t, before, update := Step(Run(s, events), Complete(i, o, delay, later)), s.states[i.id].cb,
            Waiting(s, i.id, events);
            && (i.id in t.states <==> !before.removeAfter && Remove(i.id) !in events)
            && (i.id in t.states ==>
                  var c := t.states[i.id].cb;
                  && !c.inFlight && c.pending.None?
                  && c.lastEnd == (if o.Succeeded? then i.window.end else i.window.start)
                  && (match update
                      case Some(u) =>
                        && c.interval == u.interval && c.fn == u.fn && !c.disabled && c.attempt == 0
                        && FirstBoundaryAfter(c.lastEnd, u.interval, c.nextEnd)
                      case None =>
                        c.interval == before.interval && c.fn == before.fn && (c.disabled <==> o.Permanent?)))
  {
    InFlightUntilReport(s, i, events);
    var r := Run(s, events);
    assert r.running[i] == Expected(r.states, i) == 1;
    StepKeepsInv(r, Complete(i, o, delay, later));
  }

  /** An accepted re-add is lost to a removal that came before it. */
  ghost predicate LosesAdd(before: seq<Event>, again: Event, report: Event) {
    && Remove(1) in before && Accepted(Run(EMPTY, before), again, 1) && 1 in Run(EMPTY, before + [again]).states
    && report.Complete? && 1 !in Run(EMPTY, before + [again] + [report]).states
  }

  ghost predicate Alone(s: Sys, c: Callback) {
    Inv(s) && s.states.Keys == {1} && s.states[1].cb == c && !s.stopping
  }

  lemma FirstAdd(c: Callback)
    requires c == Callback(10, 7, 0, 10, 0, 10, 0, 0, false, false, false, None)
    ensures Alone(Step(EMPTY, Add(1, 10, Some(7), Some(0), 0)), c)
  {
    StepKeepsInv(EMPTY, Add(1, 10, Some(7), Some(0), 0));
  }

  lemma DispatchAlone(s: Sys, c: Callback)
    requires Alone(s, c) && Due(c, 10)
    ensures Alone(Step(s, DispatchDue(10)), c.(inFlight := true))
  {
    StepKeepsInv(s, DispatchDue(10));
  }

  lemma RemoveAlone(s: Sys, c: Callback)
    requires Alone(s, c) && c.inFlight
    ensures Alone(Step(s, Remove(1)), c.(removeAfter := true))
  {
    StepKeepsInv(s, Remove(1));
  }

  lemma AddAlone(s: Sys, c: Callback, e: Event)
    requires Alone(s, c) && c.inFlight && Accepted(s, e, 1)
    ensures Alone(Step(s, e), c.(pending := Some(UpdateFor(c, e.interval, e.fn.value))))
  {
    StepKeepsInv(s, e);
  }

  lemma ReportAlone(s: Sys, c: Callback, o: Outcome)
    requires Alone(s, c) && c.inFlight && c.removeAfter
    ensures 1 !in Step(s, Complete(CurrentInvocation(1, c), o, 0, 12)).states
  {
    RunningIsInFlight(s, CurrentInvocation(1, c));
  }

  lemma OneMoreEvent(events: seq<Event>, e: Event)
    ensures Run(EMPTY, events + [e]) == Step(Run(EMPTY, events), e)
  {
    assert (events + [e])[..|events|] == events;
  }

  lemma BeforeReAdd(c: Callback) returns (events: seq<Event>)
    requires c == Callback(10, 7, 0, 10, 0, 10, 0, 0, true, false, true, None)
    ensures Remove(1) in events && Alone(Run(EMPTY, events), c)
  {
    var added := c.(inFlight := false, removeAfter := false);
    events := [] + [Add(1, 10, Some(7), Some(0), 0)];
    OneMoreEvent([], Add(1, 10, Some(7), Some(0), 0));
    FirstAdd(added);
    OneMoreEvent(events, DispatchDue(10));
    DispatchAlone(Run(EMPTY, events), added);
    events := events + [DispatchDue(10)];
    OneMoreEvent(events, Remove(1));
    RemoveAlone(Run(EMPTY, events), added.(inFlight := true));
    events := events + [Remove(1)];
  }

  /** A re-add accepted while a removal waits is answered like any other, and dropped with the callback. */
  lemma RemovedThenReadded()
    ensures exists before, again, report :: LosesAdd(before, again, report)
  {
    var c := Callback(10, 7, 0, 10, 0, 10, 0, 0, true, false, true, None);
    var before := BeforeReAdd(c);
    var again, report := Add(1, 20, Some(8), None, 11), Complete(CurrentInvocation(1, c), Succeeded, 0, 12);
    OneMoreEvent(before, again);
    AddAlone(Run(EMPTY, before), c, again);
    OneMoreEvent(before + [again], report);
    ReportAlone(Run(EMPTY, before + [again]), c.(pending := Some(UpdateFor(c, 20, 8))), Succeeded);
    assert LosesAdd(before, again, report);
  }
}
