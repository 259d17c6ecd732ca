/**
What each step of the scheduler does to a callback, field by field, and when a planned window starts:
not only no earlier than it may, but at the first dispatch from then on.
*/
module SchedulerEffects {
  import opened Options
  import opened SchedulerModel

  /** A dispatch before the stop starts exactly the enabled idle callbacks whose window has ended and whose
      delay has passed, each with its planned window, and touches no other. */
  lemma DispatchStartsExactly(s: Sys, now: int)
    requires !s.stopping
    ensures var t := Step(s, DispatchDue(now));
            && t.states.Keys == s.states.Keys && t.closed == s.closed && !t.stopping
            && (forall id :: id in s.states ==>
                  var c := s.states[id].cb;
                  if !c.disabled && !c.inFlight && c.nextAttempt <= now && c.nextEnd <= now then
                    t.states[id].cb == c.(inFlight := true)
                  else t.states[id] == s.states[id])
            && forall i: Invocation ::
                 t.running[i] ==
                 s.running[i]
                 + if i.id in s.states
                      && (var c := s.states[i.id].cb;
                          && !c.disabled && !c.inFlight && c.nextAttempt <= now && c.nextEnd <= now
                          && i.fn == c.fn && i.window.start == c.nextStart && i.window.end == c.nextEnd)
                   then 1 else 0
  {
    var ids := DueIds(s, now);
    var t, begun := Dispatched(s, ids, now), Begins(s, ids);
    forall i: Invocation
      ensures t.running[i] == s.running[i] + if i in begun then 1 else 0
      ensures i in begun <==> i.id in ids && i == CurrentInvocation(i.id, s.states[i.id].cb)
    {
    }
  }

  /** Once stopping began a dispatch does nothing. */
  lemma StopEndsDispatch(s: Sys, now: int)
    ensures Step(s, Stop) == s.(stopping := true)
    ensures s.stopping ==> Step(s, DispatchDue(now)) == s
  {
  }

  // ---------------------------------------------------------------- adding, updating, removing

  /** A new callback starts idle and enabled, from the lastEnd given or from the last boundary before now,
      and with the first window after that. */
  lemma NewCallbackStarts(s: Sys, id: int, interval: Interval, fn: int, lastEnd: Option<int>, now: int)
    requires id !in s.states && !s.stopping
    ensures var t := Step(s, Add(id, interval, Some(fn), lastEnd, now));
            && t.states.Keys == s.states.Keys + {id} && t.running == s.running && t.closed == s.closed
            && (forall j :: j in s.states ==> t.states[j] == s.states[j])
            && var c := t.states[id].cb;
               && c.interval == interval && c.fn == fn && c.maxWindow == interval && c.pending.None?
               && !c.inFlight && !c.disabled && !c.removeAfter && c.attempt == 0 && c.nextAttempt == 0
               && (match lastEnd
                   case Some(given) => c.lastEnd == given
                   case None => Aligned(c.lastEnd, interval) && c.lastEnd < now <= c.lastEnd + interval)
               && c.nextStart == c.lastEnd && FirstBoundaryAfter(c.lastEnd, interval, c.nextEnd)
               && t.states[id].log == Registration(id, c.lastEnd, [])
  {
    NewEntryOk(id, interval, fn, lastEnd, now);
    if lastEnd.None? { LastBoundary(now, interval); }
  }

  lemma LastBoundary(now: int, interval: Interval)
    ensures var last := NextBoundary(now, interval) - interval; Aligned(last, interval) && last < now <= last + interval
  {
    RoundedDownIsAligned(now, interval);
    var floor := now - now % interval;
    if floor == now { MultiplesAreShifted(floor, interval); }
  }

  lemma MultiplesAreShifted(t: int, interval: Interval)
    requires Aligned(t, interval)
    ensures Aligned(t - interval, interval)
  {
    var q := t / interval;
    assert t == interval * q && interval * (q - 1) == t - interval;
    MultipleIsAligned(q - 1, interval);
  }

  /** Adding an idle callback again updates it at once: it is enabled, goes on from its lastEnd with the new
      interval, and forgets its failures and its delay. */
  lemma IdleCallbackIsUpdated(s: Sys, id: int, interval: Interval, fn: int, lastEnd: Option<int>, now: int)
    requires Inv(s) && id in s.states && !s.states[id].cb.inFlight && !s.stopping
    ensures var t := Step(s, Add(id, interval, Some(fn), lastEnd, now));
            && t.states.Keys == s.states.Keys && t.running == s.running && t.closed == s.closed
            && (forall j :: j in s.states && j != id ==> t.states[j] == s.states[j])
            && var before, c := s.states[id].cb, t.states[id].cb;
               && c.interval == interval && c.fn == fn && c.pending.None? && interval <= c.maxWindow
               && !c.inFlight && !c.disabled && !c.removeAfter && c.attempt == 0 && c.nextAttempt == 0
               && c.lastEnd == before.lastEnd == c.nextStart && FirstBoundaryAfter(c.lastEnd, interval, c.nextEnd)
  {
    assert EntryOk(s.states[id]);
    UpsertedOk(s.states[id], interval, fn);
  }

  /** Adding one in flight leaves it as it is and keeps the update for the report. */
  lemma RunningCallbackKeepsUpdate(s: Sys, id: int, interval: Interval, fn: int, lastEnd: Option<int>, now: int)
    requires id in s.states && s.states[id].cb.inFlight && !s.stopping
    ensures var t := Step(s, Add(id, interval, Some(fn), lastEnd, now));
            && t.states.Keys == s.states.Keys && t.running == s.running && t.closed == s.closed
            && (forall j :: j in s.states && j != id ==> t.states[j] == s.states[j])
            && t.states[id].log == s.states[id].log && t.states[id].cb.pending.Some?
            && t.states[id].cb == s.states[id].cb.(pending := t.states[id].cb.pending)
            && var u := t.states[id].cb.pending.value;
               u.interval == interval && u.fn == fn && u.maxWindow >= interval
               && u.maxWindow >= s.states[id].cb.interval
  {
  }

  /** Removing ends an idle callback at once and marks a running one; nothing else changes. */
  lemma RemovalEndsIdle(s: Sys, id: int)
    ensures var t := Step(s, Remove(id));
            && t.running == s.running && t.stopping == s.stopping
            && (forall j :: j in s.states && j != id ==> j in t.states && t.states[j] == s.states[j])
            && (forall j :: j in t.states ==> j in s.states)
            && (id in t.states <==> id in s.states && s.states[id].cb.inFlight)
            && (id in t.states ==> t.states[id] == s.states[id].(cb := s.states[id].cb.(removeAfter := true)))
            && t.closed == if id in s.states && id !in t.states then s.closed + [s.states[id].log] else s.closed
  {
  }

  /** What is refused changes nothing. */
  lemma RefusedAddChangesNothing(s: Sys, id: int, interval: Interval, fn: Option<int>, lastEnd: Option<int>, now: int)
    requires s.stopping || fn.None?
    ensures Step(s, Add(id, interval, fn, lastEnd, now)) == s
  {
  }

  // ---------------------------------------------------------------- reports

  /** What a report leaves of a callback without an update or a removal waiting. */
  ghost predicate ReportedCallback(c: Callback, after: Callback, w: Window, o: Outcome, delay: int, now: int) {
    && !after.inFlight && !after.removeAfter && after.pending.None?
    && after.interval == c.interval && after.fn == c.fn && after.maxWindow == c.maxWindow
    && (match o
        case Succeeded =>
          && !after.disabled && after.attempt == 0 && after.nextAttempt == 0
          && after.lastEnd == w.end == after.nextStart && FirstBoundaryAfter(w.end, c.interval, after.nextEnd)
        case Retryable =>
          && !after.disabled && after.attempt == c.attempt + 1 && after.nextAttempt == now + delay
          && after.lastEnd == c.lastEnd && after.nextStart == w.start && after.nextEnd == w.end
        case Permanent => after.disabled && after.lastEnd == c.lastEnd && after.attempt == c.attempt)
  }

  /** What it leaves when an update waits: the update, from wherever the window leaves lastEnd. */
  ghost predicate UpdatedCallback(c: Callback, after: Callback, w: Window, o: Outcome)
    requires c.pending.Some?
  {
    && !after.inFlight && !after.removeAfter && after.pending.None? && !after.disabled
    && after.interval == c.pending.value.interval && after.fn == c.pending.value.fn
    && after.maxWindow == c.pending.value.maxWindow && after.attempt == 0 && after.nextAttempt == 0
    && after.lastEnd == after.nextStart == (if o.Succeeded? then w.end else c.lastEnd)
    && FirstBoundaryAfter(after.lastEnd, after.interval, after.nextEnd)
  }

  lemma CompletedFields(e: Entry, o: Outcome, delay: int, now: int)
    requires EntryOk(e) && e.cb.inFlight && !e.cb.removeAfter
    ensures var after := Completed(e.cb, CurrentWindow(e.cb), o, delay, now);
            if e.cb.pending.Some? then UpdatedCallback(e.cb, after, CurrentWindow(e.cb), o)
            else ReportedCallback(e.cb, after, CurrentWindow(e.cb), o, delay, now)
  {
    CompletedOk(e, o, delay, now);
  }

  lemma ReportOfOthers(s: Sys, id: int, i: Invocation, o: Outcome, delay: int, now: int)
    requires id in s.states && i.id != id
    ensures var t := HandleCompletion(s, i, o, delay, now); id in t.states && t.states[id] == s.states[id]
  {
  }

  lemma ReportOnOne(s: Sys, i: Invocation, o: Outcome, delay: int, now: int)
    requires i.id in s.states && i in s.running
    ensures var t, c := Step(s, Complete(i, o, delay, now)), s.states[i.id].cb;
            && t.running == s.running - multiset{i} && (i.id in t.states <==> !c.removeAfter)
            && (i.id in t.states ==> t.states[i.id].cb == Completed(c, i.window, o, delay, now))
  {
  }

  /** A report ends its invocation; the callback goes if a removal waits, and is otherwise left as above. */
  lemma ReportEffects(s: Sys, i: Invocation, o: Outcome, delay: int, now: int)
    requires Inv(s) && i in s.running
    ensures var t := Step(s, Complete(i, o, delay, now));
            && i.id in s.states && t.running == s.running - multiset{i} && i !in t.running
            && (forall j :: j in s.states && j != i.id ==> j in t.states && t.states[j] == s.states[j])
            && (i.id in t.states <==> !s.states[i.id].cb.removeAfter)
            && (i.id in t.states ==>
                  var c, after := s.states[i.id].cb, t.states[i.id].cb;
                  if c.pending.Some? then UpdatedCallback(c, after, i.window, o)
                  else ReportedCallback(c, after, i.window, o, delay, now))
  {
    RunningIsCurrent(s, i);
    assert s.running[i] == Expected(s.states, i) == 1;
    ReportOnOne(s, i, o, delay, now);
    forall j | j in s.states && j != i.id
      ensures j in Step(s, Complete(i, o, delay, now)).states
      ensures Step(s, Complete(i, o, delay, now)).states[j] == s.states[j]
    {
      ReportOfOthers(s, j, i, o, delay, now);
    }
    if !s.states[i.id].cb.removeAfter { CompletedFields(s.states[i.id], o, delay, now); }
  }

  // ---------------------------------------------------------------- a planned window starts

  /** Nobody removes or updates the callback or stops the scheduler, and no dispatch comes late enough. */
  ghost predicate LeavesWaiting(events: seq<Event>, id: int, c: Callback) {
    forall e :: e in events ==>
      && e != Stop && e != Remove(id) && !(e.Add? && e.id == id)
      && (e.DispatchDue? ==> e.now < c.nextAttempt || e.now < c.nextEnd)
  }

  ghost predicate Waits(s: Sys, id: int, c: Callback) {
    Inv(s) && !s.stopping && id in s.states && s.states[id].cb == c && !c.inFlight && !c.disabled
  }

  lemma AddsOfOthers(s: Sys, id: int, e: Event)
    requires id in s.states && (e.Add? || e.Remove?) && e.id != id
    ensures id in Step(s, e).states && Step(s, e).states[id] == s.states[id] && Step(s, e).stopping == s.stopping
  {
  }

  lemma WaitsOn(s: Sys, id: int, c: Callback, e: Event)
    requires Waits(s, id, c) && LeavesWaiting([e], id, c)
    ensures Waits(Step(s, e), id, c)
  {
    assert e in [e];
    StepKeepsInv(s, e);
    match e
    case Complete(i, o, delay, now) =>
      RunningIsInFlight(s, i);
      if i in s.running { ReportOfOthers(s, id, i, o, delay, now); }
    case DispatchDue(now) => DispatchStartsExactly(s, now);
    case Add(j, _, _, _, _) => AddsOfOthers(s, id, e);
    case Remove(j) => AddsOfOthers(s, id, e);
    case Stop =>
  }

  lemma {:induction false} WaitsUntilDispatch(s: Sys, id: int, c: Callback, events: seq<Event>)
    requires Waits(s, id, c) && LeavesWaiting(events, id, c)
    ensures Waits(Run(s, events), id, c)
  {
    if events != [] {
      var before, last := events[..|events| - 1], events[|events| - 1];
      assert events == before + [last] && last in events;
      WaitsUntilDispatch(s, id, c, before);
      WaitsOn(Run(s, before), id, c, last);
    }
  }

  /** An enabled idle callback that is left alone keeps its plan, and the first dispatch at which its window has
      ended and its delay has passed starts that window; an earlier one does not. */
  lemma PlannedWindowStartsExactly(s: Sys, id: int, c: Callback, events: seq<Event>, now: int)
    requires Waits(s, id, c) && LeavesWaiting(events, id, c)
    ensures Invocation(id, c.fn, Window(c.nextStart, c.nextEnd)) in Step(Run(s, events), DispatchDue(now)).running <==>
              c.nextAttempt <= now && c.nextEnd <= now
  {
    WaitsUntilDispatch(s, id, c, events);
    var t, i := Run(s, events), Invocation(id, c.fn, Window(c.nextStart, c.nextEnd));
    RunningIsInFlight(t, i);
    DispatchStartsExactly(t, now);
  }

  /** After a retryable failure reported at `at` with a delay, and with no update or removal around, a dispatch
      starts exactly the failed window again exactly if the delay has passed and the window has ended. */
  lemma RetryStartsExactly(s: Sys, i: Invocation, delay: int, at: int, events: seq<Event>, now: int)
    requires Inv(s) && !s.stopping && i in s.running
    requires i.id in s.states ==> s.states[i.id].cb.pending.None? && !s.states[i.id].cb.removeAfter
    requires forall e :: e in events ==> e != Stop && e != Remove(i.id) && !(e.Add? && e.id == i.id)
                                         && (e.DispatchDue? ==> e.now < at + delay || e.now < i.window.end)
    ensures i in Step(Run(Step(s, Complete(i, Retryable, delay, at)), events), DispatchDue(now)).running <==>
              at + delay <= now && i.window.end <= now
  {
    ReportEffects(s, i, Retryable, delay, at);
    RunningIsCurrent(s, i);
    var t := Step(s, Complete(i, Retryable, delay, at));
    StepKeepsInv(s, Complete(i, Retryable, delay, at));
    PlannedWindowStartsExactly(t, i.id, t.states[i.id].cb, events, now);
  }

  /** After a success the next window starts at the first dispatch at or after its end. */
  lemma NextWindowStartsExactly(s: Sys, i: Invocation, delay: int, at: int, end: int, events: seq<Event>, now: int)
    requires Inv(s) && !s.stopping && i in s.running && i.id in s.states
    requires s.states[i.id].cb.pending.None? && !s.states[i.id].cb.removeAfter && i.window.end >= 0
    requires FirstBoundaryAfter(i.window.end, s.states[i.id].cb.interval, end)
    requires forall e :: e in events ==> e != Stop && e != Remove(i.id) && !(e.Add? && e.id == i.id)
                                         && (e.DispatchDue? ==> e.now < end)
    ensures var t := Step(Run(Step(s, Complete(i, Succeeded, delay, at)), events), DispatchDue(now));
            Invocation(i.id, i.fn, Window(i.window.end, end)) in t.running <==> end <= now
  {
    ReportEffects(s, i, Succeeded, delay, at);
    RunningIsCurrent(s, i);
    var t := Step(s, Complete(i, Succeeded, delay, at));
    StepKeepsInv(s, Complete(i, Succeeded, delay, at));
    var c := t.states[i.id].cb;
    assert c.nextEnd == end by { FirstBoundaryIsUnique(i.window.end, s.states[i.id].cb.interval, c.nextEnd, end); }
    PlannedWindowStartsExactly(t, i.id, c, events, now);
  }

  lemma FirstBoundaryIsUnique(start: int, interval: Interval, a: int, b: int)
    requires FirstBoundaryAfter(start, interval, a) && FirstBoundaryAfter(start, interval, b)
    ensures a == b
  {
  }
}
