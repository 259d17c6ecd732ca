/**
The scheduler's own code: a map of callback states that the handlers update in
place. Each handler is proved to take the step of `SchedulerModel` it stands for,
so everything proved there about whole runs holds of these objects.
*/
module IntervalScheduler {
  import opened Options
  import opened SchedulerModel
  import SchedulerEffects

  class CallbackState {
    const id: int
    var interval: Interval
    var fn: int
    var lastEnd: int
    var maxWindow: int
    var nextStart: int
    var nextEnd: int
    var nextAttempt: int
    var attempt: nat
    var inFlight: bool
    var disabled: bool
    var removeAfter: bool
    var pending: Option<Update>
    ghost var log: Registration

    ghost function Snapshot(): Callback
      reads this
    {
      Callback(interval, fn, lastEnd, maxWindow, nextStart, nextEnd, nextAttempt, attempt,
               inFlight, disabled, removeAfter, pending)
    }

    ghost function AsEntry(): Entry
      reads this
    {
      Entry(Snapshot(), log)
    }

    constructor (id: int, interval: Interval, fn: int, lastEnd: int)
      ensures this.id == id && log == Registration(id, lastEnd, [])
      ensures Snapshot() == Callback(interval, fn, lastEnd, interval, 0, 0, 0, 0, false, false, false, None)
    {
      this.id, this.interval, this.fn, this.lastEnd, this.maxWindow := id, interval, fn, lastEnd, interval;
      nextStart, nextEnd, nextAttempt, attempt := 0, 0, 0, 0;
      inFlight, disabled, removeAfter, pending := false, false, false, None;
      log := Registration(id, lastEnd, []);
    }

    method Plan()
      modifies this
      ensures Snapshot() == PlanNextWindow(old(Snapshot())) && log == old(log)
    {
      var start := lastEnd;
      var boundary := NextBoundary(start, interval);
      var end := start + interval;
      if start != boundary {
        var cap := maxWindow;
        if cap <= 0 { cap := interval; }
        end := start + cap;
        if end > boundary { end := boundary; }
      }
      nextStart, nextEnd, nextAttempt := start, end, 0;
    }

    method Apply(update: Update)
      modifies this
      ensures Snapshot() == ApplyUpdate(old(Snapshot()), update) && log == old(log)
    {
      interval, fn, maxWindow := update.interval, update.fn, update.maxWindow;
      pending, disabled, attempt, nextAttempt := None, false, 0, 0;
      Plan();
    }

    /** handleCompletion from the point where the callback is known to stay. */
    method Complete(w: Window, o: Outcome, delay: int, now: int)
      modifies this
      ensures Snapshot() == Completed(old(Snapshot()), w, o, delay, now) && log == old(log)
    {
      inFlight := false;
      if o.Succeeded? {
        lastEnd, attempt := w.end, 0;
        if pending.Some? { Apply(pending.value); } else { Plan(); }
        return;
      }
      if pending.Some? {
        Apply(pending.value);
        return;
      }
      if o.Retryable? {
        attempt := attempt + 1;
        nextStart, nextEnd, nextAttempt := w.start, w.end, now + delay;
        return;
      }
      disabled := true;
    }
  }

  class Scheduler {
    var states: map<int, CallbackState>
    var stopping: bool
    ghost var closed: seq<Registration>
    ghost var running: multiset<Invocation>

    ghost predicate Valid()
      reads this, states.Values
    {
      forall id :: id in states ==> states[id].id == id
    }

    ghost function View(): Sys
      reads this, states.Values
    {
      Sys(map id | id in states :: states[id].AsEntry(), closed, running, stopping)
    }

    constructor ()
      ensures Valid() && View() == EMPTY
    {
      states, stopping := map[], false;
      closed, running := [], multiset{};
    }

    /** Changing one callback state in place changes one entry of the view. */
    twostate lemma OneEntryChanged(id: int)
      requires old(Valid()) && states == old(states) && id in states
      requires forall j :: j in states && j != id ==> unchanged(states[j])
      ensures View().states == old(View()).states[id := states[id].AsEntry()]
    {
      forall j | j in states && j != id
        ensures states[j].AsEntry() == old(states[j].AsEntry())
      {
      }
    }

    method AddCallback(id: int, interval: int, fn: Option<int>, lastEnd: Option<int>, now: int)
      returns (err: Option<AddError>)
      requires Valid()
      modifies this, states.Values
      ensures Valid() && fresh(states.Values - old(states.Values))
      ensures err == if interval <= 0 then Some(InvalidInterval) else if fn.None? then Some(NilCallback)
                     else if old(stopping) then Some(SchedulerStopped) else None
      ensures View() == Step(old(View()), Add(id, interval, fn, lastEnd, now))
    {
      if interval <= 0 { return Some(InvalidInterval); }
      if fn.None? { return Some(NilCallback); }
      if stopping { return Some(SchedulerStopped); }
      err := None;
      if id !in states { Enter(id, interval, fn.value, lastEnd, now); } else { Upsert(id, interval, fn.value); }
    }

    method NewState(id: int, interval: Interval, fn: int, end: int) returns (state: CallbackState)
      ensures fresh(state) && state.id == id
      ensures state.AsEntry() ==
              Entry(PlanNextWindow(Callback(interval, fn, end, interval, 0, 0, 0, 0, false, false, false, None)),
                                       Registration(id, end, []))
    {
      state := new CallbackState(id, interval, fn, end);
      state.Plan();
    }

    method Enter(id: int, interval: Interval, fn: int, lastEnd: Option<int>, now: int)
      requires Valid() && id !in states
      modifies this
      ensures Valid() && fresh(states.Values - old(states.Values))
      ensures View() == SchedulerModel.HandleAdd(old(View()), id, interval, fn, lastEnd, now)
    {
      var end: int;
      if lastEnd.Some? { end := lastEnd.value; } else { end := NextBoundary(now, interval) - interval; }
      var state := NewState(id, interval, fn, end);
      states := states[id := state];
      assert View().states == old(View()).states[id := state.AsEntry()];
    }

    method Upsert(id: int, interval: Interval, fn: int)
      requires Valid() && id in states
      modifies states[id]
      ensures Valid()
      ensures forall lastEnd, now :: View() == SchedulerModel.HandleAdd(old(View()), id, interval, fn, lastEnd, now)
    {
      var existing := states[id];
      var update := Update(interval, fn, if existing.interval > interval then existing.interval else interval);
      if existing.inFlight {
        existing.pending := Some(update);
      } else {
        existing.Apply(update);
        existing.log := MarkUpdated(existing.log);
      }
      OneEntryChanged(id);
    }

    method RemoveCallback(id: int)
      requires Valid()
      modifies this, states.Values
      ensures Valid() && states.Values <= old(states.Values)
      ensures View() == HandleRemove(old(View()), id)
    {
      if id !in states { return; }
      var state := states[id];
      if state.inFlight {
        state.removeAfter := true;
        OneEntryChanged(id);
      } else {
        Retire(id);
      }
    }

    method Retire(id: int)
      requires Valid() && id in states
      modifies this
      ensures Valid() && states.Values <= old(states.Values)
      ensures View() == Drop(old(View()), id)
    {
      closed := closed + [states[id].log];
      states := states - {id};
      assert View().states == old(View()).states - {id};
    }

    method HandleReport(i: Invocation, o: Outcome, delay: int, now: int)
      requires Valid() && i in running
      modifies this, states.Values
      ensures Valid() && states.Values <= old(states.Values)
      ensures View() == HandleCompletion(old(View()), i, o, delay, now)
    {
      running := running - multiset{i};
      if i.id !in states { return; }
      var state := states[i.id];
      state.log := Reported(state.log, o, state.pending.Some?, delay, now);
      if state.removeAfter {
        OneEntryChanged(i.id);
        Retire(i.id);
        return;
      }
      state.Complete(i.window, o, delay, now);
      OneEntryChanged(i.id);
    }

    method BeginStop()
      requires Valid()
      modifies this
      ensures Valid() && states == old(states) && View() == Step(old(View()), Event.Stop)
    {
      stopping := true;
    }

    method DispatchIfDue(id: int, now: int)
      requires Valid() && id in states
      modifies this`running, states[id]
      ensures Valid() && View() == StartedIfDue(old(View()), id, now)
    {
      var state := states[id];
      assert state.AsEntry() == View().states[id];
      if state.disabled || state.inFlight || state.nextAttempt > now || state.nextEnd > now { return; }
      running := running + multiset{CurrentInvocation(id, state.Snapshot())};
      state.log := Begun(state.AsEntry(), now).log;
      state.inFlight := true;
      OneEntryChanged(id);
    }

    /** One pass over the map, starting every callback that is due. */
    method StartDue(now: int)
      requires Valid() && !stopping
      modifies this`running, states.Values
      ensures Valid() && View() == Dispatched(old(View()), DueIds(old(View()), now), now)
    {
      ghost var before := View();
      ghost var due := DueIds(before, now);
      var todo := states.Keys;
      NothingDispatched(before, due - todo, now);
      while todo != {}
        invariant todo <= states.Keys == before.states.Keys && Valid()
        invariant View() == Dispatched(before, due - todo, now)
        decreases |todo|
      {
        SomeMember(todo);
        var id :| id in todo;
        OneMoreDispatched(before, todo, id, now);
        DispatchIfDue(id, now);
        todo := todo - {id};
      }
      assert due - todo == due;
    }

    method Dispatch(now: int)
      requires Valid() && !stopping
      modifies this`running, states.Values
      ensures Valid() && View() == Step(old(View()), DispatchDue(now))
      ensures forall id :: id in states ==>
                var c := old(View()).states[id].cb;
                if !c.disabled && !c.inFlight && c.nextAttempt <= now && c.nextEnd <= now then
                  states[id].Snapshot() == c.(inFlight := true)
                else states[id].AsEntry() == old(View()).states[id]
      ensures forall i: Invocation ::
                running[i] ==
                old(running)[i]
                + if i.id in states
                     && (var c := old(View()).states[i.id].cb;
                         && !c.disabled && !c.inFlight && c.nextAttempt <= now && c.nextEnd <= now
                         && i.fn == c.fn && i.window.start == c.nextStart && i.window.end == c.nextEnd)
                  then 1 else 0
    {
      ghost var before := View();
      StartDue(now);
      SchedulerEffects.DispatchStartsExactly(before, now);
      forall id | id in states
        ensures states[id].AsEntry() == View().states[id]
      {
      }
    }

    /** Each enabled idle callback has its window's end or its delay ahead. */
    ghost predicate NothingReady(now: int)
      reads this, states.Values
    {
      forall id :: id in states && !states[id].disabled && !states[id].inFlight ==>
        states[id].nextAttempt > now || states[id].nextEnd > now
    }

    /** The least instant at which some callback is ready, if there is one. */
    method NextReadyAt() returns (next: Option<int>)
      requires Valid()
      ensures next.None? <==> forall id :: id in states ==> states[id].disabled || states[id].inFlight
      ensures next.Some? ==>
                exists id ::
                  && id in states && !states[id].disabled && !states[id].inFlight
                  && next.value == if states[id].nextAttempt > states[id].nextEnd then states[id].nextAttempt
                                   else states[id].nextEnd
      ensures next.Some? ==>
                forall id :: id in states && !states[id].disabled && !states[id].inFlight ==>
                  next.value <= states[id].nextAttempt || next.value <= states[id].nextEnd
    {
      next := None;
      var todo := states.Keys;
      while todo != {}
        invariant todo <= states.Keys
        invariant next.None? <==>
                    forall id :: id in states && id !in todo ==> states[id].disabled || states[id].inFlight
        invariant next.Some? ==>
                    exists id ::
                      && id in states && !states[id].disabled && !states[id].inFlight
                      && next.value == if states[id].nextAttempt > states[id].nextEnd then states[id].nextAttempt
                                       else states[id].nextEnd
        invariant next.Some? ==>
                    forall id :: id in states && id !in todo && !states[id].disabled && !states[id].inFlight ==>
                      next.value <= states[id].nextAttempt || next.value <= states[id].nextEnd
        decreases |todo|
      {
        SomeMember(todo);
        var id :| id in todo;
        var state := states[id];
        if !(state.disabled || state.inFlight) {
          var readyAt := state.nextEnd;
          if state.nextAttempt > readyAt { readyAt := state.nextAttempt; }
          if next.None? || readyAt < next.value { next := Some(readyAt); }
        }
        todo := todo - {id};
      }
    }

    method NoInFlight() returns (none: bool)
      ensures none <==> forall id :: id in states ==> !states[id].inFlight
    {
      var todo := states.Keys;
      while todo != {}
        invariant todo <= states.Keys
        invariant forall id :: id in states && id !in todo ==> !states[id].inFlight
        decreases |todo|
      {
        SomeMember(todo);
        var id :| id in todo;
        if states[id].inFlight { return false; }
        todo := todo - {id};
      }
      return true;
    }

    /** One turn of the event loop up to its `select`: dispatch, decide whether to
        return, and find the instant for the timer. */
    method Turn(now: int) returns (finished: bool, wake: Option<int>)
      requires Valid()
      modifies this, states.Values
      ensures Valid() && states == old(states) && stopping == old(stopping)
      ensures View() == Step(old(View()), DispatchDue(now))
      ensures finished <==> stopping && forall id :: id in states ==> !states[id].inFlight
      ensures !stopping ==>
                (wake.None? <==> forall id :: id in states ==> states[id].disabled || states[id].inFlight)
      ensures !stopping && wake.Some? ==>
                exists id ::
                  && id in states && !states[id].disabled && !states[id].inFlight
                  && wake.value == if states[id].nextAttempt > states[id].nextEnd then states[id].nextAttempt
                                   else states[id].nextEnd
      ensures !stopping && wake.Some? ==>
                forall id :: id in states && !states[id].disabled && !states[id].inFlight ==>
                  wake.value <= states[id].nextAttempt || wake.value <= states[id].nextEnd
      ensures !stopping && wake.Some? ==> now < wake.value
    {
      if stopping {
        finished := NoInFlight();
        return finished, None;
      }
      Dispatch(now);
      assert NothingReady(now);
      wake := NextReadyAt();
      finished := false;
    }
  }
}
