/** The scheduler with its retry policy: what `attempt` counts, and what that makes of the delays. */
module Retries {
  import opened Options
  import opened SchedulerModel
  import Backoff

  /** The retryable failures in a row that the tries end with, leaving out one still running. */
  function Streak(tries: seq<Try>): nat {
    if tries == [] then 0
    else
      var rest, last := tries[..|tries| - 1], tries[|tries| - 1];
      if last.updated || last.result == Some(Succeeded) then 0
      else if last.result == Some(Retryable) then Streak(rest) + 1
      else Streak(rest)
  }

  /** Each delay noted is the policy's for the interval and for the failures in a row up to then. */
  ghost predicate DelaysOk(tries: seq<Try>, p: Backoff.Policy) {
    forall k :: 0 <= k < |tries| && tries[k].result == Some(Retryable) && !tries[k].updated ==>
      tries[k].delay == p.Delay(tries[k].interval, Streak(tries[..k + 1]))
  }

  ghost predicate Counted(e: Entry, p: Backoff.Policy) {
    e.cb.attempt == Streak(e.log.tries) && DelaysOk(e.log.tries, p)
  }

  ghost predicate AllCounted(s: Sys, p: Backoff.Policy) {
    && (forall id :: id in s.states ==> Counted(s.states[id], p))
    && forall k :: 0 <= k < |s.closed| ==> DelaysOk(s.closed[k].tries, p)
  }

  /** A report of a retryable failure comes with the delay of the policy for the attempt it makes. */
  predicate Obeys(s: Sys, e: Event, p: Backoff.Policy) {
    e.Complete? && e.outcome.Retryable? && e.invocation.id in s.states ==>
      var c := s.states[e.invocation.id].cb; e.delay == p.Delay(c.interval, c.attempt + 1)
  }

  /** The last try changes or is added; the ones before it keep their delays. */
  lemma LastTryKeepsDelays(tries: seq<Try>, last: Try, p: Backoff.Policy)
    requires DelaysOk(tries, p)
    requires last.result == Some(Retryable) && !last.updated ==>
               last.delay == p.Delay(last.interval, Streak(tries + [last]))
    ensures DelaysOk(tries + [last], p)
  {
    var all := tries + [last];
    forall k | 0 <= k < |all| && all[k].result == Some(Retryable) && !all[k].updated
      ensures all[k].delay == p.Delay(all[k].interval, Streak(all[..k + 1]))
    {
      if k < |tries| { assert all[..k + 1] == tries[..k + 1]; } else { assert all[..k + 1] == all; }
    }
  }

  lemma EarlierDelays(tries: seq<Try>, m: nat, p: Backoff.Policy)
    requires DelaysOk(tries, p) && m <= |tries|
    ensures DelaysOk(tries[..m], p)
  {
    forall k | 0 <= k < m && tries[..m][k].result == Some(Retryable) && !tries[..m][k].updated
      ensures tries[k].delay == p.Delay(tries[k].interval, Streak(tries[..m][..k + 1]))
    {
      assert tries[..m][..k + 1] == tries[..k + 1];
    }
  }

  lemma BegunIsCounted(e: Entry, now: int, p: Backoff.Policy)
    requires Counted(e, p)
    ensures Counted(Begun(e, now), p)
  {
    var tries := Begun(e, now).log.tries;
    assert tries[..|tries| - 1] == e.log.tries;
    LastTryKeepsDelays(e.log.tries, tries[|tries| - 1], p);
  }

  lemma UpsertedIsCounted(e: Entry, interval: Interval, fn: int, p: Backoff.Policy)
    requires Counted(e, p)
    ensures Counted(Upserted(e, interval, fn), p)
  {
    if !e.cb.inFlight && e.log.tries != [] {
      var n := |e.log.tries| - 1;
      var rest, last := e.log.tries[..n], e.log.tries[n].(updated := true);
      EarlierDelays(e.log.tries, n, p);
      LastTryKeepsDelays(rest, last, p);
      assert e.log.tries[n := last] == rest + [last];
    }
  }

  lemma ReportedIsCounted(e: Entry, w: Window, o: Outcome, delay: int, now: int, p: Backoff.Policy)
    requires EntryOk(e) && e.cb.inFlight && Counted(e, p)
    requires o.Retryable? ==> delay == p.Delay(e.cb.interval, e.cb.attempt + 1)
    ensures Counted(Entry(Completed(e.cb, w, o, delay, now), Reported(e.log, o, e.cb.pending.Some?, delay, now)), p)
  {
    var n := |e.log.tries| - 1;
    var rest := e.log.tries[..n];
    var after := Reported(e.log, o, e.cb.pending.Some?, delay, now).tries;
    assert after == rest + [after[n]] && after[..n] == rest;
    EarlierDelays(e.log.tries, n, p);
    LastTryKeepsDelays(rest, after[n], p);
  }

  lemma DispatchIsCounted(s: Sys, now: int, p: Backoff.Policy)
    requires AllCounted(s, p)
    ensures AllCounted(Dispatched(s, DueIds(s, now), now), p)
  {
    forall id | id in s.states
      ensures Counted(Begun(s.states[id], now), p)
    {
      BegunIsCounted(s.states[id], now, p);
    }
  }

  lemma AddIsCounted(s: Sys, id: int, interval: Interval, fn: int, lastEnd: Option<int>, now: int, p: Backoff.Policy)
    requires AllCounted(s, p)
    ensures AllCounted(HandleAdd(s, id, interval, fn, lastEnd, now), p)
  {
    if id in s.states { UpsertedIsCounted(s.states[id], interval, fn, p); }
  }

  lemma CompletionIsCounted(s: Sys, i: Invocation, o: Outcome, delay: int, now: int, p: Backoff.Policy)
    requires Inv(s) && AllCounted(s, p) && i in s.running && Obeys(s, Complete(i, o, delay, now), p)
    ensures AllCounted(HandleCompletion(s, i, o, delay, now), p)
  {
    RunningIsCurrent(s, i);
    ReportedIsCounted(s.states[i.id], i.window, o, delay, now, p);
    OneIsCounted(s, i, o, delay, now, p);
  }

  lemma OneIsCounted(s: Sys, i: Invocation, o: Outcome, delay: int, now: int, p: Backoff.Policy)
    requires AllCounted(s, p) && i.id in s.states
    requires var e := s.states[i.id];
             Counted(Entry(Completed(e.cb, i.window, o, delay, now),
                           Reported(e.log, o, e.cb.pending.Some?, delay, now)), p)
    ensures AllCounted(HandleCompletion(s, i, o, delay, now), p)
  {
  }

  lemma StepIsCounted(s: Sys, e: Event, p: Backoff.Policy)
    requires Inv(s) && AllCounted(s, p) && Obeys(s, e, p)
    ensures AllCounted(Step(s, e), p)
  {
    match e
    case Add(id, interval, fn, lastEnd, now) =>
      if AddOutcome(s, interval, fn).None? { AddIsCounted(s, id, interval, fn.value, lastEnd, now, p); }
    case Remove(_) =>
    case DispatchDue(now) => DispatchIsCounted(s, now, p);
    case Complete(i, o, delay, now) => if i in s.running { CompletionIsCounted(s, i, o, delay, now, p); }
    case Stop =>
  }

  ghost predicate ObeysPolicy(events: seq<Event>, p: Backoff.Policy) {
    forall k :: 0 <= k < |events| ==> Obeys(Run(EMPTY, events[..k]), events[k], p)
  }

  lemma EarlierObeys(events: seq<Event>, n: nat, p: Backoff.Policy)
    requires ObeysPolicy(events, p) && n <= |events|
    ensures ObeysPolicy(events[..n], p)
  {
    forall k | 0 <= k < n
      ensures Obeys(Run(EMPTY, events[..n][..k]), events[..n][k], p)
    {
      assert events[..n][..k] == events[..k] && events[..n][k] == events[k];
    }
  }

  lemma {:induction false} RunIsCounted(events: seq<Event>, p: Backoff.Policy)
    requires ObeysPolicy(events, p)
    ensures AllCounted(Run(EMPTY, events), p)
  {
    if events != [] {
      var n := |events| - 1;
      EarlierObeys(events, n, p);
      RunIsCounted(events[..n], p);
      RunKeepsInv(EMPTY, events[..n]);
      StepIsCounted(Run(EMPTY, events[..n]), events[n], p);
    }
  }

  /** In a run whose delays are the policy's: the attempt of a callback is the number of retryable
      failures in a row since its last success or update, and a failed window is dispatched again no
      earlier than the policy's delay for that number after its report. */
  lemma RetriesFollowPolicy(events: seq<Event>, p: Backoff.Policy, r: Registration, k: nat)
    requires ObeysPolicy(events, p) && HasLog(Run(EMPTY, events), r) && k + 1 < |r.tries|
    requires r.tries[k].result == Some(Retryable) && !r.tries[k].updated
    ensures forall id :: id in Run(EMPTY, events).states ==>
              var e := Run(EMPTY, events).states[id]; e.cb.attempt == Streak(e.log.tries)
    ensures r.tries[k].delay == p.Delay(r.tries[k].interval, Streak(r.tries[..k + 1]))
    ensures r.tries[k + 1].window == r.tries[k].window && r.tries[k].retryAt <= r.tries[k + 1].at
  {
    RunIsCounted(events, p);
    EveryTryIsInOrder(events, r, k);
  }
}
