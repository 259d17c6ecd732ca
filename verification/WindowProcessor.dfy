/**
One attempt at one collection window: whether it may run now, and how the policy
of its caller classifies what came of it.
*/
module WindowProcessor {
  import opened Options

  datatype CollectError = NoMetrics | NoPrometheusData | OtherFailure

  datatype WindowError = WindowExpired | Collecting(error: CollectError)

  datatype Attempt = Attempt(attempts: nat, readyAt: int, expiresAt: int, failingFor: int)

  datatype Result =
    | Completed
    | MonitoringGap
    | Retry(after: int)
    | Deferred(after: int)
    | Failed
    | Cancelled

  datatype Gate = TooLate | NotReady(after: int) | MayRun

  /** The zero time means "no deadline" and "ready at once". */
  function GateOf(a: Attempt, now: int): Gate {
    if a.expiresAt != 0 && a.expiresAt <= now then TooLate
    else if a.readyAt != 0 && a.readyAt > now then NotReady(a.readyAt - now)
    else MayRun
  }

  /** `task` is what the collection returns, if it is called at all. */
  function Process(cancelledBefore: bool, now: int, a: Attempt, task: Option<CollectError>, cancelledAfter: bool,
                   classify: (Attempt, Option<WindowError>) -> Result): Result {
    if cancelledBefore then Cancelled
    else
      match GateOf(a, now)
      case NotReady(after) => Deferred(after)
      case TooLate => if cancelledAfter then Cancelled else classify(a, Some(WindowExpired))
      case MayRun =>
        if cancelledAfter then Cancelled
        else classify(a, if task.None? then None else Some(Collecting(task.value)))
  }

  const SECOND := 1_000_000_000
  const MINUTE := 60 * SECOND

  function Doubled(times: nat): int {
    if times == 0 then 1 else 2 * Doubled(times - 1)
  }

  function RecoveryDelay(probeAfter: int, probeInterval: int, attempts: nat, failingFor: int): int {
    if failingFor >= probeAfter then probeInterval
    else
      var delay := SECOND * Doubled(if attempts == 0 then 0 else if attempts - 1 < 10 then attempts - 1 else 10);
      if delay > MINUTE then MINUTE else delay
  }

  function RecoveryPolicy(probeAfter: int, probeInterval: int): (Attempt, Option<WindowError>) -> Result {
    (a: Attempt, err: Option<WindowError>) =>
      match err
      case None => Completed
      case Some(WindowExpired) => MonitoringGap
      case Some(Collecting(_)) => Retry(RecoveryDelay(probeAfter, probeInterval, a.attempts, a.failingFor))
  }

  function ImportPolicy(): (Attempt, Option<WindowError>) -> Result {
    (a: Attempt, err: Option<WindowError>) =>
      match err
      case None => Completed
      case Some(Collecting(NoMetrics)) => MonitoringGap
      case Some(Collecting(NoPrometheusData)) => MonitoringGap
      case Some(_) => Failed
  }

  /** A recovery attempt completes only when the window was collected and ends as a
      gap only at or after a deadline; both read from the result alone. */
  lemma RecoveryResultsAreEarned(before: bool, now: int, a: Attempt, task: Option<CollectError>, after: bool,
                                 probeAfter: int, probeInterval: int)
    ensures var r := Process(before, now, a, task, after, RecoveryPolicy(probeAfter, probeInterval));
            && (r == Completed <==>
                  && !before && !after && task.None? && (a.expiresAt == 0 || now < a.expiresAt)
                  && (a.readyAt == 0 || a.readyAt <= now))
            && (r == MonitoringGap <==> !before && !after && a.expiresAt != 0 && a.expiresAt <= now)
            && r != Failed
  {
  }

  /** What one attempt comes to, whoever classifies it: late, too early, or left to the collection. */
  lemma AttemptResults(before: bool, now: int, a: Attempt, task: Option<CollectError>, after: bool,
                       classify: (Attempt, Option<WindowError>) -> Result)
    ensures var r := Process(before, now, a, task, after, classify);
            if before then r == Cancelled
            else if a.expiresAt != 0 && a.expiresAt <= now then
              r == if after then Cancelled else classify(a, Some(WindowExpired))
            else if a.readyAt != 0 && now < a.readyAt then r == Deferred(a.readyAt - now)
            else if after then r == Cancelled
            else r == match task
                      case None => classify(a, None)
                      case Some(error) => classify(a, Some(Collecting(error)))
  {
  }

  /** An import counts a window that has no metrics, or no data in Prometheus, as a gap; any other failure
      and a missed deadline stop it. Nothing is retried. */
  lemma ImportResultsByError(before: bool, now: int, a: Attempt, task: Option<CollectError>, after: bool)
    ensures var r := Process(before, now, a, task, after, ImportPolicy());
            var late := a.expiresAt != 0 && a.expiresAt <= now;
            var early := !late && a.readyAt != 0 && now < a.readyAt;
            var judged := !before && !after && !early;
            && (r == Completed <==> judged && !late && task == None)
            && (r == MonitoringGap <==>
                  judged && !late && (task == Some(NoMetrics) || task == Some(NoPrometheusData)))
            && (r == Failed <==> judged && (late || task == Some(OtherFailure)))
            && !r.Retry?
  {
  }

  /** Until the probes begin the delay doubles from a second to thirty-two, and then stays at a minute;
      from then on it is the probe interval. */
  lemma RecoveryDelayByAttempt(probeAfter: int, probeInterval: int, attempts: nat, failingFor: int)
    ensures var delay := RecoveryDelay(probeAfter, probeInterval, attempts, failingFor);
            && (failingFor >= probeAfter ==> delay == probeInterval)
            && (failingFor < probeAfter ==>
                  && (attempts <= 1 ==> delay == SECOND)
                  && (2 <= attempts <= 6 ==>
                        delay == 2 * RecoveryDelay(probeAfter, probeInterval, attempts - 1, failingFor))
                  && (attempts == 6 ==> delay == 32 * SECOND)
                  && (attempts >= 7 ==> delay == MINUTE == 60 * SECOND))
  {
    assert Doubled(5) == 32;
    if attempts >= 7 { DoublingGrows(6, if attempts - 1 < 10 then attempts - 1 else 10); }
  }

  lemma {:induction false} DoublingGrows(i: nat, j: nat)
    requires i <= j
    ensures 1 <= Doubled(i) <= Doubled(j)
  {
    if i < j { DoublingGrows(i, j - 1); } else if i > 0 { DoublingGrows(i - 1, j - 1); }
  }

  /** Until the probes begin the delays start at a second, never shrink and never exceed a minute. */
  lemma RecoveryDelaysGrow(probeAfter: int, probeInterval: int, i: nat, j: nat, failingFor: int)
    requires i <= j && failingFor < probeAfter
    ensures SECOND <= RecoveryDelay(probeAfter, probeInterval, i, failingFor)
                   <= RecoveryDelay(probeAfter, probeInterval, j, failingFor) <= MINUTE
  {
    var k := if i == 0 then 0 else if i - 1 < 10 then i - 1 else 10;
    var l := if j == 0 then 0 else if j - 1 < 10 then j - 1 else 10;
    DoublingGrows(k, l);
  }
}
