/**
The backlog as one worker drives it undisturbed: what enqueueing a failed window and one
attempt at the oldest open window do, and the run of RecoveryModel that the attempt is.
*/
module RecoveryQueue {
  import opened Options
  import opened WindowProcessor
  import opened RecoveryModel

  /** What an attempt runs into: cancellation, the result of collecting, failing statements, settings. */
  datatype Fate = Fate(cancelledBefore: bool, task: Option<CollectError>, cancelledAfter: bool, marked: bool,
                       written: bool, probeAfter: int, probeInterval: int)

  function AttemptAt(k: Key, row: Row, now: int): Attempt {
    Attempt(row.attempts + 1, row.readyAt, row.expiresAt, now - k.window.start)
  }

  function ResultOf(k: Key, row: Row, now: int, f: Fate): Result {
    Process(f.cancelledBefore, now, AttemptAt(k, row, now), f.task, f.cancelledAfter,
            RecoveryPolicy(f.probeAfter, f.probeInterval))
  }

  predicate Collects(k: Key, row: Row, now: int, f: Fate) {
    !f.cancelledBefore && GateOf(AttemptAt(k, row, now), now) == MayRun
  }

  /** What an attempt makes of a row, case by case. */
  ghost predicate RowAfter(k: Key, row: Row, row': Row, now: int, f: Fate) {
    var late := row.expiresAt != 0 && row.expiresAt <= now;
    var early := !late && row.readyAt != 0 && now < row.readyAt;
    var failed := !late && f.task.Some?;
    && row'.expiresAt == row.expiresAt
    && (f.cancelledBefore || early || (late && (f.cancelledAfter || !f.written)) ==> row' == row)
    && (!f.cancelledBefore && !early ==>
          && (!f.cancelledAfter && f.written ==>
                row'.state == if late then Expired else if failed then Pending else Recovered)
          && (!late && (f.cancelledAfter || !f.written) ==>
                row'.state == if f.marked then InCollection else row.state)
          && (if failed && !f.cancelledAfter && f.written then
                && row'.attempts == row.attempts + 1
                && row'.readyAt ==
                   now + RecoveryDelay(f.probeAfter, f.probeInterval, row.attempts + 1, now - k.window.start)
              else row'.attempts == row.attempts && row'.readyAt == row.readyAt)
          && row'.closedAt == if late && !f.cancelledAfter && f.written then now else row.closedAt)
  }

  class Queue {
    var rows: map<Key, Row>
    // history: the windows whose collection succeeded
    var collected: set<Key>

    method EnqueueFailedWindow(k: Key, retryAt: int, expiresAt: int)
      modifies this`rows
      ensures rows.Keys == old(rows).Keys + {k} && forall j :: j in old(rows) && j != k ==> rows[j] == old(rows)[j]
      ensures rows[k].state == Pending && rows[k].readyAt == retryAt
      ensures rows[k].attempts == 1 + (if k in old(rows) then old(rows)[k].attempts else 0)
      ensures rows[k].expiresAt == (if k in old(rows) then old(rows)[k].expiresAt else expiresAt)
      ensures k in old(rows) ==> rows[k].closedAt == old(rows)[k].closedAt
      ensures rows == Upserted(old(rows), k, retryAt, expiresAt)
    {
      if k !in rows {
        rows := rows[k := Row(Pending, 1, retryAt, expiresAt, 0)];
      } else {
        rows := rows[k := rows[k].(state := Pending, attempts := rows[k].attempts + 1, readyAt := retryAt)];
      }
    }

    /** One attempt at the oldest open window of a service; `again` asks for the next one at once. */
    method ProcessOne(id: int, oldest: Option<Key>, now: int, f: Fate) returns (delay: int, again: bool)
      requires oldest.Some? ==> IsOldestOpen(rows, oldest.value) && oldest.value.id == id
      requires oldest.None? ==> forall k :: k in rows && k.id == id ==> !IsOpen(rows[k])
      modifies this
      ensures oldest.None? ==> rows == old(rows) && collected == old(collected) && delay == MINUTE && !again
      ensures oldest.Some? ==>
                var k, row := oldest.value, old(rows)[oldest.value];
                && rows.Keys == old(rows).Keys && (forall j :: j in rows && j != k ==> rows[j] == old(rows)[j])
                && RowAfter(k, row, rows[k], now, f)
      ensures oldest.Some? ==>
                var k, row := oldest.value, old(rows)[oldest.value];
                var late := row.expiresAt != 0 && row.expiresAt <= now;
                var early := !late && row.readyAt != 0 && now < row.readyAt;
                var succeeds := !f.cancelledBefore && !late && !early && f.task.None?;
                && collected == old(collected) + (if succeeds then {k} else {})
                && (again <==> !f.cancelledBefore && !f.cancelledAfter && (late || (succeeds && f.written)))
                && (again ==> delay == 0)
                && (!again && !f.cancelledBefore && early ==> delay == row.readyAt - now)
                && (!again && (f.cancelledBefore || (!early && f.cancelledAfter)) ==> delay == 0)
                && (!again && !f.cancelledBefore && !early && !f.cancelledAfter ==>
                      delay == if f.written
                               then RecoveryDelay(f.probeAfter, f.probeInterval, row.attempts + 1, now - k.window.start)
                               else MINUTE)
      ensures oldest.Some? ==>
                var k, row := oldest.value, old(rows)[oldest.value];
                var mayRun := (row.expiresAt == 0 || now < row.expiresAt) && (row.readyAt == 0 || row.readyAt <= now);
                mayRun && f.task.Some? && !f.cancelledBefore && !f.cancelledAfter && f.written ==>
                  && rows[k].state == Pending && rows[k].attempts == row.attempts + 1
                  && delay == RecoveryDelay(f.probeAfter, f.probeInterval, row.attempts + 1, now - k.window.start)
                  && rows[k].readyAt == now + delay && !again
    {
      if oldest.None? { return MINUTE, false; }
      var k := oldest.value;
      var attempt := AttemptAt(k, rows[k], now);
      var result := ResultOf(k, rows[k], now, f);
      if Collects(k, rows[k], now, f) {
        if f.marked { rows := rows[k := rows[k].(state := InCollection)]; }
        if f.task.None? { collected := collected + {k}; }
      }
      match result {
        case Deferred(after) =>
          return after, false;
        case MonitoringGap =>
          if f.written { rows := rows[k := rows[k].(state := Expired, closedAt := now)]; }
          return 0, true;
        case Completed =>
          if !f.written { return MINUTE, false; }
          rows := rows[k := rows[k].(state := Recovered)];
          return 0, true;
        case Cancelled =>
          return 0, false;
        case Failed =>
          return MINUTE, false;
        case Retry(after) =>
          if !f.written { return MINUTE, false; }
          rows := rows[k := rows[k].(state := Pending, attempts := attempt.attempts, readyAt := now + after)];
          return after, false;
      }
    }
  }

  // ---------------------------------------------------------------- the same as a run

  function AttemptRun(s: State, w: int, k: Key, now: int, f: Fate): State {
    var read := Next(s, Read(w, k, now));
    if k !in s.rows || !Collects(k, s.rows[k], now, f) then
      Next(read, Finish(w, f.cancelledBefore || f.cancelledAfter, f.written, f.probeAfter, f.probeInterval))
    else
      var marked := if f.marked then Next(read, MarkCollecting(w)) else read;
      Next(Next(marked, CollectRow(w, f.task)), Finish(w, f.cancelledAfter, f.written, f.probeAfter, f.probeInterval))
  }

  /** An undisturbed attempt is a run of a worker's steps: it ends idle, and touches its own row only. */
  lemma AttemptIsARun(s: State, w: int, k: Key, now: int, f: Fate)
    requires WorkerAt(s, w) == Idle && IsOldestOpen(s.rows, k)
    ensures var t, row := AttemptRun(s, w, k, now, f), s.rows[k];
            && WorkerAt(t, w) == Idle && t.sched == s.sched && t.phases == s.phases
            && t.rows.Keys == s.rows.Keys && (forall j :: j in s.rows && j != k ==> t.rows[j] == s.rows[j])
            && RowAfter(k, row, t.rows[k], now, f)
            && t.collected == s.collected +
                 if f.task.None? && !f.cancelledBefore && (row.expiresAt == 0 || now < row.expiresAt)
                    && (row.readyAt == 0 || row.readyAt <= now)
                 then {k} else {}
  {
    var a := AttemptAt(k, s.rows[k], now);
    ReadsTheRow(s, w, k, now);
    var read := Next(s, Read(w, k, now));
    if Collects(k, s.rows[k], now, f) {
      var marked := if f.marked then Next(read, MarkCollecting(w)) else read;
      CollectsTheRow(marked, w, k, a, now, f.task);
      FinishesTheRow(Next(marked, CollectRow(w, f.task)), w, k, a, now, f);
    } else {
      EndsWithoutCollecting(read, w, k, s.rows[k], now, f);
    }
  }

  lemma EndsWithoutCollecting(s: State, w: int, k: Key, row: Row, now: int, f: Fate)
    requires k in s.rows && row == s.rows[k] && WorkerAt(s, w) == HasRead(k, AttemptAt(k, row, now), now)
             && !Collects(k, row, now, f)
    ensures var cancelled := f.cancelledBefore || f.cancelledAfter;
            var t := Next(s, Finish(w, cancelled, f.written, f.probeAfter, f.probeInterval));
            && k in t.rows && RowAfter(k, row, t.rows[k], now, f)
            && t == s.(rows := s.rows[k := t.rows[k]], workers := s.workers[w := Idle])
  {
  }

  lemma ReadsTheRow(s: State, w: int, k: Key, now: int)
    requires WorkerAt(s, w) == Idle && IsOldestOpen(s.rows, k)
    ensures Next(s, Read(w, k, now)) == s.(workers := s.workers[w := HasRead(k, AttemptAt(k, s.rows[k], now), now)])
  {
  }

  lemma CollectsTheRow(s: State, w: int, k: Key, a: Attempt, now: int, task: Option<CollectError>)
    requires WorkerAt(s, w) == HasRead(k, a, now) && GateOf(a, now) == MayRun
    ensures Next(s, CollectRow(w, task)) ==
            s.(workers := s.workers[w := HasCollected(k, a, now, task)],
               collected := s.collected + if task.None? then {k} else {})
  {
  }

  lemma FinishesTheRow(s: State, w: int, k: Key, a: Attempt, now: int, f: Fate)
    requires WorkerAt(s, w) == HasCollected(k, a, now, f.task) && k in s.rows
    ensures var r := Process(false, now, a, f.task, f.cancelledAfter, RecoveryPolicy(f.probeAfter, f.probeInterval));
            Next(s, Finish(w, f.cancelledAfter, f.written, f.probeAfter, f.probeInterval)) ==
                Finished(s, w, k, r, a.attempts, now, f.written)
  {
  }
}
