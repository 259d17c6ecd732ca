/**
Importing an explicit historical range, one window after the other.

Instants are nanoseconds; durations are signed 64-bit integers, whose subtraction
saturates and whose multiplication wraps around.
*/
module HistoricalImport {
  import opened Options
  import opened WindowProcessor

  const MAX_DURATION: int := 0x7FFF_FFFF_FFFF_FFFF
  const WORD: int := 0x1_0000_0000_0000_0000

  datatype Window = Window(start: int, end: int)

  datatype Summary = Summary(total: int, imported: nat, gaps: nat)

  datatype ImportError = InvalidInterval | Stopped(result: Result)

  /** What the attempt at one window runs into. */
  datatype Fate = Fate(cancelledBefore: bool, task: Option<CollectError>, cancelledAfter: bool)

  // ---------------------------------------------------------------- durations

  function Sub(a: int, b: int): int {
    if a - b > MAX_DURATION then MAX_DURATION else if a - b < -MAX_DURATION - 1 then -MAX_DURATION - 1 else a - b
  }

  function Wrapped(x: int): int {
    (x + MAX_DURATION + 1) % WORD - MAX_DURATION - 1
  }

  /** Division that truncates toward zero. */
  function Quotient(a: int, b: int): int
    requires b > 0
  {
    if a >= 0 then a / b else -(-a / b)
  }

  function CountWindows(start: int, end: int, interval: int): int {
    if interval <= 0 || !(start < end) then 0
    else Quotient(Sub(end, start), interval) + if Sub(end, start) % interval != 0 then 1 else 0
  }

  function Percent(windowEnd: int, start: int, end: int): int
    requires start < end
  {
    Quotient(Wrapped(Sub(windowEnd, start) * 100), Sub(end, start))
  }

  lemma QuotientGrows(a: int, b: int, d: int)
    requires 0 <= a <= b && d > 0
    ensures 0 <= a / d <= b / d
  {
    assert d * (a / d) <= a && b < d * (b / d + 1);
    ScaledOrder(b / d, a / d, d);
  }

  lemma ScaledOrder(n: int, m: int, d: int)
    requires d > 0
    ensures n < m ==> d * (n + 1) <= d * m
  {
  }

  lemma HundredTimes(d: int)
    requires d > 0
    ensures 100 * d / d == 100
  {
  }

  lemma NothingWraps(v: int, start: int, end: int)
    requires start < end && start <= v <= end && 100 * (end - start) <= MAX_DURATION
    ensures Percent(v, start, end) == 100 * (v - start) / (end - start)
  {
    var a, d := v - start, end - start;
    assert Sub(v, start) == a && Sub(end, start) == d;
    assert 0 <= a * 100 <= MAX_DURATION;
    assert Wrapped(a * 100) == a * 100;
  }

  /** While a hundred times the range fits into 64 bits the percentage is the share that is done. */
  lemma PercentIsShare(v: int, w: int, start: int, end: int)
    requires start < end && start <= v <= w <= end && 100 * (end - start) <= MAX_DURATION
    ensures Percent(v, start, end) == 100 * (v - start) / (end - start)
    ensures 0 <= Percent(v, start, end) <= Percent(w, start, end) <= 100
  {
    NothingWraps(v, start, end);
    NothingWraps(w, start, end);
    SharesGrow(v - start, w - start, end - start);
  }

  lemma SharesGrow(a: int, b: int, d: int)
    requires 0 <= a <= b <= d && d > 0
    ensures 0 <= 100 * a / d <= 100 * b / d <= 100
  {
    QuotientGrows(100 * a, 100 * b, d);
    QuotientGrows(100 * b, 100 * d, d);
    HundredTimes(d);
  }

  lemma QuotientBounds(a: int, b: int)
    requires b > 0
    ensures a >= 0 ==> b * Quotient(a, b) <= a < b * (Quotient(a, b) + 1)
    ensures a < 0 ==> Quotient(a, b) <= 0
  {
    if a < 0 { QuotientGrows(0, -a, b); }
  }

  /** The last percentage is one hundred exactly as long as it does. */
  lemma PercentEndsAtHundred(start: int, end: int)
    requires start < end
    ensures Percent(end, start, end) == 100 <==> 100 * (end - start) <= MAX_DURATION
  {
    var d := Sub(end, start);
    if 100 * (end - start) <= MAX_DURATION {
      PercentIsShare(end, end, start, end);
      HundredTimes(end - start);
    } else {
      assert Wrapped(100 * d) < 100 * d;
      QuotientBounds(Wrapped(100 * d), d);
    }
  }

  // ---------------------------------------------------------------- windows

  function Reached(windows: seq<Window>, start: int): int {
    if windows == [] then start else windows[|windows| - 1].end
  }

  /** The windows follow each other from the start without gap or overlap. */
  ghost predicate Tiles(windows: seq<Window>, start: int) {
    forall k :: 0 <= k < |windows| ==>
          windows[k].start == Reached(windows[..k], start) && windows[k].start < windows[k].end
  }

  lemma TilesPrefix(windows: seq<Window>, start: int, n: nat)
    requires Tiles(windows, start) && n <= |windows|
    ensures Tiles(windows[..n], start)
  {
    forall k | 0 <= k < n
      ensures windows[..n][k].start == Reached(windows[..n][..k], start) && windows[..n][k].start < windows[..n][k].end
    {
      assert windows[..n][..k] == windows[..k];
    }
  }

  lemma TilesOneMore(windows: seq<Window>, start: int, w: Window)
    requires Tiles(windows, start) && w.start == Reached(windows, start) && w.start < w.end
    ensures Tiles(windows + [w], start) && Reached(windows + [w], start) == w.end
  {
    var after := windows + [w];
    forall k | 0 <= k < |after|
      ensures after[k].start == Reached(after[..k], start) && after[k].start < after[k].end
    {
      assert after[..k] == windows[..k];
      assert windows[..|windows|] == windows;
    }
  }

  lemma {:induction false} TilesInOrder(windows: seq<Window>, start: int, i: nat, j: nat)
    requires Tiles(windows, start) && i <= j < |windows|
    ensures start <= windows[i].start <= windows[j].start && (i < j ==> windows[i].end <= windows[j].start)
    decreases j
  {
    if j > 0 {
      assert windows[j].start == windows[..j][j - 1].end;
      TilesInOrder(windows, start, if i < j then i else j - 1, j - 1);
    } else {
      assert windows[..0] == [];
    }
  }

  lemma {:induction false} TileAt(windows: seq<Window>, start: int, t: int) returns (k: nat)
    requires Tiles(windows, start) && start <= t < Reached(windows, start)
    ensures k < |windows| && windows[k].start <= t < windows[k].end
  {
    var last := |windows| - 1;
    if t >= windows[last].start {
      k := last;
    } else {
      TilesPrefix(windows, start, last);
      k := TileAt(windows[..last], start, t);
    }
  }

  /** Every instant of the range is in exactly one window. */
  lemma TilesPartition(windows: seq<Window>, start: int, t: int)
    requires Tiles(windows, start) && start <= t < Reached(windows, start)
    ensures exists k :: 0 <= k < |windows| && windows[k].start <= t < windows[k].end
                        && forall j :: 0 <= j < |windows| && windows[j].start <= t < windows[j].end ==> j == k
  {
    var k := TileAt(windows, start, t);
    forall j | 0 <= j < |windows| && windows[j].start <= t < windows[j].end
      ensures j == k
    {
      if j < k { TilesInOrder(windows, start, j, k); }
      if k < j { TilesInOrder(windows, start, k, j); }
    }
  }

  /** How many whole intervals fit, or one more for a rest. */
  ghost predicate IsCeiling(n: int, length: int, interval: int) {
    (n - 1) * interval < length <= n * interval
  }

  lemma CeilingIsUnique(n: int, m: int, length: int, interval: int)
    requires interval > 0 && IsCeiling(n, length, interval) && IsCeiling(m, length, interval)
    ensures n == m
  {
    ScaledOrder(n, m, interval);
    ScaledOrder(m, n, interval);
    OneMoreInterval(n - 1, interval);
    OneMoreInterval(m - 1, interval);
  }

  lemma CountIsCeiling(start: int, end: int, interval: int)
    requires start < end && interval > 0 && end - start <= MAX_DURATION
    ensures IsCeiling(CountWindows(start, end, interval), end - start, interval)
  {
    var d := end - start;
    assert d == interval * (d / interval) + d % interval;
    var n := CountWindows(start, end, interval);
    if d % interval == 0 {
      assert n * interval == d && (n - 1) * interval == d - interval;
    } else {
      assert (n - 1) * interval == d - d % interval;
      assert n * interval == (n - 1) * interval + interval;
    }
  }

  // ---------------------------------------------------------------- the import

  function ResultOf(f: Fate): Result {
    Process(f.cancelledBefore, 0, Attempt(0, 0, 0, 0), f.task, f.cancelledAfter, ImportPolicy())
  }

  /** Imported and gap windows are counted, anything else stops the import. */
  lemma ImportResults(f: Fate)
    ensures ResultOf(f) in {Completed, MonitoringGap, Failed, Cancelled}
    ensures ResultOf(f) == Cancelled <==> f.cancelledBefore || f.cancelledAfter
    ensures ResultOf(f) in {Completed, MonitoringGap} <==> Counted(f)
    ensures ResultOf(f) == Completed <==> Counted(f) && f.task.None?
  {
    ImportResultsByError(f.cancelledBefore, 0, Attempt(0, 0, 0, 0), f.task, f.cancelledAfter);
  }

  /** Collected, or without data to collect. */
  predicate Counted(f: Fate) {
    !f.cancelledBefore && !f.cancelledAfter && f.task in {None, Some(NoMetrics), Some(NoPrometheusData)}
  }

  function Completions(fates: nat -> Fate, n: nat): nat {
    if n == 0 then 0 else Completions(fates, n - 1) + if fates(n - 1).task.None? then 1 else 0
  }

  /** What is true of the windows done so far, and of what was reported about them. */
  ghost predicate Progress(start: int, end: int, fates: nat -> Fate, s: Summary, done: seq<Window>,
                           percents: seq<int>) {
    && Tiles(done, start) && (start < end ==> Reached(done, start) <= end)
    && s.imported + s.gaps == |done| == |percents| && s.imported == Completions(fates, |done|)
    && forall k :: 0 <= k < |done| ==>
         Counted(fates(k)) && start < end && percents[k] == Percent(done[k].end, start, end)
  }

  /** How far the range is covered, in whole intervals until the end. */
  ghost predicate Covered(start: int, end: int, interval: int, done: seq<Window>) {
    var reached := Reached(done, start);
    && (reached < end ==> reached - start == |done| * interval)
    && (reached >= end && start < end ==> IsCeiling(|done|, end - start, interval))
    && (start >= end ==> done == [])
  }

  lemma OneMoreCovered(start: int, end: int, interval: int, done: seq<Window>, w: Window)
    requires interval > 0 && Covered(start, end, interval, done) && Reached(done, start) < end && start < end
    requires w.start == Reached(done, start) && w.end == if w.start + interval > end then end else w.start + interval
    ensures Covered(start, end, interval, done + [w])
  {
    OneMoreInterval(|done|, interval);
  }

  lemma OneMoreDone(start: int, end: int, fates: nat -> Fate, before: Summary, after: Summary, done: seq<Window>,
                    percents: seq<int>, w: Window)
    requires Progress(start, end, fates, before, done, percents)
             && after.imported + after.gaps == before.imported + before.gaps + 1
    requires after.imported == before.imported + if fates(|done|).task.None? then 1 else 0
    requires start < end && w.start == Reached(done, start) < w.end <= end && Counted(fates(|done|))
    ensures Progress(start, end, fates, after, done + [w], percents + [Percent(w.end, start, end)])
    ensures Reached(done + [w], start) == w.end
  {
    TilesOneMore(done, start, w);
    forall k | 0 <= k < |done + [w]|
      ensures Counted(fates(k))
              && (percents + [Percent(w.end, start, end)])[k] == Percent((done + [w])[k].end, start, end)
    {
    }
  }

  /** `fates` says what happens to the k-th window. The windows that were counted and the percentages
      that were reported come back beside the summary. */
  method Import(start: int, end: int, interval: int, fates: nat -> Fate)
    returns (summary: Summary, error: Option<ImportError>, done: seq<Window>, percents: seq<int>)
    ensures summary.total == CountWindows(start, end, interval) && Progress(start, end, fates, summary, done, percents)
    ensures error == Some(InvalidInterval) <==> interval <= 0
    ensures interval <= 0 ==> done == []
    ensures forall k :: 0 <= k < |done| ==>
              !fates(k).cancelledBefore && !fates(k).cancelledAfter && fates(k).task != Some(OtherFailure)
    ensures error.Some? && interval > 0 ==>
              var f := fates(|done|);
              if f.cancelledBefore || f.cancelledAfter then error == Some(Stopped(Cancelled))
              else f.task == Some(OtherFailure) && error == Some(Stopped(Failed))
    ensures error.None? && start < end ==> Reached(done, start) == end && IsCeiling(|done|, end - start, interval)
    ensures error.None? && start >= end ==> done == []
  {
    if interval <= 0 { return Summary(CountWindows(start, end, interval), 0, 0), Some(InvalidInterval), [], []; }
    summary, error, done, percents := ImportWindows(start, end, interval, fates);
    ImportResults(fates(|done|));
  }

  method ImportWindows(start: int, end: int, interval: int, fates: nat -> Fate)
    returns (summary: Summary, error: Option<ImportError>, done: seq<Window>, percents: seq<int>)
    requires interval > 0
    ensures summary.total == CountWindows(start, end, interval) && Progress(start, end, fates, summary, done, percents)
    ensures error.None? ==> Reached(done, start) >= end && Covered(start, end, interval, done)
    ensures error.Some? ==> !Counted(fates(|done|)) && error == Some(Stopped(ResultOf(fates(|done|))))
  {
    summary, error, done, percents := Summary(CountWindows(start, end, interval), 0, 0), None, [], [];
    var windowStart := start;
    while windowStart < end
      invariant windowStart == Reached(done, start) && Progress(start, end, fates, summary, done, percents)
      invariant summary.total == CountWindows(start, end, interval) && Covered(start, end, interval, done)
      decreases end - windowStart
    {
      var windowEnd := windowStart + interval;
      if windowEnd > end {
        windowEnd := end;
      }
      var window := Window(windowStart, windowEnd);
      ghost var before := summary;
      var result := ResultOf(fates(|done|));
      ImportResults(fates(|done|));
      match result {
        case Completed => summary := summary.(imported := summary.imported + 1);
        case MonitoringGap => summary := summary.(gaps := summary.gaps + 1);
        case _ => return summary, Some(Stopped(result)), done, percents;
      }
      OneMoreDone(start, end, fates, before, summary, done, percents, window);
      OneMoreCovered(start, end, interval, done, window);
      percents := percents + [Percent(windowEnd, start, end)];
      done := done + [window];
      windowStart := windowEnd;
    }
  }

  lemma OneMoreInterval(n: int, interval: int)
    ensures (n + 1) * interval == n * interval + interval
  {
  }

  /** The promise of the summary: a finished import has counted as many windows as it announced. */
  lemma AnnouncedIsDone(start: int, end: int, interval: int, windows: int)
    requires start < end && interval > 0 && end - start <= MAX_DURATION && IsCeiling(windows, end - start, interval)
    ensures windows == CountWindows(start, end, interval)
  {
    CountIsCeiling(start, end, interval);
    CeilingIsUnique(windows, CountWindows(start, end, interval), end - start, interval);
  }

  /** The reported percentages never fall as long as a hundred times the range fits. */
  lemma PercentsNeverFall(done: seq<Window>, start: int, end: int, i: nat, j: nat)
    requires Tiles(done, start) && Reached(done, start) <= end && i <= j < |done| && 100 * (end - start) <= MAX_DURATION
    ensures start < end && 0 <= Percent(done[i].end, start, end) <= Percent(done[j].end, start, end) <= 100
  {
    TilesInOrder(done, start, i, j);
    TilesInOrder(done, start, j, |done| - 1);
    PercentIsShare(done[i].end, done[j].end, start, end);
  }
}
