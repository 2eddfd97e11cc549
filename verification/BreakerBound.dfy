// How many failures of one action fit into a window of the circuit breaker.
module BreakerBound {
  import opened Common
  import opened Text
  import opened StrategyActions
  import opened ActionExecution
  import opened ExecutionSafety

  // ----- The sharp bound on one history -----

  /** Rows `threshold` places apart finished more than a window apart. */
  ghost predicate AllSpaced(cfg: Config, h: seq<Row>)
    requires cfg.threshold >= 1
  {
    forall i | 0 <= i < |h| - cfg.threshold :: FarApart(cfg, h, i)
  }

  lemma {:induction false} SpacedBound(cfg: Config, h: seq<Row>, now: int, end: int)
    requires Timed(h, now) && cfg.threshold >= 1 && AllSpaced(cfg, h)
    ensures RecentFailures(h, end, cfg.window) <= cfg.threshold
  {
    if |h| <= cfg.threshold {
      RecentAtMostAll(h, end, cfg.window);
    } else {
      var n := |h| - 1;
      if RecentFailure(h[n], end, cfg.window) {
        var i := n - cfg.threshold;
        assert FarApart(cfg, h, i);
        RecentAfter(cfg, h, now, end, i);
      } else {
        assert h == h[..n] + h[n..];
        RecentSplits(h[..n], h[n..], end, cfg.window);
        NoneRecent(h[n..], end, cfg.window);
        forall i | 0 <= i < n - cfg.threshold ensures FarApart(cfg, h[..n], i) {
          assert FarApart(cfg, h, i);
        }
        SpacedBound(cfg, h[..n], now, end);
      }
    }
  }

  /** Once row `i` is too old for the window, so is everything before it. */
  lemma RecentAfter(cfg: Config, h: seq<Row>, now: int, end: int, i: nat)
    requires Timed(h, now) && i < |h| && h[i].finishedAt.Some? && h[i].finishedAt.value + cfg.window < end
    ensures RecentFailures(h, end, cfg.window) <= |h| - 1 - i
  {
    OldPrefix(cfg, h, now, end, i);
    assert h == h[..i + 1] + h[i + 1..];
    RecentSplits(h[..i + 1], h[i + 1..], end, cfg.window);
    RecentAtMostAll(h[i + 1..], end, cfg.window);
  }

  lemma OldPrefix(cfg: Config, h: seq<Row>, now: int, end: int, i: nat)
    requires Timed(h, now) && i < |h| && h[i].finishedAt.Some? && h[i].finishedAt.value + cfg.window < end
    ensures RecentFailures(h[..i + 1], end, cfg.window) == 0
  {
    var older := h[..i + 1];
    forall j | 0 <= j < |older| ensures !RecentFailure(older[j], end, cfg.window) {
      assert j < i ==> h[j].finishedAt.value <= h[i].startedAt;
    }
    NoneRecent(older, end, cfg.window);
  }

  ghost function LastFailed(h: seq<Row>): nat {
    if h != [] && h[|h| - 1].status == Failure then 1 else 0
  }

  ghost predicate Sound(cfg: Config, h: seq<Row>, status: Option<Status>, now: int) {
    HistoryOk(cfg, h, status, now) && SensibleBreaker(cfg) && NoneSkipped(h)
  }

  lemma SplitLast(cfg: Config, h: seq<Row>, status: Option<Status>, now: int, end: int)
    requires Sound(cfg, h, status, now) && h != []
    ensures Timed(h[..|h| - 1], now) && AllSpaced(cfg, h[..|h| - 1])
    ensures RecentFailures(h, end, cfg.window)
         <= RecentFailures(h[..|h| - 1], end, cfg.window) + LastFailed(h)
  {
    var n := |h| - 1;
    assert h == h[..n] + h[n..];
    RecentSplits(h[..n], h[n..], end, cfg.window);
    RecentAtMostAll(h[n..], end, cfg.window);
    if h[n].status != Failure {
      NoneRecent(h[n..], end, cfg.window);
    }
    forall i | 0 <= i < n - cfg.threshold ensures FarApart(cfg, h[..n], i) {
      assert FarApart(cfg, h, i);
    }
  }

  /** At most `threshold` timed-out executions, and the failed one that ended the action. */
  lemma HistoryBound(cfg: Config, h: seq<Row>, status: Option<Status>, now: int, end: int)
    requires Sound(cfg, h, status, now)
    ensures RecentFailures(h, end, cfg.window) <= cfg.threshold + LastFailed(h)
  {
    if h != [] {
      SplitLast(cfg, h, status, now, end);
      SpacedBound(cfg, h[..|h| - 1], now, end);
    }
  }

  /** The newest execution failed within a window of the one `threshold` places before it. */
  ghost predicate Crowded(cfg: Config, h: seq<Row>)
    requires cfg.threshold >= 1
  {
    && |h| > cfg.threshold
    && h[|h| - 1].status == Failure
    && var i := |h| - 1 - cfg.threshold;
       h[i].finishedAt.Some? && h[|h| - 1].finishedAt.Some?
       && h[i].finishedAt.value + cfg.window >= h[|h| - 1].finishedAt.value
  }

  lemma CrowdedExceeds(cfg: Config, h: seq<Row>, status: Option<Status>, now: int)
    requires Sound(cfg, h, status, now) && Crowded(cfg, h)
    ensures RecentFailures(h, h[|h| - 1].finishedAt.value, cfg.window) > cfg.threshold
  {
    var n := |h| - 1;
    var i, end := n - cfg.threshold, h[n].finishedAt.value;
    forall j | 0 <= j < |h[i..]| ensures RecentFailure(h[i..][j], end, cfg.window) {
      if j > 0 {
        assert h[i].finishedAt.value <= h[i + j].startedAt;
      }
      if i + j < n {
        assert h[i + j].finishedAt.value <= h[n].startedAt;
      }
    }
    AllRecent(h[i..], end, cfg.window);
    SuffixCounts(h, i, end, cfg.window);
  }

  lemma ExceedsCrowded(cfg: Config, h: seq<Row>, status: Option<Status>, now: int, end: int)
    requires Sound(cfg, h, status, now) && RecentFailures(h, end, cfg.window) > cfg.threshold
    ensures Crowded(cfg, h)
  {
    HistoryBound(cfg, h, status, now, end);
    var n := |h| - 1;
    RecentAtMostAll(h, end, cfg.window);
    SplitLast(cfg, h, status, now, end);
    SpacedBound(cfg, h[..n], now, end);
    assert |h| > cfg.threshold;
    LastCounts(cfg, h, end);
    var i := n - cfg.threshold;
    assert h[i].status == FailedTimeout;
    if h[i].finishedAt.value + cfg.window < h[n].finishedAt.value {
      RecentAfter(cfg, h, now, end, i);
    }
  }

  lemma LastCounts(cfg: Config, h: seq<Row>, end: int)
    requires h != [] && RecentFailures(h[..|h| - 1], end, cfg.window) <= cfg.threshold
    requires RecentFailures(h, end, cfg.window) > cfg.threshold
    ensures RecentFailure(h[|h| - 1], end, cfg.window)
  {
    var n := |h| - 1;
    assert h == h[..n] + h[n..];
    RecentSplits(h[..n], h[n..], end, cfg.window);
  }

  // ----- Over runs -----

  function Reached(cfg: Config, capacity: nat, events: seq<Event>): Exec {
    ExecutionSafety.Run(cfg, Fresh(capacity), events)
  }

  lemma ReachedIsSound(cfg: Config, capacity: nat, events: seq<Event>, start: int, a: nat)
    requires capacity >= 1 && OneAtATime(events, start) && AlwaysExecutable(events, a) && SensibleBreaker(cfg)
    ensures var s := Reached(cfg, capacity, events);
            Sound(cfg, RowsOf(s.rows, a), StatusOf(s, a), LastTime(events, start))
  {
    RunKeepsInv(cfg, capacity, events, start);
    ExecutableMeansNoneSkipped(cfg, capacity, events, a);
    assert ActionOk(cfg, Reached(cfg, capacity, events), a, LastTime(events, start));
  }

  /** Over every run, any window of the breaker's length holds at most `threshold` failed or timed-out
      executions of an action, and one more only when its newest execution failed.  It holds more than
      `threshold` somewhere exactly when that failure came within a window of the timed-out execution
      `threshold` places before it. */
  lemma FailuresPerWindow(cfg: Config, capacity: nat, events: seq<Event>, start: int, a: nat)
    requires capacity >= 1 && OneAtATime(events, start) && AlwaysExecutable(events, a) && SensibleBreaker(cfg)
    ensures var h := RowsOf(Reached(cfg, capacity, events).rows, a);
            && (forall end :: RecentFailures(h, end, cfg.window) <= cfg.threshold + LastFailed(h))
            && ((exists end :: RecentFailures(h, end, cfg.window) > cfg.threshold) <==> Crowded(cfg, h))
  {
    ReachedIsSound(cfg, capacity, events, start, a);
    var s := Reached(cfg, capacity, events);
    var h, status, now := RowsOf(s.rows, a), StatusOf(s, a), LastTime(events, start);
    forall end ensures RecentFailures(h, end, cfg.window) <= cfg.threshold + LastFailed(h) {
      HistoryBound(cfg, h, status, now, end);
    }
    if end :| RecentFailures(h, end, cfg.window) > cfg.threshold {
      ExceedsCrowded(cfg, h, status, now, end);
    }
    if Crowded(cfg, h) {
      CrowdedExceeds(cfg, h, status, now);
    }
  }

  /** When the execution `threshold` places before a new one finished, once the stale one is timed out. */
  ghost function ThresholdAgo(cfg: Config, h: seq<Row>, e: Execution): Option<int>
    requires 1 <= cfg.threshold <= |h|
  {
    if cfg.threshold == 1 then Some(e.at.timedOut) else h[|h| - cfg.threshold].finishedAt
  }

  /** From a reachable state, an admitted attempt pushes some window above the threshold exactly when it
      fails, and ends within a window of the time the execution `threshold` places before it finished. */
  lemma AttemptExceedsIff(cfg: Config, capacity: nat, events: seq<Event>, start: int, e: Execution)
    requires capacity >= 1 && SensibleBreaker(cfg)
    requires OneAtATime(events + [Attempt(e)], start) && AlwaysExecutable(events + [Attempt(e)], e.actionId)
    requires Refused(cfg, Reached(cfg, capacity, events), e).None?
    ensures var before, after := Reached(cfg, capacity, events), Reached(cfg, capacity, events + [Attempt(e)]);
            var h, h' := RowsOf(before.rows, e.actionId), RowsOf(after.rows, e.actionId);
            (exists end :: RecentFailures(h', end, cfg.window) > cfg.threshold)
            <==> (&& FinalRow(e).status == Failure
                  && |h| >= cfg.threshold
                  && ThresholdAgo(cfg, h, e).Some?
                  && ThresholdAgo(cfg, h, e).value + cfg.window >= e.at.finish)
  {
    var all, a := events + [Attempt(e)], e.actionId;
    assert all[..|events|] == events && Attempt(e) in all;
    forall x | x in events ensures x in all {
    }
    var s := Reached(cfg, capacity, events);
    var h, status := RowsOf(s.rows, a), StatusOf(s, a);
    FailuresPerWindow(cfg, capacity, all, start, a);
    ReachedIsSound(cfg, capacity, events, start, a);
    ExecuteOnHistories(cfg, s, e, a);
    AdmittedBy(cfg, s, e);
    if h != [] {
      StaleIsSettled(cfg, h, status, e);
    }
    CrowdedAfter(cfg, h, e);
  }

  lemma CrowdedAfter(cfg: Config, h: seq<Row>, e: Execution)
    requires SensibleBreaker(cfg) && e.hasExecutor
    requires h != [] ==>
               (SettledHistory(cfg, h, e)
                == h[|h| - 1 := h[|h| - 1].(status := FailedTimeout, finishedAt := Some(e.at.timedOut))])
    ensures Crowded(cfg, SettledHistory(cfg, h, e) + [FinalRow(e)])
       <==> (&& FinalRow(e).status == Failure
             && |h| >= cfg.threshold
             && ThresholdAgo(cfg, h, e).Some?
             && ThresholdAgo(cfg, h, e).value + cfg.window >= e.at.finish)
  {
  }

  // ----- Which settings keep the threshold -----

  /** Timed-out executions finish at least a delay apart. */
  lemma {:induction false} TimeoutsSpread(cfg: Config, h: seq<Row>, now: int, i: nat, j: nat)
    requires Timed(h, now) && TimeoutsEarned(cfg, h) && i <= j < |h|
    requires forall k | i <= k <= j :: h[k].status == FailedTimeout
    ensures h[i].finishedAt.Some? && h[j].finishedAt.Some?
    ensures h[j].finishedAt.value >= h[i].finishedAt.value + (j - i) * LeastDelay(cfg)
    decreases j - i
  {
    if i < j {
      TimeoutsSpread(cfg, h, now, i, j - 1);
      assert h[j - 1].finishedAt.value <= h[j].startedAt;
      assert (j - i) * LeastDelay(cfg) == (j - 1 - i) * LeastDelay(cfg) + LeastDelay(cfg);
    }
  }

  ghost predicate WithinThreshold(cfg: Config, capacity: nat, events: seq<Event>, start: int, a: nat, end: int) {
    capacity >= 1 && OneAtATime(events, start) && AlwaysExecutable(events, a) ==>
      RecentFailures(RowsOf(Reached(cfg, capacity, events).rows, a), end, cfg.window) <= cfg.threshold
  }

  /** Between the first and the last but one of threshold + 1 failures lie threshold - 1 timeouts. */
  lemma ShortWindowKeepsThreshold(cfg: Config, capacity: nat, events: seq<Event>, start: int, a: nat, end: int)
    requires SensibleBreaker(cfg) && cfg.window < (cfg.threshold - 1) * LeastDelay(cfg)
    ensures WithinThreshold(cfg, capacity, events, start, a, end)
  {
    if capacity >= 1 && OneAtATime(events, start) && AlwaysExecutable(events, a) {
      ReachedIsSound(cfg, capacity, events, start, a);
      var s := Reached(cfg, capacity, events);
      var h, now := RowsOf(s.rows, a), LastTime(events, start);
      if RecentFailures(h, end, cfg.window) > cfg.threshold {
        ExceedsCrowded(cfg, h, StatusOf(s, a), now, end);
        var n := |h| - 1;
        TimeoutsSpread(cfg, h, now, n - cfg.threshold, n - 1);
      }
    }
  }

  // ----- A run that exceeds the threshold -----

  /** The time of the `k`-th attempt. */
  function At(cfg: Config, k: nat): int {
    if k == 0 then 1 else At(cfg, k - 1) + LeastDelay(cfg)
  }

  lemma {:induction false} AtIs(cfg: Config, k: nat)
    ensures At(cfg, k) == 1 + k * LeastDelay(cfg)
  {
    if k > 0 {
      AtIs(cfg, k - 1);
      assert k * LeastDelay(cfg) == (k - 1) * LeastDelay(cfg) + LeastDelay(cfg);
    }
  }

  function AttemptAt(cfg: Config, k: nat, outcome: Outcome): Execution {
    var t := At(cfg, k);
    Execution(1, Some(true), false, true, outcome, Times(t, t, t, t, t, t))
  }

  /** A request whose action has text in its payload. */
  predicate Textual(r: Request) {
    r.kind == Known(DraftAsset) && r.target != "" && !IsSpace(r.target[0]) && r.reasoning != "" && !IsSpace(r.reasoning[0])
  }

  /** Register an action, then lose `k` executions of it, each found stale by the next. */
  function LostRun(cfg: Config, r: Request, k: nat): seq<Event> {
    if k == 0 then [Register(r, 0)] else LostRun(cfg, r, k - 1) + [Attempt(AttemptAt(cfg, k - 1, Lost))]
  }

  /** Lose `threshold` executions and let one more fail. */
  function CrowdedRun(cfg: Config, r: Request): seq<Event>
    requires cfg.threshold >= 0
  {
    LostRun(cfg, r, cfg.threshold) + [Attempt(AttemptAt(cfg, cfg.threshold, Raised))]
  }

  function LostRow(cfg: Config, i: nat, k: nat): Row {
    if i + 1 < k then Row(1, FailedTimeout, At(cfg, i), Some(At(cfg, i + 1))) else Row(1, Running, At(cfg, i), None)
  }

  function LostRows(cfg: Config, k: nat): seq<Row> {
    seq(k, i requires 0 <= i < k => LostRow(cfg, i, k))
  }

  lemma {:induction false} AllOfOne(rows: seq<Row>)
    requires forall i | 0 <= i < |rows| :: rows[i].actionId == 1
    ensures RowsOf(rows, 1) == rows
    ensures LatestIndex(rows, 1) == if rows == [] then None else Some(|rows| - 1)
  {
    if rows != [] {
      AllOfOne(rows[..|rows| - 1]);
    }
  }

  lemma FewerLostThanAttempts(cfg: Config, k: nat, now: int)
    requires k > 0
    ensures RecentFailures(LostRows(cfg, k), now, cfg.window) <= k - 1
  {
    var rows := LostRows(cfg, k);
    assert rows == rows[..k - 1] + rows[k - 1..] && rows[k - 1] == LostRow(cfg, k - 1, k);
    RecentSplits(rows[..k - 1], rows[k - 1..], now, cfg.window);
    RecentAtMostAll(rows[..k - 1], now, cfg.window);
    NoneRecent(rows[k - 1..], now, cfg.window);
  }

  lemma NewestCountsLess(rows: seq<Row>, n: nat, now: int, window: int)
    ensures RecentFailures(Newest(rows, n), now, window) <= RecentFailures(rows, now, window)
  {
    if |rows| > n {
      SuffixCounts(rows, |rows| - n, now, window);
    }
  }

  lemma BreakerStaysClosed(cfg: Config, k: nat, now: int)
    requires k <= cfg.threshold
    ensures !BreakerOpen(cfg, LostRows(cfg, k), now)
  {
    NewestCountsLess(LostRows(cfg, k), Lookback(cfg.threshold), now, cfg.window);
    if k > 0 {
      FewerLostThanAttempts(cfg, k, now);
    }
  }

  /** A pending action with text in its payload. */
  ghost predicate Ready(s: Exec) {
    var found := Find(s.store.items, 1);
    found.Some? && MinimumPayload(found.value) && found.value.status == Pending
  }

  /** The newest lost row is stale at the next attempt; timing it out leaves the next log but its last row. */
  lemma NothingBlocks(cfg: Config, k: nat, outcome: Outcome)
    ensures Blocked(cfg, LostRows(cfg, k), AttemptAt(cfg, k, outcome)).None?
    ensures Settled(cfg, LostRows(cfg, k), AttemptAt(cfg, k, outcome)) == LostRows(cfg, k + 1)[..k]
  {
    var rows, e := LostRows(cfg, k), AttemptAt(cfg, k, outcome);
    AllOfOne(rows);
    if k > 0 {
      assert rows[k - 1] == LostRow(cfg, k - 1, k) && Stale(cfg, rows[k - 1], e);
      var timedOut := LostRow(cfg, k - 1, k).(status := FailedTimeout, finishedAt := Some(At(cfg, k)));
      assert timedOut == LostRow(cfg, k - 1, k + 1);
      assert rows[k - 1 := timedOut] == LostRows(cfg, k + 1)[..k];
    }
  }

  lemma NothingGates(cfg: Config, s: Exec, e: Execution)
    requires Ready(s) && e.actionId == 1 && e.approvedFlag == Some(true)
    requires !BreakerOpen(cfg, RowsOf(s.rows, 1), e.at.check)
    ensures Gated(cfg, s, e).None?
  {
  }

  lemma NothingRefuses(cfg: Config, s: Exec, k: nat, outcome: Outcome)
    requires Ready(s) && s.rows == LostRows(cfg, k) && k <= cfg.threshold
    ensures Refused(cfg, s, AttemptAt(cfg, k, outcome)).None?
  {
    BreakerStaysClosed(cfg, k, At(cfg, k));
    AllOfOne(LostRows(cfg, k));
    NothingGates(cfg, s, AttemptAt(cfg, k, outcome));
    NothingBlocks(cfg, k, outcome);
  }

  lemma RunThen(cfg: Config, events: seq<Event>, e: Event)
    ensures Reached(cfg, 1, events + [e]) == ExecutionSafety.Step(cfg, Reached(cfg, 1, events), e)
  {
    assert (events + [e])[..|events|] == events;
  }

  lemma OneMoreAttempt(cfg: Config, s: Exec, k: nat, outcome: Outcome)
    requires Ready(s) && s.rows == LostRows(cfg, k) && k <= cfg.threshold
    ensures Execute(cfg, s, AttemptAt(cfg, k, outcome)).rows
         == LostRows(cfg, k + 1)[..k] + [FinalRow(AttemptAt(cfg, k, outcome))]
    ensures outcome == Lost ==> Execute(cfg, s, AttemptAt(cfg, k, outcome)) == Exec(s.store, LostRows(cfg, k + 1))
  {
    NothingRefuses(cfg, s, k, outcome);
    NothingBlocks(cfg, k, outcome);
    assert LostRows(cfg, k + 1)[..k] + [LostRow(cfg, k, k + 1)] == LostRows(cfg, k + 1);
  }

  ghost predicate LostReached(cfg: Config, r: Request, k: nat) {
    var s := Reached(cfg, 1, LostRun(cfg, r, k));
    Ready(s) && s.rows == LostRows(cfg, k)
  }

  lemma OneMoreLost(cfg: Config, r: Request, k: nat)
    requires LostReached(cfg, r, k) && k <= cfg.threshold
    ensures LostReached(cfg, r, k + 1)
  {
    RunThen(cfg, LostRun(cfg, r, k), Attempt(AttemptAt(cfg, k, Lost)));
    OneMoreAttempt(cfg, Reached(cfg, 1, LostRun(cfg, r, k)), k, Lost);
  }

  lemma {:induction false} LostRunReaches(cfg: Config, r: Request, k: nat)
    requires Textual(r) && k <= cfg.threshold
    ensures LostReached(cfg, r, k)
  {
    if k == 0 {
      Registered(cfg, r);
    } else {
      LostRunReaches(cfg, r, k - 1);
      OneMoreLost(cfg, r, k - 1);
    }
  }

  lemma Registered(cfg: Config, r: Request)
    requires Textual(r)
    ensures LostReached(cfg, r, 0)
  {
    RunThen(cfg, [], Register(r, 0));
    assert [] + [Register(r, 0)] == [Register(r, 0)];
    FirstRegistered(r);
    var a := Added(Fresh(1).store, Raw(r), 0);
    ReadyAlone(a);
  }

  lemma ReadyAlone(a: Action)
    requires a.id == 1 && a.status == Pending
    requires a.target != "" && !IsSpace(a.target[0]) && a.reasoning != "" && !IsSpace(a.reasoning[0])
    ensures Ready(Exec(Store([a], [a], 1), []))
  {
    assert Find([a], 1) == Some(a);
    StripKeepsText(a.target);
    StripKeepsText(a.reasoning);
  }

  lemma FirstRegistered(r: Request)
    requires Textual(r)
    ensures var a := Added(Fresh(1).store, Raw(r), 0);
            RegisterOne(Fresh(1).store, r, 0) == Store([a], [a], 1)
            && a.id == 1 && a.target == r.target && a.reasoning == r.reasoning && a.status == Pending
  {
    var a := Added(Fresh(1).store, Raw(r), 0);
    assert Registrable([], r);
    assert Newest([] + [a], 1) == [a];
  }

  lemma {:induction false} LostRunIsOrdered(cfg: Config, r: Request, k: nat)
    ensures OneAtATime(LostRun(cfg, r, k), -1) && AlwaysExecutable(LostRun(cfg, r, k), 1)
    ensures LastTime(LostRun(cfg, r, k), -1) == if k == 0 then 0 else At(cfg, k - 1)
  {
    var events := LostRun(cfg, r, k);
    if k == 0 {
      assert events[..|events| - 1] == [];
    } else {
      LostRunIsOrdered(cfg, r, k - 1);
      assert events[..|events| - 1] == LostRun(cfg, r, k - 1);
    }
  }

  lemma CrowdedRunIsOrdered(cfg: Config, r: Request)
    requires cfg.threshold >= 0
    ensures OneAtATime(CrowdedRun(cfg, r), -1) && AlwaysExecutable(CrowdedRun(cfg, r), 1)
  {
    var all := CrowdedRun(cfg, r);
    assert all[..|all| - 1] == LostRun(cfg, r, cfg.threshold);
    LostRunIsOrdered(cfg, r, cfg.threshold);
  }

  function CrowdedRows(cfg: Config): seq<Row>
    requires cfg.threshold >= 0
  {
    LostRows(cfg, cfg.threshold + 1)[..cfg.threshold] + [FinalRow(AttemptAt(cfg, cfg.threshold, Raised))]
  }

  lemma CrowdedRunReaches(cfg: Config, r: Request)
    requires cfg.threshold >= 0 && Textual(r)
    ensures RowsOf(Reached(cfg, 1, CrowdedRun(cfg, r)).rows, 1) == CrowdedRows(cfg)
  {
    LostRunReaches(cfg, r, cfg.threshold);
    LastAttemptFails(cfg, r);
    CrowdedRowsOfOne(cfg);
  }

  lemma CrowdedRowsOfOne(cfg: Config)
    requires cfg.threshold >= 0
    ensures RowsOf(CrowdedRows(cfg), 1) == CrowdedRows(cfg)
  {
    AllOfOne(CrowdedRows(cfg));
  }

  lemma LastAttemptFails(cfg: Config, r: Request)
    requires cfg.threshold >= 0 && LostReached(cfg, r, cfg.threshold)
    ensures Reached(cfg, 1, CrowdedRun(cfg, r)).rows == CrowdedRows(cfg)
  {
    var t := cfg.threshold;
    RunThen(cfg, LostRun(cfg, r, t), Attempt(AttemptAt(cfg, t, Raised)));
    OneMoreAttempt(cfg, Reached(cfg, 1, LostRun(cfg, r, t)), t, Raised);
  }

  lemma CrowdedRowsAreCrowded(cfg: Config)
    requires SensibleBreaker(cfg) && cfg.window >= (cfg.threshold - 1) * LeastDelay(cfg)
    ensures var h := CrowdedRows(cfg); Crowded(cfg, h) && h[|h| - 1].finishedAt == Some(At(cfg, cfg.threshold))
  {
    var t, h := cfg.threshold, CrowdedRows(cfg);
    AtIs(cfg, t);
    assert t * LeastDelay(cfg) == (t - 1) * LeastDelay(cfg) + LeastDelay(cfg);
    assert h[0] == LostRow(cfg, 0, t + 1) && At(cfg, 1) == 1 + LeastDelay(cfg);
  }

  /** The threshold itself is no bound: a run that loses `threshold` executions and then fails. */
  lemma ThresholdIsNoBound(cfg: Config, r: Request)
    requires SensibleBreaker(cfg) && cfg.window >= (cfg.threshold - 1) * LeastDelay(cfg) && Textual(r)
    ensures OneAtATime(CrowdedRun(cfg, r), -1) && AlwaysExecutable(CrowdedRun(cfg, r), 1)
    ensures RecentFailures(RowsOf(Reached(cfg, 1, CrowdedRun(cfg, r)).rows, 1), At(cfg, cfg.threshold), cfg.window)
          > cfg.threshold
  {
    CrowdedRunIsOrdered(cfg, r);
    CrowdedRunReaches(cfg, r);
    CrowdedRowsAreCrowded(cfg);
    ReachedIsSound(cfg, 1, CrowdedRun(cfg, r), -1, 1);
    CrowdedExceeds(cfg, CrowdedRows(cfg), StatusOf(Reached(cfg, 1, CrowdedRun(cfg, r)), 1),
                   LastTime(CrowdedRun(cfg, r), -1));
  }

  /** The threshold bounds every window of every run exactly when the window is too short for
      threshold - 1 timeouts in a row. */
  lemma ThresholdBoundsIff(cfg: Config)
    requires SensibleBreaker(cfg)
    ensures (forall capacity, events, start, a, end :: WithinThreshold(cfg, capacity, events, start, a, end))
       <==> cfg.window < (cfg.threshold - 1) * LeastDelay(cfg)
  {
    if cfg.window < (cfg.threshold - 1) * LeastDelay(cfg) {
      forall capacity, events, start, a, end ensures WithinThreshold(cfg, capacity, events, start, a, end) {
        ShortWindowKeepsThreshold(cfg, capacity, events, start, a, end);
      }
    } else {
      var r := Request(Known(DraftAsset), "t", "r", 0, None);
      ThresholdIsNoBound(cfg, r);
      assert !WithinThreshold(cfg, 1, CrowdedRun(cfg, r), -1, 1, At(cfg, cfg.threshold));
    }
  }

  /** The default settings, threshold 2 in 600 seconds with a timeout of 300, do not keep the threshold. */
  lemma DefaultsExceedThreshold(minRisk: Option<Risk>)
    ensures var cfg := Config(2, 600, 300, minRisk);
            exists capacity, events, start, a, end :: !WithinThreshold(cfg, capacity, events, start, a, end)
  {
    ThresholdBoundsIff(Config(2, 600, 300, minRisk));
  }
}
