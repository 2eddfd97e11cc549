// What every run of registrations, rejections and executions keeps.
module ExecutionSafety {
  import opened Common
  import opened Text
  import opened StrategyActions
  import opened ActionExecution

  // ----- One action's history -----

  function StatusOf(s: Exec, a: nat): Option<Status> {
    var found := Find(s.store.items, a);
    if found.Some? then Some(found.value.status) else None
  }

  /** Only the newest row may be running, failed or successful, and the action's status agrees with it. */
  ghost predicate GoodHistory(h: seq<Row>, status: Option<Status>) {
    && (forall i | 0 <= i < |h| - 1 :: h[i].status == FailedTimeout || h[i].status == Skipped)
    && (h != [] ==> h[|h| - 1].status != Queued && h[|h| - 1].status != FailedTimeout)
    && (status == Some(Executed) || status == Some(AutoExecuted) ==> h != [] && h[|h| - 1].status == Success)
    && (status == Some(Failed) ==> h != [] && h[|h| - 1].status == Failure)
    && (h != [] && h[|h| - 1].status == Failure ==> status in {None, Some(Failed), Some(Rejected)})
  }

  /** Executions of one action never overlap in time. */
  ghost predicate Timed(h: seq<Row>, now: int) {
    && (forall i | 0 <= i < |h| :: h[i].startedAt <= now
          && (h[i].finishedAt.None? <==> h[i].status == Running || h[i].status == Queued)
          && (h[i].finishedAt.Some? ==> h[i].startedAt <= h[i].finishedAt.value <= now))
    && (forall i, j | 0 <= i < j < |h| :: h[i].finishedAt.Some? && h[i].finishedAt.value <= h[j].startedAt)
  }

  ghost predicate NoneSkipped(h: seq<Row>) {
    forall i | 0 <= i < |h| :: h[i].status != Skipped
  }

  /** Before the newest execution, those `threshold` places apart finished more than a window apart. */
  ghost predicate Spaced(cfg: Config, h: seq<Row>)
    requires cfg.threshold >= 0
  {
    forall i | 0 <= i < |h| - cfg.threshold - 1 :: FarApart(cfg, h, i)
  }

  /** Row `i` and the one `threshold` places after it finished more than a window apart. */
  ghost predicate FarApart(cfg: Config, h: seq<Row>, i: nat)
    requires cfg.threshold >= 0 && i < |h| - cfg.threshold
  {
    var earlier, later := h[i], h[i + cfg.threshold];
    earlier.finishedAt.Some? && later.finishedAt.Some? && earlier.finishedAt.value + cfg.window < later.finishedAt.value
  }

  ghost predicate SensibleBreaker(cfg: Config) {
    1 <= cfg.threshold <= 499
  }

  /** How long a timed-out execution has run at least: the event that finds it stale is a later one. */
  function LeastDelay(cfg: Config): nat {
    Max(cfg.timeout, 1)
  }

  /** Only an execution that ran for the whole timeout is ever timed out. */
  ghost predicate TimeoutsEarned(cfg: Config, h: seq<Row>) {
    forall i | 0 <= i < |h| && h[i].status == FailedTimeout ::
      h[i].finishedAt.Some? && h[i].finishedAt.value - h[i].startedAt >= LeastDelay(cfg)
  }

  ghost predicate HistoryOk(cfg: Config, h: seq<Row>, status: Option<Status>, now: int) {
    && GoodHistory(h, status)
    && Timed(h, now)
    && TimeoutsEarned(cfg, h)
    && (SensibleBreaker(cfg) && NoneSkipped(h) ==> Spaced(cfg, h))
  }

  // ----- Counting recent failures -----

  lemma {:induction false} RecentSplits(a: seq<Row>, b: seq<Row>, now: int, window: int)
    ensures RecentFailures(a + b, now, window) == RecentFailures(a, now, window) + RecentFailures(b, now, window)
  {
    if a == [] {
      assert a + b == b;
    } else {
      RecentSplits(a[1..], b, now, window);
      assert (a + b)[1..] == a[1..] + b;
    }
  }

  lemma {:induction false} NoneRecent(h: seq<Row>, now: int, window: int)
    requires forall i | 0 <= i < |h| :: !RecentFailure(h[i], now, window)
    ensures RecentFailures(h, now, window) == 0
  {
    if h != [] {
      NoneRecent(h[1..], now, window);
    }
  }

  lemma {:induction false} RecentAtMostAll(h: seq<Row>, now: int, window: int)
    ensures RecentFailures(h, now, window) <= |h|
  {
    if h != [] {
      RecentAtMostAll(h[1..], now, window);
    }
  }

  lemma {:induction false} AllRecent(h: seq<Row>, now: int, window: int)
    requires forall i | 0 <= i < |h| :: RecentFailure(h[i], now, window)
    ensures RecentFailures(h, now, window) == |h|
  {
    if h != [] {
      AllRecent(h[1..], now, window);
    }
  }

  /** If an older failure is recent, so is every younger finished one. */
  lemma RecencyIsUpward(h: seq<Row>, status: Option<Status>, last: int, now: int, window: int, i: nat, j: nat)
    requires GoodHistory(h, status) && Timed(h, last) && NoneSkipped(h) && last <= now
    requires i <= j < |h| - 1 && RecentFailure(h[i], now, window)
    ensures RecentFailure(h[j], now, window)
  {
    if i < j {
      assert h[i].finishedAt.value <= h[j].startedAt;
    }
  }

  /** A recent failure at `k` makes every finished row from `k` on count. */
  lemma RecentTail(h: seq<Row>, status: Option<Status>, last: int, now: int, window: int, k: nat)
    requires GoodHistory(h, status) && Timed(h, last) && NoneSkipped(h) && last <= now
    requires k < |h| - 1 && RecentFailure(h[k], now, window)
    ensures RecentFailures(h[k..], now, window) >= |h| - 1 - k
  {
    var closed := h[k..|h| - 1];
    forall i | 0 <= i < |closed| ensures RecentFailure(closed[i], now, window) {
      RecencyIsUpward(h, status, last, now, window, k, k + i);
    }
    AllRecent(closed, now, window);
    assert h[k..] == closed + h[|h| - 1..];
    RecentSplits(closed, h[|h| - 1..], now, window);
  }

  /** A finished row that is not recent hides everything before it. */
  lemma NothingBefore(h: seq<Row>, status: Option<Status>, last: int, now: int, window: int, k: nat)
    requires GoodHistory(h, status) && Timed(h, last) && NoneSkipped(h) && last <= now
    requires k < |h| - 1 && !RecentFailure(h[k], now, window)
    ensures RecentFailures(h[..k], now, window) == 0
  {
    forall i | 0 <= i < k ensures !RecentFailure(h[..k][i], now, window) {
      if RecentFailure(h[i], now, window) {
        RecencyIsUpward(h, status, last, now, window, i, k);
      }
    }
    NoneRecent(h[..k], now, window);
  }

  /** Looking at the newest rows only decides the breaker exactly as looking at all of them. */
  lemma LookbackIsExact(cfg: Config, h: seq<Row>, status: Option<Status>, last: int, now: int)
    requires GoodHistory(h, status) && Timed(h, last) && NoneSkipped(h) && SensibleBreaker(cfg) && last <= now
    ensures BreakerOpen(cfg, h, now) <==> RecentFailures(h, now, cfg.window) >= cfg.threshold
  {
    var n := Lookback(cfg.threshold);
    if |h| > n {
      var k := |h| - n;
      assert h == h[..k] + h[k..];
      RecentSplits(h[..k], h[k..], now, cfg.window);
      if RecentFailure(h[k], now, cfg.window) {
        RecentTail(h, status, last, now, cfg.window, k);
      } else {
        NothingBefore(h, status, last, now, cfg.window, k);
      }
    }
  }

  /** Above five hundred the lookback can never fill the threshold: the breaker is off. */
  lemma HugeThresholdDisablesBreaker(cfg: Config, h: seq<Row>, now: int)
    requires cfg.threshold > 500
    ensures !BreakerOpen(cfg, h, now)
  {
    RecentAtMostAll(Newest(h, Lookback(cfg.threshold)), now, cfg.window);
  }

  // ----- One execution on one history -----

  ghost predicate InOrder(t: Times) {
    t.check <= t.stale <= t.timedOut <= t.start <= t.finish <= t.stamp
  }

  ghost function SettledHistory(cfg: Config, h: seq<Row>, e: Execution): seq<Row> {
    if h != [] && Stale(cfg, h[|h| - 1], e)
    then h[|h| - 1 := h[|h| - 1].(status := FailedTimeout, finishedAt := Some(e.at.timedOut))]
    else h
  }

  /** The gates as seen from the action's own history. */
  ghost predicate Admitted(cfg: Config, h: seq<Row>, e: Execution) {
    && !BreakerOpen(cfg, h, e.at.check)
    && (h != [] ==>
          var r := h[|h| - 1];
          r.status != Success && (r.status == Queued || r.status == Running ==> Stale(cfg, r, e)))
  }

  lemma SettledOnHistory(cfg: Config, rows: seq<Row>, e: Execution)
    ensures RowsOf(Settled(cfg, rows, e), e.actionId) == SettledHistory(cfg, RowsOf(rows, e.actionId), e)
    ensures Blocked(cfg, rows, e).None? ==>
              var h := RowsOf(rows, e.actionId);
              h != [] ==>
                var r := h[|h| - 1];
                r.status != Success && (r.status == Queued || r.status == Running ==> Stale(cfg, r, e))
  {
    var k := LatestIndex(rows, e.actionId);
    if k.None? {
      NoRowsOf(rows, e.actionId);
    } else {
      var r := rows[k.value].(status := FailedTimeout, finishedAt := Some(e.at.timedOut));
      UpdateLatest(rows, k.value, r, e.actionId);
    }
  }

  /** What one recorded execution does to every action's own history. */
  lemma RecordedHistory(cfg: Config, rows: seq<Row>, e: Execution, b: nat)
    ensures RowsOf(Settled(cfg, rows, e) + [FinalRow(e)], b)
         == if b == e.actionId then SettledHistory(cfg, RowsOf(rows, b), e) + [FinalRow(e)] else RowsOf(rows, b)
  {
    RowsOfAppend(Settled(cfg, rows, e), FinalRow(e), b);
    if b == e.actionId {
      SettledOnHistory(cfg, rows, e);
    } else {
      var k := LatestIndex(rows, e.actionId);
      if k.Some? {
        UpdateLatest(rows, k.value, rows[k.value].(status := FailedTimeout, finishedAt := Some(e.at.timedOut)), b);
      }
    }
  }

  lemma AdmittedBy(cfg: Config, s: Exec, e: Execution)
    requires Refused(cfg, s, e).None?
    ensures Admitted(cfg, RowsOf(s.rows, e.actionId), e)
    ensures StatusOf(s, e.actionId).Some? && !Terminal(StatusOf(s, e.actionId).value)
    ensures ApprovalNeeded(cfg, Find(s.store.items, e.actionId).value)
        ==> Approved(Find(s.store.items, e.actionId).value, e)
  {
    SettledOnHistory(cfg, s.rows, e);
  }

  /** An admitted execution settles the newest row and appends one; a refused one changes nothing. */
  lemma ExecuteOnHistories(cfg: Config, s: Exec, e: Execution, b: nat)
    ensures b != e.actionId || Refused(cfg, s, e).Some? ==> RowsOf(Execute(cfg, s, e).rows, b) == RowsOf(s.rows, b)
    ensures b == e.actionId && Refused(cfg, s, e).None? ==>
              RowsOf(Execute(cfg, s, e).rows, b) == SettledHistory(cfg, RowsOf(s.rows, b), e) + [FinalRow(e)]
  {
    RecordedHistory(cfg, s.rows, e, b);
  }

  lemma SettledLast(cfg: Config, h: seq<Row>, status: Option<Status>, e: Execution, last: int)
    requires GoodHistory(h, status) && Timed(h, last) && Admitted(cfg, h, e) && h != []
    requires status.Some? && !Terminal(status.value) && InOrder(e.at) && last <= e.at.check
    ensures var r := SettledHistory(cfg, h, e)[|h| - 1];
            && (r.status == FailedTimeout || r.status == Skipped) && r.finishedAt.Some?
            && r.startedAt == h[|h| - 1].startedAt <= r.finishedAt.value <= e.at.start
  {
    assert h[|h| - 1].status != Failure;
    assert h[|h| - 1].startedAt <= last;
  }

  lemma SettlingKeepsOrder(cfg: Config, h: seq<Row>, status: Option<Status>, e: Execution, last: int)
    requires GoodHistory(h, status) && Timed(h, last) && Admitted(cfg, h, e)
    requires status.Some? && !Terminal(status.value) && InOrder(e.at) && last <= e.at.check
    ensures var settled := SettledHistory(cfg, h, e);
            && |settled| == |h|
            && (forall i | 0 <= i < |h| - 1 :: settled[i] == h[i])
            && (forall i | 0 <= i < |h| :: settled[i].status == FailedTimeout || settled[i].status == Skipped)
            && (forall i | 0 <= i < |h| :: settled[i].startedAt == h[i].startedAt)
            && Timed(settled, e.at.start)
  {
    var settled := SettledHistory(cfg, h, e);
    assert forall i | 0 <= i < |h| - 1 :: settled[i] == h[i];
    if h != [] {
      SettledLast(cfg, h, status, e, last);
    }
  }

  lemma ExecutionKeepsGood(cfg: Config, h: seq<Row>, status: Option<Status>, e: Execution, last: int)
    requires GoodHistory(h, status) && Timed(h, last) && Admitted(cfg, h, e)
    requires status.Some? && !Terminal(status.value) && InOrder(e.at) && last <= e.at.check
    ensures var h' := SettledHistory(cfg, h, e) + [FinalRow(e)];
            && GoodHistory(h', if FinalStatus(e).Some? then FinalStatus(e) else status)
            && Timed(h', e.at.stamp)
  {
    SettlingKeepsOrder(cfg, h, status, e, last);
    var settled := SettledHistory(cfg, h, e);
    AppendKeepsGood(settled, FinalRow(e), if FinalStatus(e).Some? then FinalStatus(e) else status);
    AppendKeepsTimed(settled, FinalRow(e), e.at.start, e.at.stamp);
  }

  lemma AppendKeepsGood(h: seq<Row>, r: Row, status: Option<Status>)
    requires forall i | 0 <= i < |h| :: h[i].status == FailedTimeout || h[i].status == Skipped
    requires GoodHistory([r], status)
    ensures GoodHistory(h + [r], status)
  {
    var all := h + [r];
    assert all[|all| - 1] == r == [r][0] && forall i | 0 <= i < |h| :: all[i] == h[i];
  }

  lemma AppendKeepsTimed(h: seq<Row>, r: Row, now: int, later: int)
    requires Timed(h, now) && forall i | 0 <= i < |h| :: h[i].finishedAt.Some?
    requires now <= r.startedAt && Timed([r], later) && now <= later
    ensures Timed(h + [r], later)
  {
    var all := h + [r];
    assert all[|all| - 1] == r == [r][0] && forall i | 0 <= i < |h| :: all[i] == h[i];
  }

  /** The breaker keeps timed-out executions apart: the stale one joins them only while it is closed. */
  lemma ExecutionKeepsSpaced(cfg: Config, h: seq<Row>, status: Option<Status>, e: Execution, last: int)
    requires GoodHistory(h, status) && Timed(h, last) && Admitted(cfg, h, e) && SensibleBreaker(cfg) && Spaced(cfg, h)
    requires status.Some? && !Terminal(status.value) && InOrder(e.at) && last <= e.at.check
    requires NoneSkipped(h)
    ensures Spaced(cfg, SettledHistory(cfg, h, e) + [FinalRow(e)])
  {
    if h != [] {
      PastWhenAdmitted(cfg, h, status, e, last);
      StaleIsSettled(cfg, h, status, e);
      SpacedAfterTimeout(cfg, h, e.at.timedOut, FinalRow(e));
    }
  }

  /** The row `threshold` places before the newest, if any, finished more than a window before `t`. */
  ghost predicate PastBy(cfg: Config, h: seq<Row>, t: int)
    requires cfg.threshold >= 0
  {
    |h| > cfg.threshold ==>
      var past := h[|h| - 1 - cfg.threshold]; past.finishedAt.Some? && past.finishedAt.value + cfg.window < t
  }

  lemma PastWhenAdmitted(cfg: Config, h: seq<Row>, status: Option<Status>, e: Execution, last: int)
    requires GoodHistory(h, status) && Timed(h, last) && NoneSkipped(h) && SensibleBreaker(cfg)
    requires !BreakerOpen(cfg, h, e.at.check) && last <= e.at.check && InOrder(e.at)
    ensures PastBy(cfg, h, e.at.timedOut)
  {
    if |h| > cfg.threshold {
      OldWhenAdmitted(cfg, h, status, e, last, |h| - 1 - cfg.threshold);
      assert e.at.check <= e.at.timedOut;
    }
  }

  lemma SpacedAfterTimeout(cfg: Config, h: seq<Row>, timedOut: int, r: Row)
    requires cfg.threshold >= 1 && Spaced(cfg, h) && h != [] && PastBy(cfg, h, timedOut)
    ensures Spaced(cfg, h[|h| - 1 := h[|h| - 1].(status := FailedTimeout, finishedAt := Some(timedOut))] + [r])
  {
    SpacedExtends(cfg, h, h[|h| - 1 := h[|h| - 1].(status := FailedTimeout, finishedAt := Some(timedOut))], r);
  }

  /** With the breaker closed, the row `threshold` places before the stale one is out of its window. */
  lemma OldWhenAdmitted(cfg: Config, h: seq<Row>, status: Option<Status>, e: Execution, last: int, i: nat)
    requires GoodHistory(h, status) && Timed(h, last) && NoneSkipped(h) && SensibleBreaker(cfg) && last <= e.at.check
    requires !BreakerOpen(cfg, h, e.at.check) && i == |h| - 1 - cfg.threshold
    ensures h[i].finishedAt.Some? && h[i].finishedAt.value + cfg.window < e.at.check
  {
    LookbackIsExact(cfg, h, status, last, e.at.check);
    if RecentFailure(h[i], e.at.check, cfg.window) {
      RecentTail(h, status, last, e.at.check, cfg.window, i);
      SuffixCounts(h, i, e.at.check, cfg.window);
      assert false;
    }
  }

  /** An admitted execution of an action whose executions were never skipped finds a stale one, if any. */
  lemma StaleIsSettled(cfg: Config, h: seq<Row>, status: Option<Status>, e: Execution)
    requires GoodHistory(h, status) && Admitted(cfg, h, e) && NoneSkipped(h) && h != []
    requires status.Some? && !Terminal(status.value)
    ensures h[|h| - 1].status == Running && Stale(cfg, h[|h| - 1], e)
    ensures SettledHistory(cfg, h, e)
         == h[|h| - 1 := h[|h| - 1].(status := FailedTimeout, finishedAt := Some(e.at.timedOut))]
  {
    assert h[|h| - 1].status != Failure && h[|h| - 1].status != Skipped;
  }

  lemma SpacedExtends(cfg: Config, h: seq<Row>, settled: seq<Row>, r: Row)
    requires cfg.threshold >= 1 && Spaced(cfg, h) && |settled| == |h|
    requires forall i | 0 <= i < |h| - 1 :: settled[i] == h[i]
    requires |h| >= cfg.threshold + 1 ==>
               FarApart(cfg, settled, |h| - 1 - cfg.threshold)
    ensures Spaced(cfg, settled + [r])
  {
    forall i | 0 <= i < |settled + [r]| - cfg.threshold - 1
      ensures FarApart(cfg, settled + [r], i)
    {
      if i < |h| - cfg.threshold - 1 {
        assert FarApart(cfg, h, i);
      }
    }
  }

  // ----- Looking actions up in a bounded store -----

  lemma IndexAfterAppend(items: seq<Action>, a: Action, b: nat)
    requires forall i | 0 <= i < |items| :: items[i].id != a.id
    ensures Find(items + [a], b) == if b == a.id then Some(a) else Find(items, b)
  {
    var i := IndexOf(items + [a], b);
    if b == a.id {
      assert (items + [a])[|items|].id == b;
    } else if IndexOf(items, b) < |items| {
      assert (items + [a])[IndexOf(items, b)] == items[IndexOf(items, b)];
    }
  }

  lemma FindInNewest(items: seq<Action>, capacity: nat, b: nat)
    requires Increasing(items)
    ensures var found := Find(Newest(items, capacity), b); found.None? || found == Find(items, b)
    ensures capacity >= 1 && items != [] && items[|items| - 1].id == b ==>
              Find(Newest(items, capacity), b) == Some(items[|items| - 1])
  {
    var newest := Newest(items, capacity);
    var i := IndexOf(newest, b);
    if i < |newest| {
      IndexUnique(items, b, i + |items| - |newest|);
    }
    if capacity >= 1 && items != [] && items[|items| - 1].id == b {
      IndexUnique(newest, b, |newest| - 1);
    }
  }

  lemma FindAfterAdd(s: Store, raw: RawAction, now: int, b: nat)
    requires Valid(s) && After(s, now)
    ensures var a := Added(s, raw, now);
            var found := Find(WithAdded(s, raw, now).items, b);
            if b == a.id then found == Some(a) else found.None? || found == Find(s.items, b)
  {
    var a := Added(s, raw, now);
    FreshId(s);
    ItemsIncreasing(s);
    forall i | 0 <= i < |s.items| ensures s.items[i].id < a.id && s.items[i].createdAt < a.createdAt {
      ItemAt(s, i);
    }
    FindInNewest(s.items + [a], s.capacity, b);
    IndexAfterAppend(s.items, a, b);
  }

  // ----- Runs -----

  datatype Event =
    | Register(request: Request, now: int)
    | Reject(id: nat, now: int)
    | Attempt(execution: Execution)

  function Step(cfg: Config, s: Exec, e: Event): Exec {
    match e
    case Register(request, now) => s.(store := RegisterOne(s.store, request, now))
    case Reject(id, now) => s.(store := WithStatusSet(s.store, id, Rejected, now))
    case Attempt(execution) => Execute(cfg, s, execution)
  }

  function Run(cfg: Config, s: Exec, events: seq<Event>): Exec {
    if events == [] then s else Step(cfg, Run(cfg, s, events[..|events| - 1]), events[|events| - 1])
  }

  ghost function Begins(e: Event): int {
    if e.Attempt? then e.execution.at.check else e.now
  }

  ghost function Ends(e: Event): int {
    if e.Attempt? then e.execution.at.stamp else e.now
  }

  ghost function LastTime(events: seq<Event>, start: int): int {
    if events == [] then start else Ends(events[|events| - 1])
  }

  /** Events are handled one after another, each reading a clock that has moved on. */
  ghost predicate OneAtATime(events: seq<Event>, start: int) {
    events != [] ==>
      var e := events[|events| - 1];
      && OneAtATime(events[..|events| - 1], start)
      && LastTime(events[..|events| - 1], start) < Begins(e)
      && (e.Attempt? ==> InOrder(e.execution.at))
  }

  ghost function Top(s: Store): nat {
    if s.table == [] then 0 else s.table[|s.table| - 1].id
  }

  ghost predicate Inv(cfg: Config, s: Exec, now: int) {
    && Valid(s.store) && After(s.store, now + 1)
    && (forall a: nat | a > Top(s.store) :: RowsOf(s.rows, a) == [])
    && (forall a: nat :: ActionOk(cfg, s, a, now))
  }

  ghost predicate ActionOk(cfg: Config, s: Exec, a: nat, now: int) {
    HistoryOk(cfg, RowsOf(s.rows, a), StatusOf(s, a), now)
  }

  lemma HistoryOkLater(cfg: Config, h: seq<Row>, status: Option<Status>, now: int, later: int)
    requires HistoryOk(cfg, h, status, now) && now <= later
    ensures HistoryOk(cfg, h, status, later) && HistoryOk(cfg, h, None, later)
    ensures HistoryOk(cfg, h, Some(Rejected), later)
  {
  }

  lemma RegisterKeepsInv(cfg: Config, s: Exec, e: Event, now: int)
    requires Inv(cfg, s, now) && e.Register? && now < e.now
    ensures Inv(cfg, Step(cfg, s, e), e.now)
  {
    forall b: nat ensures ActionOk(cfg, Step(cfg, s, e), b, e.now) {
      assert ActionOk(cfg, s, b, now);
      RegisterOnOneAction(cfg, s, e.request, e.now, now, b);
    }
    RegisterRaisesTop(s.store, e.request, e.now);
  }

  lemma RegisterRaisesTop(s: Store, request: Request, at: int)
    requires Valid(s) && After(s, at)
    ensures var s' := RegisterOne(s, request, at); Valid(s') && After(s', at + 1) && Top(s) <= Top(s')
  {
    if Registrable(s.items, request) {
      AddGrowsTable(s, Raw(request), at);
      assert s.table != [] ==> s.table[|s.table| - 1] in s.table;
    }
  }

  lemma RegisterOnOneAction(cfg: Config, s: Exec, request: Request, at: int, now: int, b: nat)
    requires Valid(s.store) && After(s.store, now + 1) && now < at && ActionOk(cfg, s, b, now)
    requires b > Top(s.store) ==> RowsOf(s.rows, b) == []
    ensures ActionOk(cfg, s.(store := RegisterOne(s.store, request, at)), b, at)
  {
    HistoryOkLater(cfg, RowsOf(s.rows, b), StatusOf(s, b), now, at);
    if Registrable(s.store.items, request) {
      AddGrowsTable(s.store, Raw(request), at);
      FindAfterAdd(s.store, Raw(request), at, b);
      assert s.store.table != [] ==> s.store.table[|s.store.table| - 1] in s.store.table;
    }
  }

  lemma TopKept(s: Store, id: nat, status: Status, now: int)
    requires Valid(s)
    ensures Top(WithStatusSet(s, id, status, now)) == Top(s)
  {
    SetStatusKeepsValid(s, id, status, now);
  }

  lemma RejectKeepsInv(cfg: Config, s: Exec, e: Event, now: int)
    requires Inv(cfg, s, now) && e.Reject? && now < e.now
    ensures Inv(cfg, Step(cfg, s, e), e.now)
  {
    var s' := Step(cfg, s, e);
    TopKept(s.store, e.id, Rejected, e.now);
    SetStatusKeepsValid(s.store, e.id, Rejected, e.now);
    SetStatusKeepsTimes(s.store, e.id, Rejected, e.now, e.now + 1);
    forall b: nat ensures ActionOk(cfg, s', b, e.now) {
      assert ActionOk(cfg, s, b, now);
      RejectOnOneAction(s, e.id, e.now, b);
      HistoryOkLater(cfg, RowsOf(s.rows, b), StatusOf(s, b), now, e.now);
    }
  }

  lemma RejectOnOneAction(s: Exec, id: nat, at: int, b: nat)
    ensures StatusOf(s.(store := WithStatusSet(s.store, id, Rejected, at)), b) in {StatusOf(s, b), Some(Rejected)}
  {
    FindAfterSetStatus(s.store, id, Rejected, at, b);
  }

  lemma StatusAfterExecution(cfg: Config, s: Exec, e: Execution, b: nat)
    requires StatusOf(s, e.actionId).Some?
    ensures StatusOf(Performed(cfg, s, e), b)
         == if b == e.actionId && FinalStatus(e).Some? then FinalStatus(e) else StatusOf(s, b)
  {
    if FinalStatus(e).Some? {
      FindAfterSetStatus(s.store, e.actionId, FinalStatus(e).value, e.at.stamp, b);
    }
  }

  lemma AttemptOnOneAction(cfg: Config, s: Exec, e: Execution, now: int, b: nat)
    requires Inv(cfg, s, now) && now < e.at.check && InOrder(e.at) && Refused(cfg, s, e).None?
    ensures ActionOk(cfg, Performed(cfg, s, e), b, e.at.stamp)
  {
    var h, status := RowsOf(s.rows, b), StatusOf(s, b);
    assert ActionOk(cfg, s, b, now);
    AdmittedBy(cfg, s, e);
    RecordedHistory(cfg, s.rows, e, b);
    StatusAfterExecution(cfg, s, e, b);
    if b == e.actionId {
      ExecutionKeepsHistory(cfg, h, status, e, now);
    } else {
      HistoryOkLater(cfg, h, status, now, e.at.stamp);
    }
  }

  lemma SettlingEarnsTimeouts(cfg: Config, h: seq<Row>, e: Execution, last: int)
    requires TimeoutsEarned(cfg, h) && Timed(h, last) && InOrder(e.at) && last < e.at.check
    ensures TimeoutsEarned(cfg, SettledHistory(cfg, h, e) + [FinalRow(e)])
  {
  }

  lemma ExecutionKeepsHistory(cfg: Config, h: seq<Row>, status: Option<Status>, e: Execution, last: int)
    requires HistoryOk(cfg, h, status, last) && Admitted(cfg, h, e)
    requires status.Some? && !Terminal(status.value) && InOrder(e.at) && last < e.at.check
    ensures HistoryOk(cfg, SettledHistory(cfg, h, e) + [FinalRow(e)],
                      if FinalStatus(e).Some? then FinalStatus(e) else status, e.at.stamp)
  {
    var h' := SettledHistory(cfg, h, e) + [FinalRow(e)];
    ExecutionKeepsGood(cfg, h, status, e, last);
    SettlingEarnsTimeouts(cfg, h, e, last);
    if SensibleBreaker(cfg) && NoneSkipped(h') {
      NoneSkippedBefore(cfg, h, e);
      ExecutionKeepsSpaced(cfg, h, status, e, last);
    }
  }

  lemma NoneSkippedBefore(cfg: Config, h: seq<Row>, e: Execution)
    requires NoneSkipped(SettledHistory(cfg, h, e) + [FinalRow(e)])
    ensures NoneSkipped(h)
  {
    var h' := SettledHistory(cfg, h, e) + [FinalRow(e)];
    forall i | 0 <= i < |h| ensures h[i].status != Skipped {
      assert h'[i].status != Skipped;
    }
  }

  lemma FoundBelowTop(s: Store, id: nat)
    requires Valid(s) && Find(s.items, id).Some?
    ensures id <= Top(s)
  {
    var i := IndexOf(s.items, id);
    var k := i + |s.table| - |s.items|;
    assert s.table[k] == s.items[i];
    assert k < |s.table| - 1 ==> s.table[k].id < s.table[|s.table| - 1].id;
  }

  lemma PerformedKeepsInv(cfg: Config, s: Exec, e: Execution, now: int)
    requires Inv(cfg, s, now) && now < e.at.check && InOrder(e.at) && Refused(cfg, s, e).None?
    ensures Inv(cfg, Performed(cfg, s, e), e.at.stamp)
  {
    var s' := Performed(cfg, s, e);
    forall b: nat ensures ActionOk(cfg, s', b, e.at.stamp) {
      AttemptOnOneAction(cfg, s, e, now, b);
    }
    AdmittedBy(cfg, s, e);
    FoundBelowTop(s.store, e.actionId);
    if FinalStatus(e).Some? {
      TopKept(s.store, e.actionId, FinalStatus(e).value, e.at.stamp);
      SetStatusKeepsValid(s.store, e.actionId, FinalStatus(e).value, e.at.stamp);
      SetStatusKeepsTimes(s.store, e.actionId, FinalStatus(e).value, e.at.stamp, e.at.stamp + 1);
    }
    forall b: nat | b > Top(s'.store) ensures RowsOf(s'.rows, b) == [] {
      RecordedHistory(cfg, s.rows, e, b);
    }
  }

  lemma AttemptKeepsInv(cfg: Config, s: Exec, e: Execution, now: int)
    requires Inv(cfg, s, now) && now < e.at.check && InOrder(e.at)
    ensures Inv(cfg, Execute(cfg, s, e), e.at.stamp)
  {
    if Refused(cfg, s, e).None? {
      PerformedKeepsInv(cfg, s, e, now);
    } else {
      assert Execute(cfg, s, e) == s && After(s.store, e.at.stamp + 1);
      forall b: nat ensures ActionOk(cfg, s, b, e.at.stamp) {
        assert ActionOk(cfg, s, b, now);
        HistoryOkLater(cfg, RowsOf(s.rows, b), StatusOf(s, b), now, e.at.stamp);
      }
    }
  }

  lemma StepKeepsInv(cfg: Config, s: Exec, e: Event, now: int)
    requires Inv(cfg, s, now) && now < Begins(e) && (e.Attempt? ==> InOrder(e.execution.at))
    ensures Inv(cfg, Step(cfg, s, e), Ends(e))
  {
    match e
    case Register(_, _) => RegisterKeepsInv(cfg, s, e, now);
    case Reject(_, _) => RejectKeepsInv(cfg, s, e, now);
    case Attempt(x) => AttemptKeepsInv(cfg, s, x, now);
  }

  function Fresh(capacity: nat): Exec {
    Exec(Store([], [], capacity), [])
  }

  lemma {:induction false} RunKeepsInv(cfg: Config, capacity: nat, events: seq<Event>, start: int)
    requires capacity >= 1 && OneAtATime(events, start)
    ensures Inv(cfg, Run(cfg, Fresh(capacity), events), LastTime(events, start))
  {
    if events != [] {
      RunKeepsInv(cfg, capacity, events[..|events| - 1], start);
      StepKeepsInv(cfg, Run(cfg, Fresh(capacity), events[..|events| - 1]), events[|events| - 1],
                   LastTime(events[..|events| - 1], start));
    }
  }

  // ----- The main results -----

  /** In every reachable state, per action: only the newest execution may be running; a success is
      the newest execution, so there is at most one; an executed action ended in a success. */
  lemma ExecutionsAreSafe(cfg: Config, capacity: nat, events: seq<Event>, start: int, a: nat)
    requires capacity >= 1 && OneAtATime(events, start)
    ensures var s := Run(cfg, Fresh(capacity), events);
            var h, status := RowsOf(s.rows, a), StatusOf(s, a);
            && (forall i | 0 <= i < |h| && h[i].status in {Running, Success, Failure} :: i == |h| - 1)
            && (forall i, j | 0 <= i < |h| && 0 <= j < |h| && h[i].status == h[j].status == Success :: i == j)
            && (status in {Some(Executed), Some(AutoExecuted)} ==> h != [] && h[|h| - 1].status == Success)
            && (status == Some(Failed) ==> h != [] && h[|h| - 1].status == Failure)
            && (forall i | 0 <= i < |h| && h[i].status == FailedTimeout ::
                  h[i].finishedAt.Some? && h[i].finishedAt.value - h[i].startedAt >= LeastDelay(cfg))
  {
    RunKeepsInv(cfg, capacity, events, start);
    var s := Run(cfg, Fresh(capacity), events);
    assert ActionOk(cfg, s, a, LastTime(events, start));
    GoodMeansSafe(RowsOf(s.rows, a), StatusOf(s, a));
  }

  lemma GoodMeansSafe(h: seq<Row>, status: Option<Status>)
    requires GoodHistory(h, status)
    ensures forall i | 0 <= i < |h| && h[i].status in {Running, Success, Failure} :: i == |h| - 1
    ensures forall i, j | 0 <= i < |h| && 0 <= j < |h| && h[i].status == h[j].status == Success :: i == j
  {
    forall i | 0 <= i < |h| && h[i].status in {Running, Success, Failure} ensures i == |h| - 1 {
    }
  }

  ghost predicate Over(s: Exec, a: nat) {
    1 <= a <= Top(s.store) && (StatusOf(s, a).None? || Terminal(StatusOf(s, a).value))
  }

  lemma StepKeepsOver(cfg: Config, s: Exec, e: Event, now: int, a: nat)
    requires Inv(cfg, s, now) && now < Begins(e) && (e.Attempt? ==> InOrder(e.execution.at)) && Over(s, a)
    ensures Over(Step(cfg, s, e), a) && RowsOf(Step(cfg, s, e).rows, a) == RowsOf(s.rows, a)
  {
    match e
    case Register(request, at) =>
      if Registrable(s.store.items, request) {
        AddGrowsTable(s.store, Raw(request), at);
        FindAfterAdd(s.store, Raw(request), at, a);
        assert s.store.table[|s.store.table| - 1] in s.store.table;
      }
    case Reject(id, at) =>
      TopKept(s.store, id, Rejected, at);
      FindAfterSetStatus(s.store, id, Rejected, at, a);
    case Attempt(x) => AttemptKeepsOver(cfg, s, x, a);
  }

  lemma AttemptKeepsOver(cfg: Config, s: Exec, e: Execution, a: nat)
    requires Valid(s.store) && Over(s, a)
    ensures Over(Execute(cfg, s, e), a) && RowsOf(Execute(cfg, s, e).rows, a) == RowsOf(s.rows, a)
  {
    ExecuteOnHistories(cfg, s, e, a);
    if Refused(cfg, s, e).None? {
      AdmittedBy(cfg, s, e);
      StatusAfterExecution(cfg, s, e, a);
      if FinalStatus(e).Some? {
        TopKept(s.store, e.actionId, FinalStatus(e).value, e.at.stamp);
      }
    }
  }

  /** Once an action is failed, rejected, completed or evicted, no later event ever executes it again. */
  lemma {:induction false} OverMeansNoMoreExecutions(cfg: Config, s: Exec, now: int, events: seq<Event>, a: nat)
    requires Inv(cfg, s, now) && OneAtATime(events, now) && Over(s, a)
    ensures RowsOf(Run(cfg, s, events).rows, a) == RowsOf(s.rows, a)
    ensures Over(Run(cfg, s, events), a) && Inv(cfg, Run(cfg, s, events), LastTime(events, now))
  {
    if events != [] {
      var before, e := Run(cfg, s, events[..|events| - 1]), events[|events| - 1];
      OverMeansNoMoreExecutions(cfg, s, now, events[..|events| - 1], a);
      StepKeepsOver(cfg, before, e, LastTime(events[..|events| - 1], now), a);
      StepKeepsInv(cfg, before, e, LastTime(events[..|events| - 1], now));
    }
  }

  /** An action whose risk needs approval gains an execution only from an approved event. */
  lemma NoUnapprovedExecution(cfg: Config, s: Exec, e: Event, a: nat)
    requires RowsOf(Step(cfg, s, e).rows, a) != RowsOf(s.rows, a)
    ensures e.Attempt? && e.execution.actionId == a && Find(s.store.items, a).Some?
    ensures var action, flag := Find(s.store.items, a).value, e.execution.approvedFlag;
            && action.status in {Pending, Executed, AutoExecuted}
            && (cfg.minRisk.Some? && RiskRank(action.risk) >= RiskRank(cfg.minRisk.value) ==>
                  flag == Some(true)
                  || (flag.None? && (e.execution.autoExecuted || action.status == AutoExecuted)))
  {
    ExecutedMeansAdmitted(cfg, s, e, a);
    AdmittedIsApproved(cfg, s, e.execution);
  }

  lemma ExecutedMeansAdmitted(cfg: Config, s: Exec, e: Event, a: nat)
    requires RowsOf(Step(cfg, s, e).rows, a) != RowsOf(s.rows, a)
    ensures e.Attempt? && e.execution.actionId == a && Refused(cfg, s, e.execution).None?
  {
    if e.Attempt? {
      ExecuteOnHistories(cfg, s, e.execution, a);
    }
  }

  lemma AdmittedIsApproved(cfg: Config, s: Exec, e: Execution)
    requires Refused(cfg, s, e).None?
    ensures Find(s.store.items, e.actionId).Some?
    ensures var action := Find(s.store.items, e.actionId).value;
            && action.status in {Pending, Executed, AutoExecuted}
            && (cfg.minRisk.Some? && RiskRank(action.risk) >= RiskRank(cfg.minRisk.value) ==>
                  e.approvedFlag == Some(true)
                  || (e.approvedFlag.None? && (e.autoExecuted || action.status == AutoExecuted)))
  {
    GatedIsApproved(cfg, s, e);
  }

  lemma GatedIsApproved(cfg: Config, s: Exec, e: Execution)
    requires Gated(cfg, s, e).None?
    ensures Find(s.store.items, e.actionId).Some?
    ensures var action := Find(s.store.items, e.actionId).value;
            !Terminal(action.status) && (ApprovalNeeded(cfg, action) ==> Approved(action, e))
  {
  }

  /** An admitted attempt adds one execution, whose status says how it ended: success for a non-empty
      output with no status or an accepted one, failure for every other output and for an exception. */
  lemma OutcomeIsRecorded(cfg: Config, s: Exec, e: Execution)
    requires Refused(cfg, s, e).None?
    ensures var h, h' := RowsOf(s.rows, e.actionId), RowsOf(Execute(cfg, s, e).rows, e.actionId);
            && |h'| == |h| + 1
            && var last := h'[|h|];
            && last.actionId == e.actionId && last.startedAt == e.at.start
            && last.finishedAt == (if last.status == Running then None else Some(e.at.finish))
            && (last.status == Skipped <==> !e.hasExecutor)
            && (last.status == Running <==> e.hasExecutor && e.outcome == Lost)
            && (last.status == Success <==>
                  e.hasExecutor && e.outcome.Returned? && !e.outcome.empty
                  && e.outcome.status in ["", "success", "ok", "queued", "done"])
            && (last.status == Failure <==>
                  e.hasExecutor
                  && (e.outcome == Raised
                      || (e.outcome.Returned?
                          && (e.outcome.empty || e.outcome.status !in ["", "success", "ok", "queued", "done"]))))
  {
    NewestIsFinal(cfg, s, e);
  }

  lemma NewestIsFinal(cfg: Config, s: Exec, e: Execution)
    requires Refused(cfg, s, e).None?
    ensures var h, h' := RowsOf(s.rows, e.actionId), RowsOf(Execute(cfg, s, e).rows, e.actionId);
            |h'| == |h| + 1 && h'[|h|] == FinalRow(e)
  {
    RecordedHistory(cfg, s.rows, e, e.actionId);
  }

  lemma StatusGoesWithRow(e: Execution)
    ensures FinalStatus(e) == match FinalRow(e).status
                              case Success => Some(if e.autoExecuted then AutoExecuted else Executed)
                              case Failure => Some(Failed)
                              case _ => None
  {
  }

  lemma ActionTakesStatus(cfg: Config, s: Exec, e: Execution, b: nat)
    requires Refused(cfg, s, e).None?
    ensures Find(Execute(cfg, s, e).store.items, b) ==
              var before := Find(s.store.items, b);
              if b == e.actionId && FinalStatus(e).Some? && before.Some?
              then Some(WithStatus(before.value, FinalStatus(e).value, e.at.stamp)) else before
  {
    if FinalStatus(e).Some? {
      FindAfterSetStatus(s.store, e.actionId, FinalStatus(e).value, e.at.stamp, b);
    }
  }

  /** The action is executed, failed or left alone exactly as its newest execution ended. */
  lemma ActionFollowsOutcome(cfg: Config, s: Exec, e: Execution)
    requires Refused(cfg, s, e).None?
    ensures var s' := Execute(cfg, s, e);
            var h, before := RowsOf(s'.rows, e.actionId), Find(s.store.items, e.actionId);
            && h != [] && before.Some?
            && Find(s'.store.items, e.actionId) ==
                 match h[|h| - 1].status
                 case Success =>
                   Some(before.value.(status := if e.autoExecuted then AutoExecuted else Executed,
                                      executedAt := Some(e.at.stamp)))
                 case Failure => Some(before.value.(status := Failed))
                 case _ => before
  {
    AdmittedIsApproved(cfg, s, e);
    NewestIsFinal(cfg, s, e);
    StatusGoesWithRow(e);
    ActionTakesStatus(cfg, s, e, e.actionId);
  }

  /** Of the earlier executions only a running one changes: it is timed out. */
  lemma EarlierExecutionsStay(cfg: Config, s: Exec, e: Execution, i: nat)
    requires Refused(cfg, s, e).None? && i < |RowsOf(s.rows, e.actionId)|
    requires i < |RowsOf(s.rows, e.actionId)| - 1 ==> RowsOf(s.rows, e.actionId)[i].status != Running
    ensures var h, h' := RowsOf(s.rows, e.actionId), RowsOf(Execute(cfg, s, e).rows, e.actionId);
            i < |h'| && h'[i] == if h[i].status == Running
                                 then h[i].(status := FailedTimeout, finishedAt := Some(e.at.timedOut)) else h[i]
  {
    ExecuteOnHistories(cfg, s, e, e.actionId);
    AdmittedBy(cfg, s, e);
    SettledAt(cfg, RowsOf(s.rows, e.actionId), e, i);
  }

  lemma SettledAt(cfg: Config, h: seq<Row>, e: Execution, i: nat)
    requires i < |h| && Admitted(cfg, h, e) && (i < |h| - 1 ==> h[i].status != Running)
    ensures SettledHistory(cfg, h, e)[i] == if h[i].status == Running
              then h[i].(status := FailedTimeout, finishedAt := Some(e.at.timedOut)) else h[i]
  {
  }

  /** No other action, and no other history, changes. */
  lemma OthersUnaffected(cfg: Config, s: Exec, e: Execution, b: nat)
    requires b != e.actionId
    ensures RowsOf(Execute(cfg, s, e).rows, b) == RowsOf(s.rows, b)
    ensures Find(Execute(cfg, s, e).store.items, b) == Find(s.store.items, b)
  {
    ExecuteOnHistories(cfg, s, e, b);
    if Refused(cfg, s, e).None? {
      ActionTakesStatus(cfg, s, e, b);
    }
  }

  // ----- When an attempt is admitted -----

  /** A recent failure or timeout among the newest `n` rows. */
  function RecentFailureIndices(h: seq<Row>, n: nat, now: int, window: int): set<nat> {
    set i: nat | |h| - n <= i < |h| && h[i].status in {Failure, FailedTimeout}
                 && h[i].finishedAt.Some? && now - window <= h[i].finishedAt.value <= now
  }

  lemma {:induction false} FailuresAreCounted(h: seq<Row>, k: nat, now: int, window: int)
    requires k <= |h|
    ensures RecentFailures(h[k..], now, window) == |RecentFailureIndices(h, |h| - k, now, window)|
    decreases |h| - k
  {
    var these := RecentFailureIndices(h, |h| - k, now, window);
    if k == |h| {
      assert these == {};
    } else {
      FailuresAreCounted(h, k + 1, now, window);
      var later := RecentFailureIndices(h, |h| - k - 1, now, window);
      assert h[k..][1..] == h[k + 1..];
      assert these == if RecentFailure(h[k], now, window) then later + {k} else later;
    }
  }

  /** The breaker is open exactly when as many of the newest rows (three times the threshold, at least
      five and at most five hundred) failed recently as the threshold, or one if it is lower. */
  lemma BreakerOpenIff(cfg: Config, h: seq<Row>, now: int)
    ensures BreakerOpen(cfg, h, now)
       <==> |RecentFailureIndices(h, Min(Max(5, 3 * cfg.threshold), 500), now, cfg.window)| >= Max(cfg.threshold, 1)
  {
    var n := Min(Max(5, 3 * cfg.threshold), 500);
    var k := if |h| <= n then 0 else |h| - n;
    FailuresAreCounted(h, k, now, cfg.window);
    assert h[k..] == Newest(h, n);
    assert RecentFailureIndices(h, n, now, cfg.window) == RecentFailureIndices(h, |h| - k, now, cfg.window);
  }

  ghost predicate OnlySpace(text: string) {
    forall i | 0 <= i < |text| :: IsSpace(text[i])
  }

  lemma PayloadIff(a: Action)
    ensures MinimumPayload(a) <==> !OnlySpace(a.target) && !OnlySpace(a.reasoning)
  {
    StripEmptyIff(a.target);
    StripEmptyIff(a.reasoning);
  }

  /** The risks that need approval under these settings. */
  function RisksToApprove(cfg: Config): set<Risk> {
    match cfg.minRisk
    case None => {}
    case Some(r) => if r == Low then {Low, Medium, High} else if r == Medium then {Medium, High} else {High}
  }

  /** The event's own word decides; without one, automatic execution counts as approval. */
  lemma ApprovalIff(cfg: Config, a: Action, e: Execution)
    ensures ApprovalNeeded(cfg, a) && !Approved(a, e)
       <==> a.risk in RisksToApprove(cfg) && e.approvedFlag != Some(true)
            && (e.approvedFlag == Some(false) || (!e.autoExecuted && a.status != AutoExecuted))
  {
  }

  /** Why an attempt is refused by the action or the breaker: the first reason that applies. */
  lemma GatedBecause(cfg: Config, s: Exec, e: Execution, a: Action)
    requires Find(s.store.items, e.actionId) == Some(a)
    ensures var failures := RecentFailureIndices(RowsOf(s.rows, e.actionId), Min(Max(5, 3 * cfg.threshold), 500),
                                                 e.at.check, cfg.window);
            Gated(cfg, s, e) ==
              if OnlySpace(a.target) || OnlySpace(a.reasoning) then Some(InvalidPayload)
              else if a.status in {Completed, Failed, Rejected} then Some(TerminalStatus)
              else if a.risk in RisksToApprove(cfg) && e.approvedFlag != Some(true)
                      && (e.approvedFlag == Some(false) || (!e.autoExecuted && a.status != AutoExecuted))
                   then Some(ApprovalRequired)
              else if |failures| >= Max(cfg.threshold, 1) then Some(CircuitBreakerOpen)
              else None
  {
    BreakerOpenIff(cfg, RowsOf(s.rows, e.actionId), e.at.check);
    PayloadIff(a);
    ApprovalIff(cfg, a, e);
  }

  /** Why it is refused by the newest execution: a success stays, and an open one must first have run
      for the whole timeout; a queued one never gives way. */
  lemma BlockedBecause(cfg: Config, rows: seq<Row>, e: Execution)
    ensures var h := RowsOf(rows, e.actionId);
            Blocked(cfg, rows, e) ==
              if h == [] then None
              else match h[|h| - 1].status
                   case Success => Some(AlreadySuccess)
                   case Running => if e.at.stale - h[|h| - 1].startedAt >= cfg.timeout then None else Some(AlreadyRunning)
                   case Queued => Some(AlreadyRunning)
                   case _ => None
  {
    NewestRow(rows, e.actionId);
  }

  /** The gates are open exactly when the action is known, has text in its payload, is neither completed,
      failed nor rejected, needs no approval or has it, and the breaker is closed. */
  lemma GatesOpenIff(cfg: Config, s: Exec, e: Execution)
    ensures var found := Find(s.store.items, e.actionId);
            var failures := RecentFailureIndices(RowsOf(s.rows, e.actionId), Min(Max(5, 3 * cfg.threshold), 500),
                                                 e.at.check, cfg.window);
            Gated(cfg, s, e) == None <==>
              && found.Some?
              && !OnlySpace(found.value.target) && !OnlySpace(found.value.reasoning)
              && found.value.status !in {Completed, Failed, Rejected}
              && (found.value.risk in RisksToApprove(cfg) ==>
                    e.approvedFlag == Some(true)
                    || (e.approvedFlag == None && (e.autoExecuted || found.value.status == AutoExecuted)))
              && |failures| < Max(cfg.threshold, 1)
  {
    var found := Find(s.store.items, e.actionId);
    if found.Some? {
      GatedBecause(cfg, s, e, found.value);
    }
  }

  /** Nothing blocks exactly when the newest execution, if any, neither succeeded nor is still in its time. */
  lemma NotBlockedIff(cfg: Config, rows: seq<Row>, e: Execution)
    ensures var h := RowsOf(rows, e.actionId);
            Blocked(cfg, rows, e) == None <==>
              h != [] ==>
                var last := h[|h| - 1];
                last.status in {Failure, FailedTimeout, Skipped}
                || (last.status == Running && e.at.stale - last.startedAt >= cfg.timeout)
  {
    BlockedBecause(cfg, rows, e);
  }

  /** The action and the breaker are read before the newest execution. */
  lemma FirstRefusal(cfg: Config, s: Exec, e: Execution)
    ensures Find(s.store.items, e.actionId) == None ==> Refused(cfg, s, e) == Some(NoAction)
    ensures Gated(cfg, s, e) != None ==> Refused(cfg, s, e) == Gated(cfg, s, e)
    ensures Gated(cfg, s, e) == None ==> Refused(cfg, s, e) == Blocked(cfg, s.rows, e)
    ensures Refused(cfg, s, e) == None <==> Gated(cfg, s, e) == None && Blocked(cfg, s.rows, e) == None
    ensures Refused(cfg, s, e) != None ==> Execute(cfg, s, e) == s
  {
  }

  lemma NewestRow(rows: seq<Row>, a: nat)
    ensures var h, k := RowsOf(rows, a), LatestIndex(rows, a);
            if h == [] then k == None else k.Some? && rows[k.value] == h[|h| - 1]
  {
    var k := LatestIndex(rows, a);
    if k.None? {
      NoRowsOf(rows, a);
    } else {
      UpdateLatest(rows, k.value, rows[k.value], a);
    }
  }

  /** Every attempt at this action finds an executor for its type. */
  ghost predicate AlwaysExecutable(events: seq<Event>, a: nat) {
    forall e | e in events && e.Attempt? && e.execution.actionId == a :: e.execution.hasExecutor
  }

  lemma {:induction false} ExecutableMeansNoneSkipped(cfg: Config, capacity: nat, events: seq<Event>, a: nat)
    requires AlwaysExecutable(events, a)
    ensures NoneSkipped(RowsOf(Run(cfg, Fresh(capacity), events).rows, a))
  {
    if events != [] {
      var before, e := Run(cfg, Fresh(capacity), events[..|events| - 1]), events[|events| - 1];
      assert e in events;
      ExecutableMeansNoneSkipped(cfg, capacity, events[..|events| - 1], a);
      if e.Attempt? {
        AttemptSkipsNothing(cfg, before, e.execution, a);
      }
    }
  }

  lemma AttemptSkipsNothing(cfg: Config, s: Exec, e: Execution, a: nat)
    requires NoneSkipped(RowsOf(s.rows, a)) && (e.actionId == a ==> e.hasExecutor)
    ensures NoneSkipped(RowsOf(Execute(cfg, s, e).rows, a))
  {
    ExecuteOnHistories(cfg, s, e, a);
    if a == e.actionId {
      ExecutedNotSkipped(cfg, RowsOf(s.rows, a), e);
    }
  }

  lemma ExecutedNotSkipped(cfg: Config, h: seq<Row>, e: Execution)
    requires NoneSkipped(h) && e.hasExecutor
    ensures NoneSkipped(SettledHistory(cfg, h, e) + [FinalRow(e)])
  {
  }

  /** In every reachable state the bounded lookback decides the breaker as a full scan would. */
  lemma LookbackExactOverRuns(cfg: Config, capacity: nat, events: seq<Event>, start: int, a: nat, now: int)
    requires capacity >= 1 && OneAtATime(events, start) && AlwaysExecutable(events, a)
    requires SensibleBreaker(cfg) && LastTime(events, start) <= now
    ensures var h := RowsOf(Run(cfg, Fresh(capacity), events).rows, a);
            BreakerOpen(cfg, h, now) <==> RecentFailures(h, now, cfg.window) >= cfg.threshold
  {
    RunKeepsInv(cfg, capacity, events, start);
    ExecutableMeansNoneSkipped(cfg, capacity, events, a);
    var s := Run(cfg, Fresh(capacity), events);
    assert ActionOk(cfg, s, a, LastTime(events, start));
    LookbackIsExact(cfg, RowsOf(s.rows, a), StatusOf(s, a), LastTime(events, start), now);
  }
}
