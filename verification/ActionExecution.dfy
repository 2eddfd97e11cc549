// Executing one strategy action: the gates, the execution log and the circuit breaker.
module ActionExecution {
  import opened Common
  import opened Text
  import opened StrategyActions

  // ----- The execution log -----

  datatype RowStatus = Queued | Running | Success | Failure | FailedTimeout | Skipped

  /** A row's id is its position in the table plus one: rows are never deleted. */
  datatype Row = Row(actionId: nat, status: RowStatus, startedAt: int, finishedAt: Option<int>)

  /** All executions of one action, oldest first. */
  function RowsOf(rows: seq<Row>, a: nat): seq<Row> {
    if rows == [] then []
    else RowsOf(rows[..|rows| - 1], a) + if rows[|rows| - 1].actionId == a then [rows[|rows| - 1]] else []
  }

  /** The position of the action's newest execution. */
  function LatestIndex(rows: seq<Row>, a: nat): (k: Option<nat>)
    ensures k.Some? ==> k.value < |rows| && rows[k.value].actionId == a
    ensures k.Some? ==> forall j | k.value < j < |rows| :: rows[j].actionId != a
    ensures k.None? ==> forall r | r in rows :: r.actionId != a
  {
    if rows == [] then None
    else if rows[|rows| - 1].actionId == a then Some(|rows| - 1)
    else
      assert rows == rows[..|rows| - 1] + [rows[|rows| - 1]];
      LatestIndex(rows[..|rows| - 1], a)
  }

  // ----- Settings and events -----

  /** `minRisk` is the lowest risk that needs approval, if any does. */
  datatype Config = Config(threshold: int, window: int, timeout: int, minRisk: Option<Risk>)

  /** `Lost` is an executor that never returned: the process died with the row still running.  An output
      is empty or not, and its status is text, stripped and in lower case, "" if there is none. */
  datatype Outcome = Lost | Raised | Returned(status: string, empty: bool)

  /** The clock readings of one event, in program order. */
  datatype Times = Times(check: int, stale: int, timedOut: int, start: int, finish: int, stamp: int)

  datatype Execution = Execution(
    actionId: nat,
    approvedFlag: Option<bool>,
    autoExecuted: bool,
    hasExecutor: bool,
    outcome: Outcome,
    at: Times)

  datatype Refusal =
    | NoAction | InvalidPayload | TerminalStatus | ApprovalRequired
    | CircuitBreakerOpen | AlreadySuccess | AlreadyRunning

  datatype Exec = Exec(store: Store, rows: seq<Row>)

  // ----- The gates -----

  function RiskRank(r: Risk): nat {
    match r case Low => 1 case Medium => 2 case High => 3
  }

  predicate ApprovalNeeded(cfg: Config, a: Action) {
    cfg.minRisk.Some? && RiskRank(a.risk) >= RiskRank(cfg.minRisk.value)
  }

  predicate Approved(a: Action, e: Execution) {
    if e.approvedFlag.Some? then e.approvedFlag.value
    else e.autoExecuted || a.status == AutoExecuted
  }

  predicate MinimumPayload(a: Action) {
    Strip(a.target) != "" && Strip(a.reasoning) != ""
  }

  predicate Terminal(s: Status) {
    s == Completed || s == Failed || s == Rejected
  }

  predicate RecentFailure(r: Row, now: int, window: int) {
    && (r.status == Failure || r.status == FailedTimeout)
    && r.finishedAt.Some? && 0 <= now - r.finishedAt.value <= window
  }

  function RecentFailures(rows: seq<Row>, now: int, window: int): nat {
    if rows == [] then 0
    else RecentFailures(rows[1..], now, window) + if RecentFailure(rows[0], now, window) then 1 else 0
  }

  /** How many of the newest rows the breaker looks at. */
  function Lookback(threshold: int): nat {
    Max(1, Min(Max(5, threshold * 3), 500))
  }

  predicate BreakerOpen(cfg: Config, executions: seq<Row>, now: int) {
    RecentFailures(Newest(executions, Lookback(cfg.threshold)), now, cfg.window) >= Max(cfg.threshold, 1)
  }

  predicate Stale(cfg: Config, r: Row, e: Execution) {
    r.status == Running && e.at.stale - r.startedAt >= cfg.timeout
  }

  /** The gates that read the action and the breaker. */
  function Gated(cfg: Config, s: Exec, e: Execution): Option<Refusal> {
    var found := Find(s.store.items, e.actionId);
    if found.None? then Some(NoAction)
    else if !MinimumPayload(found.value) then Some(InvalidPayload)
    else if Terminal(found.value.status) then Some(TerminalStatus)
    else if ApprovalNeeded(cfg, found.value) && !Approved(found.value, e) then Some(ApprovalRequired)
    else if BreakerOpen(cfg, RowsOf(s.rows, e.actionId), e.at.check) then Some(CircuitBreakerOpen)
    else None
  }

  /** The gates that read the newest execution. */
  function Blocked(cfg: Config, rows: seq<Row>, e: Execution): Option<Refusal> {
    var latest := LatestIndex(rows, e.actionId);
    if latest.None? then None
    else
      var r := rows[latest.value];
      if r.status == Success then Some(AlreadySuccess)
      else if (r.status == Queued || r.status == Running) && !Stale(cfg, r, e) then Some(AlreadyRunning)
      else None
  }

  function Refused(cfg: Config, s: Exec, e: Execution): Option<Refusal> {
    var gated := Gated(cfg, s, e);
    if gated.Some? then gated else Blocked(cfg, s.rows, e)
  }

  // ----- The effect of one event -----

  predicate Verified(o: Outcome) {
    o.Returned? && !o.empty && o.status in ["", "success", "ok", "queued", "done"]
  }

  /** The log after a stale running row has been timed out. */
  function Settled(cfg: Config, rows: seq<Row>, e: Execution): seq<Row> {
    var latest := LatestIndex(rows, e.actionId);
    if latest.Some? && Stale(cfg, rows[latest.value], e)
    then rows[latest.value := rows[latest.value].(status := FailedTimeout, finishedAt := Some(e.at.timedOut))]
    else rows
  }

  function FinalRow(e: Execution): Row {
    var status := if !e.hasExecutor then Skipped
                  else if e.outcome == Lost then Running
                  else if Verified(e.outcome) then Success
                  else Failure;
    Row(e.actionId, status, e.at.start, if status == Running then None else Some(e.at.finish))
  }

  function FinalStatus(e: Execution): Option<Status> {
    if !e.hasExecutor || e.outcome == Lost then None
    else if Verified(e.outcome) then Some(if e.autoExecuted then AutoExecuted else Executed)
    else Some(Failed)
  }

  /** What an admitted execution leaves behind. */
  function Performed(cfg: Config, s: Exec, e: Execution): Exec {
    var status := FinalStatus(e);
    Exec(if status.Some? then WithStatusSet(s.store, e.actionId, status.value, e.at.stamp) else s.store,
         Settled(cfg, s.rows, e) + [FinalRow(e)])
  }

  function Execute(cfg: Config, s: Exec, e: Execution): Exec {
    if Refused(cfg, s, e).Some? then s else Performed(cfg, s, e)
  }

  // ----- The stores and the handler -----

  class ActionExecutionStore {
    var rows: seq<Row>

    constructor ()
      ensures rows == []
    {
      rows := [];
    }

    /** Inserts a running row unless the newest one is still open. */
    method TryStartExecution(actionId: nat, now: int) returns (started: bool)
      modifies this
      ensures started <==>
                var k := LatestIndex(old(rows), actionId);
                k.None? || (old(rows)[k.value].status != Queued && old(rows)[k.value].status != Running)
      ensures rows == if started then old(rows) + [Row(actionId, Running, now, None)] else old(rows)
    {
      var k := LatestIndex(rows, actionId);
      if k.Some? && (rows[k.value].status == Queued || rows[k.value].status == Running) {
        return false;
      }
      rows := rows + [Row(actionId, Queued, now, None)];
      rows := rows[|rows| - 1 := rows[|rows| - 1].(status := Running)];
      started := true;
    }

    method Complete(index: nat, status: RowStatus, now: int)
      requires index < |rows|
      modifies this
      ensures rows == old(rows)[index := old(rows)[index].(status := status, finishedAt := Some(now))]
    {
      rows := rows[index := rows[index].(status := status, finishedAt := Some(now))];
    }

    /** Only executions of the action; the end of its history; cut short only by the clamped limit. */
    method ListForAction(actionId: nat, limit: int) returns (recent: seq<Row>)
      ensures AreNewest(recent, RowsOf(rows, actionId), Max(1, Min(limit, 500)))
      ensures forall r | r in recent :: r in rows && r.actionId == actionId
      ensures |recent| < Max(1, Min(limit, 500)) ==> forall r | r in rows && r.actionId == actionId :: r in recent
    {
      RowsBelong(rows, actionId);
      var all, most := RowsOf(rows, actionId), Max(1, Min(limit, 500));
      recent := if |all| <= most then all else all[|all| - most..];
    }
  }

  class StrategyHandler {
    const actions: StrategyActionStore
    const executions: ActionExecutionStore
    const cfg: Config

    constructor (actions: StrategyActionStore, executions: ActionExecutionStore, cfg: Config)
      ensures this.actions == actions && this.executions == executions && this.cfg == cfg
    {
      this.actions, this.executions, this.cfg := actions, executions, cfg;
    }

    ghost function State(): Exec
      reads actions, executions
    {
      Exec(actions.State(), executions.rows)
    }

    /** Scans the newest rows and stops at the threshold. */
    method ShouldOpenCircuitBreaker(actionId: nat, now: int) returns (open: bool)
      ensures open <==> BreakerOpen(cfg, RowsOf(executions.rows, actionId), now)
    {
      var recent := executions.ListForAction(actionId, Max(5, cfg.threshold * 3));
      assert recent == Newest(RowsOf(executions.rows, actionId), Lookback(cfg.threshold));
      open := CountsUpTo(recent, now);
    }

    method CountsUpTo(recent: seq<Row>, now: int) returns (open: bool)
      ensures open <==> RecentFailures(recent, now, cfg.window) >= Max(cfg.threshold, 1)
    {
      var failures := 0;
      var i := |recent|;
      while i > 0
        invariant 0 <= i <= |recent|
        invariant failures == RecentFailures(recent[i..], now, cfg.window) < Max(cfg.threshold, 1)
      {
        i := i - 1;
        assert recent[i..][1..] == recent[i + 1..];
        if RecentFailure(recent[i], now, cfg.window) {
          failures := failures + 1;
          if failures >= cfg.threshold {
            SuffixCounts(recent, i, now, cfg.window);
            return true;
          }
        }
      }
      assert recent[0..] == recent;
      open := false;
    }

    method CheckGates(e: Execution) returns (refusal: Option<Refusal>)
      ensures refusal == Gated(cfg, State(), e)
    {
      var index := actions.FindIndex(e.actionId);
      if index == |actions.items| {
        return Some(NoAction);
      }
      var action := actions.items[index];
      if !MinimumPayload(action) {
        return Some(InvalidPayload);
      }
      if Terminal(action.status) {
        return Some(TerminalStatus);
      }
      if ApprovalNeeded(cfg, action) && !Approved(action, e) {
        return Some(ApprovalRequired);
      }
      var open := ShouldOpenCircuitBreaker(e.actionId, e.at.check);
      refusal := if open then Some(CircuitBreakerOpen) else None;
    }

    /** Times out a stale execution, then opens a new one unless the newest is still open. */
    method StartExecution(e: Execution) returns (refusal: Option<Refusal>)
      modifies executions
      ensures refusal == Blocked(cfg, old(executions.rows), e)
      ensures executions.rows == if refusal.Some? then old(executions.rows)
                else Settled(cfg, old(executions.rows), e) + [Row(e.actionId, Running, e.at.start, None)]
    {
      var latest := LatestIndex(executions.rows, e.actionId);
      if latest.Some? {
        var row := executions.rows[latest.value];
        if row.status == Success {
          return Some(AlreadySuccess);
        }
        if Stale(cfg, row, e) {
          executions.Complete(latest.value, FailedTimeout, e.at.timedOut);
          LatestIndexKept(old(executions.rows), e.actionId, executions.rows);
        }
      }
      var started := executions.TryStartExecution(e.actionId, e.at.start);
      refusal := if started then None else Some(AlreadyRunning);
    }

    method ExecuteStrategyAction(e: Execution) returns (refusal: Option<Refusal>)
      modifies actions, executions
      ensures State() == Execute(cfg, old(State()), e)
      ensures refusal == Refused(cfg, old(State()), e)
    {
      refusal := CheckGates(e);
      if refusal.Some? {
        return;
      }
      refusal := StartExecution(e);
      if refusal.None? {
        RecordOutcome(e);
      }
    }

    /** What follows the insertion of the running row. */
    method RecordOutcome(e: Execution)
      requires executions.rows != []
      requires executions.rows[|executions.rows| - 1] == Row(e.actionId, Running, e.at.start, None)
      modifies actions, executions
      ensures executions.rows == old(executions.rows)[..|old(executions.rows)| - 1] + [FinalRow(e)]
      ensures actions.State() == if FinalStatus(e).None? then old(actions.State())
                else WithStatusSet(old(actions.State()), e.actionId, FinalStatus(e).value, e.at.stamp)
    {
      var executionIndex := |executions.rows| - 1;
      if !e.hasExecutor {
        executions.Complete(executionIndex, Skipped, e.at.finish);
        return;
      }
      match e.outcome {
        case Lost =>
        case Raised =>
          executions.Complete(executionIndex, Failure, e.at.finish);
          var updated := actions.SetStatus(e.actionId, Failed, e.at.stamp);
        case Returned(status, empty) =>
          if status in ["failed", "error"] || empty || (status != "" && status !in ["success", "ok", "queued", "done"]) {
            executions.Complete(executionIndex, Failure, e.at.finish);
            var updated := actions.SetStatus(e.actionId, Failed, e.at.stamp);
          } else {
            executions.Complete(executionIndex, Success, e.at.finish);
            var target := if e.autoExecuted then AutoExecuted else Executed;
            var updated := actions.SetStatus(e.actionId, target, e.at.stamp);
          }
      }
    }
  }

  // ----- Facts about the log -----

  lemma {:induction false} SuffixCounts(rows: seq<Row>, i: nat, now: int, window: int)
    requires i <= |rows|
    ensures RecentFailures(rows, now, window) >= RecentFailures(rows[i..], now, window)
  {
    if i > 0 {
      SuffixCounts(rows[1..], i - 1, now, window);
      assert rows[1..][i - 1..] == rows[i..];
    } else {
      assert rows[0..] == rows;
    }
  }

  lemma {:induction false} LatestIndexKept(rows: seq<Row>, a: nat, rows': seq<Row>)
    requires |rows'| == |rows| && forall i | 0 <= i < |rows| :: rows'[i].actionId == rows[i].actionId
    ensures LatestIndex(rows', a) == LatestIndex(rows, a)
  {
    if rows != [] {
      LatestIndexKept(rows[..|rows| - 1], a, rows'[..|rows| - 1]);
    }
  }

  lemma {:induction false} RowsBelong(rows: seq<Row>, a: nat)
    ensures forall r :: r in RowsOf(rows, a) <==> r in rows && r.actionId == a
  {
    if rows != [] {
      RowsBelong(rows[..|rows| - 1], a);
      assert rows == rows[..|rows| - 1] + [rows[|rows| - 1]];
    }
  }

  lemma RowsOfAppend(rows: seq<Row>, r: Row, a: nat)
    ensures RowsOf(rows + [r], a) == RowsOf(rows, a) + if r.actionId == a then [r] else []
  {
    assert (rows + [r])[..|rows|] == rows;
  }

  /** Changing an action's newest row changes the end of its own history and no other history. */
  lemma {:induction false} UpdateLatest(rows: seq<Row>, k: nat, r: Row, b: nat)
    requires LatestIndex(rows, r.actionId) == Some(k)
    ensures RowsOf(rows, r.actionId) != []
    ensures RowsOf(rows, r.actionId)[|RowsOf(rows, r.actionId)| - 1] == rows[k]
    ensures RowsOf(rows[k := r], b) ==
              if b != r.actionId then RowsOf(rows, b)
              else RowsOf(rows, b)[|RowsOf(rows, b)| - 1 := r]
  {
    var n := |rows| - 1;
    if k == n {
      assert rows[k := r][..n] == rows[..n];
    } else {
      UpdateLatest(rows[..n], k, r, b);
      assert rows[k := r][..n] == rows[..n][k := r];
    }
  }

  lemma {:induction false} NoRowsOf(rows: seq<Row>, a: nat)
    requires LatestIndex(rows, a).None?
    ensures RowsOf(rows, a) == []
  {
    if rows != [] {
      NoRowsOf(rows[..|rows| - 1], a);
    }
  }
}
