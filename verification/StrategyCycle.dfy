// Strategy decision cycles: the cycle lock, the cooldown and their interleavings.
module StrategyCycle {
  import opened Common

  datatype LogKind = StrategyAction | StrategyActionSkipped

  datatype Log = Log(kind: LogKind, at: int)

  /** The creation time of the newest strategy_action log. */
  function LatestAction(logs: seq<Log>): Option<int> {
    if logs == [] then None
    else
      var rest, last := LatestAction(logs[..|logs| - 1]), logs[|logs| - 1];
      if last.kind != StrategyAction then rest
      else if rest.None? || rest.value <= last.at then Some(last.at)
      else rest
  }

  predicate CoolingDown(logs: seq<Log>, now: int, cooldown: int) {
    var latest := LatestAction(logs);
    latest.Some? && latest.value + cooldown - now > 0
  }

  // ----- One cycle, run alone -----

  class DecisionStorage {
    var logs: seq<Log>
    var processed: set<nat>

    constructor ()
      ensures logs == [] && processed == {}
    {
      logs, processed := [], {};
    }

    method CreateDecisionLog(kind: LogKind, at: int)
      modifies this`logs
      ensures logs == old(logs) + [Log(kind, at)]
    {
      logs := logs + [Log(kind, at)];
    }
  }

  datatype Outcome = CooldownSkip | Duplicate | Persisted

  /** The RunStrategyDecision branch: a cycle that finds the cooldown active logs a skip; any other
      persists the plan it decides on, unless that decision was processed before. */
  method RunStrategyDecision(storage: DecisionStorage, cooldown: int, checkedAt: int, decision: nat, loggedAt: int)
    returns (outcome: Outcome)
    requires checkedAt <= loggedAt
    modifies storage
    ensures outcome.CooldownSkip? <==>
              exists l | l in old(storage.logs) :: l.kind == StrategyAction && l.at + cooldown > checkedAt
    ensures outcome.Duplicate? <==> !outcome.CooldownSkip? && decision in old(storage.processed)
    ensures storage.logs == old(storage.logs) +
              match outcome
              case CooldownSkip => [Log(StrategyActionSkipped, loggedAt)]
              case Duplicate => []
              case Persisted => [Log(StrategyAction, loggedAt)]
    ensures storage.processed == old(storage.processed) + if outcome.Persisted? then {decision} else {}
    ensures outcome.Persisted? ==>
              forall l | l in old(storage.logs) && l.kind == StrategyAction :: l.at + cooldown <= loggedAt
  {
    LatestIsNewest(storage.logs);
    CoolingDownIff(storage.logs, checkedAt, cooldown);
    var latest := LatestAction(storage.logs);
    if latest.Some? && latest.value + cooldown - checkedAt > 0 {
      storage.CreateDecisionLog(StrategyActionSkipped, loggedAt);
      return CooldownSkip;
    }
    if decision in storage.processed {
      return Duplicate;
    }
    storage.CreateDecisionLog(StrategyAction, loggedAt);
    storage.processed := storage.processed + {decision};
    outcome := Persisted;
  }

  lemma {:induction false} LatestIsNewest(logs: seq<Log>)
    ensures LatestAction(logs).None? ==> forall l | l in logs :: l.kind != StrategyAction
    ensures LatestAction(logs).Some? ==>
              && Log(StrategyAction, LatestAction(logs).value) in logs
              && forall l | l in logs && l.kind == StrategyAction :: l.at <= LatestAction(logs).value
  {
    if logs != [] {
      LatestIsNewest(logs[..|logs| - 1]);
      assert logs == logs[..|logs| - 1] + [logs[|logs| - 1]];
    }
  }

  /** The cooldown is active exactly while some logged action is less than a cooldown old. */
  lemma CoolingDownIff(logs: seq<Log>, now: int, cooldown: int)
    ensures CoolingDown(logs, now, cooldown)
       <==> exists l | l in logs :: l.kind == StrategyAction && l.at + cooldown > now
  {
    LatestIsNewest(logs);
  }

  // ----- Interleaved cycles -----

  /** `Passed` has seen no cooldown; `Finished` is done but has not released the lock. */
  datatype Phase = Idle | Entered | Passed | Finished

  /** A cycle that persisted its plan. */
  datatype Cycle = Cycle(caller: nat, at: int)

  datatype World = World(clock: int, holder: Option<nat>, phases: map<nat, Phase>, logs: seq<Log>, executed: seq<Cycle>)

  /** The threads that run cycles, and those among them that take the cycle lock. */
  datatype Settings = Settings(callers: set<nat>, locking: set<nat>, cooldown: int)

  const LOOP: nat := 0
  const DISPATCHER: nat := 1

  /** The loop is given the lock and every decide request takes it; the dispatcher hands a queued
      event to the handler without it. */
  function Deployed(requests: set<nat>, cooldown: int): Settings {
    Settings({LOOP, DISPATCHER} + requests, {LOOP} + (requests - {DISPATCHER}), cooldown)
  }

  datatype Event =
    | Tick(elapsed: nat)
    | Enter(caller: nat)
    | Check(caller: nat)
    | Persist(caller: nat, duplicate: bool)
    | Leave(caller: nat)
    | OtherActionLogged

  function PhaseOf(w: World, t: nat): Phase {
    if t in w.phases then w.phases[t] else Idle
  }

  function Logged(w: World, kind: LogKind): World {
    w.(logs := w.logs + [Log(kind, w.clock)])
  }

  function Moved(w: World, t: nat, phase: Phase): World {
    w.(phases := w.phases[t := phase])
  }

  function Persisting(w: World, t: nat): World {
    Logged(w, StrategyAction).(executed := w.executed + [Cycle(t, w.clock)])
  }

  /** A step that its thread cannot take changes nothing.  Leaving is possible in every phase,
      because an exception releases the lock too. */
  function Step(cfg: Settings, w: World, e: Event): World {
    match e
    case Tick(elapsed) => w.(clock := w.clock + elapsed)
    case OtherActionLogged => Logged(w, StrategyAction)
    case Enter(t) =>
      if t !in cfg.callers || PhaseOf(w, t) != Idle then w
      else if t !in cfg.locking then Moved(w, t, Entered)
      else if w.holder.None? then Moved(w.(holder := Some(t)), t, Entered)
      else if t == LOOP then w
      else Logged(w, StrategyActionSkipped)
    case Check(t) =>
      if PhaseOf(w, t) != Entered then w
      else if CoolingDown(w.logs, w.clock, cfg.cooldown) then Moved(Logged(w, StrategyActionSkipped), t, Finished)
      else Moved(w, t, Passed)
    case Persist(t, duplicate) =>
      if PhaseOf(w, t) != Passed then w
      else Moved(if duplicate then w else Persisting(w, t), t, Finished)
    case Leave(t) =>
      if PhaseOf(w, t) == Idle then w
      else Moved(if t in cfg.locking then w.(holder := None) else w, t, Idle)
  }

  function Run(cfg: Settings, start: int, events: seq<Event>): World {
    if events == [] then World(start, None, map[], [], [])
    else Step(cfg, Run(cfg, start, events[..|events| - 1]), events[|events| - 1])
  }

  ghost predicate Apart(earlier: Cycle, later: Cycle, cooldown: int) {
    earlier.at + cooldown <= later.at
  }

  ghost predicate Spaced(executed: seq<Cycle>, cooldown: int) {
    forall i, j | 0 <= i < j < |executed| :: Apart(executed[i], executed[j], cooldown)
  }

  /** Never in flight together: one thread, or two that take the lock. */
  ghost predicate Excluded(cfg: Settings, t: nat, u: nat) {
    t == u || (t in cfg.locking && u in cfg.locking)
  }

  ghost predicate ExcludedSpaced(cfg: Settings, executed: seq<Cycle>) {
    forall i, j | 0 <= i < j < |executed| && Excluded(cfg, executed[i].caller, executed[j].caller) ::
      Apart(executed[i], executed[j], cfg.cooldown)
  }

  ghost predicate LockKept(cfg: Settings, w: World) {
    && (forall t: nat :: t in cfg.locking && PhaseOf(w, t) != Idle <==> w.holder == Some(t))
    && (forall t: nat :: PhaseOf(w, t) != Idle ==> t in cfg.callers)
  }

  ghost predicate Recorded(cfg: Settings, w: World) {
    && (forall c | c in w.executed :: c.caller in cfg.callers && c.at <= w.clock && Log(StrategyAction, c.at) in w.logs)
    && (forall i, j | 0 <= i < j < |w.executed| :: w.executed[i].at <= w.executed[j].at)
  }

  /** Whoever has passed the check is a cooldown after every cycle it cannot overlap with. */
  ghost predicate PassedApart(cfg: Settings, w: World) {
    forall t: nat, c | PhaseOf(w, t) == Passed && c in w.executed && Excluded(cfg, c.caller, t) ::
      c.at + cfg.cooldown <= w.clock
  }

  ghost predicate Inv(cfg: Settings, w: World) {
    LockKept(cfg, w) && Recorded(cfg, w) && PassedApart(cfg, w) && ExcludedSpaced(cfg, w.executed)
  }

  lemma OnlyCallerMoves(cfg: Settings, w: World, e: Event, t: nat)
    requires e.Enter? || e.Check? || e.Persist? || e.Leave?
    requires t != e.caller
    ensures PhaseOf(Step(cfg, w, e), t) == PhaseOf(w, t)
  {
  }

  lemma StepKeepsLock(cfg: Settings, w: World, e: Event)
    requires LockKept(cfg, w)
    ensures LockKept(cfg, Step(cfg, w, e))
  {
    var w' := Step(cfg, w, e);
    forall t: nat
      ensures t in cfg.locking && PhaseOf(w', t) != Idle <==> w'.holder == Some(t)
      ensures PhaseOf(w', t) != Idle ==> t in cfg.callers
    {
      if (e.Enter? || e.Check? || e.Persist? || e.Leave?) && t != e.caller {
        OnlyCallerMoves(cfg, w, e, t);
      }
    }
  }

  lemma CheckPasses(cfg: Settings, w: World, t: nat)
    requires Recorded(cfg, w) && PhaseOf(w, t) == Entered && PhaseOf(Step(cfg, w, Check(t)), t) == Passed
    ensures forall c | c in w.executed :: c.at + cfg.cooldown <= w.clock
  {
    LatestIsNewest(w.logs);
  }

  lemma StepKeepsPassedApart(cfg: Settings, w: World, e: Event)
    requires Inv(cfg, w)
    ensures PassedApart(cfg, Step(cfg, w, e))
  {
    var w' := Step(cfg, w, e);
    forall t: nat, c | PhaseOf(w', t) == Passed && c in w'.executed && Excluded(cfg, c.caller, t)
      ensures c.at + cfg.cooldown <= w'.clock
    {
      if e == Check(t) && PhaseOf(w, t) == Entered {
        CheckPasses(cfg, w, t);
      }
    }
  }

  /** Time only advances, logs only grow, and a step adds at most the cycle it persists. */
  lemma StepGrows(cfg: Settings, w: World, e: Event)
    ensures var w' := Step(cfg, w, e);
            && w.clock <= w'.clock && w.logs <= w'.logs
            && (w'.executed == w.executed
                || (e.Persist? && PhaseOf(w, e.caller) == Passed
                    && w'.executed == w.executed + [Cycle(e.caller, w.clock)] && w'.clock == w.clock
                    && Log(StrategyAction, w.clock) in w'.logs))
  {
  }

  lemma StepKeepsRecorded(cfg: Settings, w: World, e: Event)
    requires LockKept(cfg, w) && Recorded(cfg, w)
    ensures Recorded(cfg, Step(cfg, w, e))
  {
    StepGrows(cfg, w, e);
    var w' := Step(cfg, w, e);
    forall c | c in w'.executed
      ensures c.caller in cfg.callers && c.at <= w'.clock && Log(StrategyAction, c.at) in w'.logs
    {
      if c in w.executed {
        assert Log(StrategyAction, c.at) in w.logs;
      }
    }
    forall i | 0 <= i < |w.executed| ensures w.executed[i].at <= w.clock {
      assert w.executed[i] in w.executed;
    }
  }

  lemma StepKeepsSpaced(cfg: Settings, w: World, e: Event)
    requires PassedApart(cfg, w) && ExcludedSpaced(cfg, w.executed)
    ensures ExcludedSpaced(cfg, Step(cfg, w, e).executed)
  {
    StepGrows(cfg, w, e);
    var w' := Step(cfg, w, e);
    forall i, j | 0 <= i < j < |w'.executed| && Excluded(cfg, w'.executed[i].caller, w'.executed[j].caller)
      ensures Apart(w'.executed[i], w'.executed[j], cfg.cooldown)
    {
      assert w'.executed[i] == w.executed[i] && w.executed[i] in w.executed;
      if j < |w.executed| {
        assert Apart(w.executed[i], w.executed[j], cfg.cooldown);
      }
    }
  }

  lemma StepKeepsInv(cfg: Settings, w: World, e: Event)
    requires Inv(cfg, w)
    ensures Inv(cfg, Step(cfg, w, e))
  {
    StepKeepsLock(cfg, w, e);
    StepKeepsRecorded(cfg, w, e);
    StepKeepsSpaced(cfg, w, e);
    StepKeepsPassedApart(cfg, w, e);
  }

  /** Over every interleaving, with any choice of callers and locks: cycles that cannot be in flight
      together are a cooldown apart. */
  lemma {:induction false} ExcludedCyclesAreSpaced(cfg: Settings, start: int, events: seq<Event>)
    ensures var w := Run(cfg, start, events); Inv(cfg, w) && ExcludedSpaced(cfg, w.executed)
  {
    if events != [] {
      ExcludedCyclesAreSpaced(cfg, start, events[..|events| - 1]);
      StepKeepsInv(cfg, Run(cfg, start, events[..|events| - 1]), events[|events| - 1]);
    }
  }

  /** With the lock on every side one cycle is in flight at a time. */
  lemma OneCycleInFlight(cfg: Settings, start: int, events: seq<Event>, t: nat, u: nat)
    requires cfg.callers <= cfg.locking
    requires var w := Run(cfg, start, events); PhaseOf(w, t) != Idle && PhaseOf(w, u) != Idle
    ensures t == u
  {
    ExcludedCyclesAreSpaced(cfg, start, events);
    var w := Run(cfg, start, events);
    assert w.holder == Some(t) && w.holder == Some(u);
  }

  ghost predicate AtMostOneCaller(cfg: Settings) {
    forall t, u | t in cfg.callers && u in cfg.callers :: t == u
  }

  ghost predicate Unlocked(cfg: Settings, t: nat) {
    t in cfg.callers && t !in cfg.locking
  }

  /** At most one caller runs cycles without taking the lock. */
  ghost predicate OneUnlocked(cfg: Settings) {
    forall t, u | Unlocked(cfg, t) && Unlocked(cfg, u) :: t == u
  }

  lemma TwoOfThree(cfg: Settings, a: nat, b: nat, c: nat)
    requires OneUnlocked(cfg) && a in cfg.callers && b in cfg.callers && c in cfg.callers
    ensures Excluded(cfg, a, b) || Excluded(cfg, b, c) || Excluded(cfg, a, c)
  {
    assert (Unlocked(cfg, a) && Unlocked(cfg, b)) ==> a == b;
    assert (Unlocked(cfg, b) && Unlocked(cfg, c)) ==> b == c;
    assert (Unlocked(cfg, a) && Unlocked(cfg, c)) ==> a == c;
  }

  /** One caller without the lock costs at most one extra cycle: no three within a cooldown. */
  lemma TwoPerCooldown(cfg: Settings, start: int, events: seq<Event>, i: nat)
    requires OneUnlocked(cfg) && i + 2 < |Run(cfg, start, events).executed|
    ensures var executed := Run(cfg, start, events).executed; Apart(executed[i], executed[i + 2], cfg.cooldown)
  {
    ExcludedCyclesAreSpaced(cfg, start, events);
    var w := Run(cfg, start, events);
    var a, b, c := w.executed[i], w.executed[i + 1], w.executed[i + 2];
    assert a in w.executed && b in w.executed && c in w.executed;
    if Excluded(cfg, a.caller, b.caller) {
      assert Apart(a, b, cfg.cooldown);
    } else if Excluded(cfg, b.caller, c.caller) {
      assert Apart(b, c, cfg.cooldown);
    } else {
      TwoOfThree(cfg, a.caller, b.caller, c.caller);
      assert Apart(w.executed[i], w.executed[i + 2], cfg.cooldown);
    }
  }

  // ----- What each step does -----

  /** A waiting caller starts a cycle exactly when it needs no lock or the lock is free; a request that
      finds the lock taken logs a skip, the loop does not. */
  lemma EnterIff(cfg: Settings, w: World, t: nat)
    requires t in cfg.callers && PhaseOf(w, t) == Idle
    ensures var w' := Step(cfg, w, Enter(t));
            && (PhaseOf(w', t) == Entered <==> t !in cfg.locking || w.holder == None)
            && (PhaseOf(w', t) != Entered ==> PhaseOf(w', t) == Idle)
            && w'.holder == (if t in cfg.locking && w.holder == None then Some(t) else w.holder)
            && w'.logs == w.logs + (if t in cfg.locking && w.holder != None && t != 0
                                    then [Log(StrategyActionSkipped, w.clock)] else [])
            && w'.executed == w.executed
  {
    assert w.logs + [] == w.logs;
  }

  /** A cycle passes the check exactly when every logged action is at least a cooldown old; otherwise it
      logs a skip and ends. */
  lemma CheckIff(cfg: Settings, w: World, t: nat)
    requires PhaseOf(w, t) == Entered
    ensures var w' := Step(cfg, w, Check(t));
            if forall l | l in w.logs && l.kind == StrategyAction :: l.at + cfg.cooldown <= w.clock
            then PhaseOf(w', t) == Passed && w'.logs == w.logs
            else PhaseOf(w', t) == Finished && w'.logs == w.logs + [Log(StrategyActionSkipped, w.clock)]
  {
    CoolingDownIff(w.logs, w.clock, cfg.cooldown);
  }

  /** A cycle that passed persists once and logs an action, unless its decision is a duplicate. */
  lemma PersistMeans(cfg: Settings, w: World, t: nat, duplicate: bool)
    requires PhaseOf(w, t) == Passed
    ensures var w' := Step(cfg, w, Persist(t, duplicate));
            && PhaseOf(w', t) == Finished
            && w'.executed == w.executed + (if duplicate then [] else [Cycle(t, w.clock)])
            && w'.logs == w.logs + (if duplicate then [] else [Log(StrategyAction, w.clock)])
  {
    assert w.logs + [] == w.logs && w.executed + [] == w.executed;
  }

  /** Whatever happened in its cycle, a caller that leaves is idle and holds no lock. */
  lemma LeaveFreesLock(cfg: Settings, start: int, events: seq<Event>, t: nat)
    ensures var w := Step(cfg, Run(cfg, start, events), Leave(t)); PhaseOf(w, t) == Idle && w.holder != Some(t)
  {
    ExcludedCyclesAreSpaced(cfg, start, events);
    var w := Run(cfg, start, events);
    assert t in cfg.locking && PhaseOf(w, t) != Idle <==> w.holder == Some(t);
  }

  /** Nothing blocks for ever: with the lock free and every logged action a cooldown old, an idle caller
      that runs a cycle executes it. */
  lemma FreshCycleExecutes(cfg: Settings, start: int, events: seq<Event>, t: nat)
    requires t in cfg.callers
    requires var w := Run(cfg, start, events);
             && PhaseOf(w, t) == Idle && w.holder == None
             && forall l | l in w.logs && l.kind == StrategyAction :: l.at + cfg.cooldown <= w.clock
    ensures var w := Run(cfg, start, events);
            Run(cfg, start, events + [Enter(t)] + [Check(t)] + [Persist(t, false)]).executed
              == w.executed + [Cycle(t, w.clock)]
  {
    RunThen(cfg, start, events, Enter(t));
    RunThen(cfg, start, events + [Enter(t)], Check(t));
    RunThen(cfg, start, events + [Enter(t)] + [Check(t)], Persist(t, false));
    var w := Run(cfg, start, events);
    EnterIff(cfg, w, t);
    assert w.logs + [] == w.logs;
    CheckIff(cfg, Step(cfg, w, Enter(t)), t);
    PersistMeans(cfg, Step(cfg, Step(cfg, w, Enter(t)), Check(t)), t, false);
  }

  // ----- The race -----

  /** `b` passes first; `a` needs no lock and passes too; then both persist. */
  function BothPass(a: nat, b: nat): seq<Event> {
    [Enter(b)] + [Check(b)] + [Enter(a)] + [Check(a)]
  }

  function Race(a: nat, b: nat): seq<Event> {
    BothPass(a, b) + [Persist(b, false)] + [Persist(a, false)]
  }

  lemma RunThen(cfg: Settings, start: int, events: seq<Event>, e: Event)
    ensures Run(cfg, start, events + [e]) == Step(cfg, Run(cfg, start, events), e)
  {
    assert (events + [e])[..|events|] == events;
  }

  lemma BothCanPass(cfg: Settings, start: int, a: nat, b: nat)
    requires a != b && Unlocked(cfg, a) && b in cfg.callers
    ensures var w := Run(cfg, start, BothPass(a, b));
            && PhaseOf(w, a) == PhaseOf(w, b) == Passed && w.executed == [] && w.clock == start
  {
    OneCanPass(cfg, start, b);
    RunThen(cfg, start, [Enter(b)] + [Check(b)], Enter(a));
    RunThen(cfg, start, [Enter(b)] + [Check(b)] + [Enter(a)], Check(a));
  }

  lemma OneCanPass(cfg: Settings, start: int, b: nat)
    requires b in cfg.callers
    ensures var w := Run(cfg, start, [Enter(b)] + [Check(b)]);
            PhaseOf(w, b) == Passed && w.phases.Keys == {b} && w.logs == [] && w.executed == [] && w.clock == start
  {
    assert [] + [Enter(b)] == [Enter(b)];
    RunThen(cfg, start, [], Enter(b));
    RunThen(cfg, start, [Enter(b)], Check(b));
  }

  /** Any caller without the lock races with any other caller: both execute at the same instant. */
  lemma UnlockedCallerRaces(cfg: Settings, start: int, a: nat, b: nat)
    requires a != b && Unlocked(cfg, a) && b in cfg.callers
    ensures Run(cfg, start, Race(a, b)).executed == [Cycle(b, start), Cycle(a, start)]
  {
    BothCanPass(cfg, start, a, b);
    RunThen(cfg, start, BothPass(a, b), Persist(b, false));
    RunThen(cfg, start, BothPass(a, b) + [Persist(b, false)], Persist(a, false));
  }

  /** As deployed, a queued event races with the loop although the loop holds the lock; no more than
      two cycles fall within a cooldown. */
  lemma DeployedCycles(requests: set<nat>, cooldown: int, start: int, events: seq<Event>, i: nat)
    ensures var cfg := Deployed(requests, cooldown);
            && Run(cfg, start, Race(DISPATCHER, LOOP)).executed == [Cycle(LOOP, start), Cycle(DISPATCHER, start)]
            && (i + 2 < |Run(cfg, start, events).executed| ==>
                  Apart(Run(cfg, start, events).executed[i], Run(cfg, start, events).executed[i + 2], cooldown))
  {
    var cfg := Deployed(requests, cooldown);
    UnlockedCallerRaces(cfg, start, DISPATCHER, LOOP);
    if i + 2 < |Run(cfg, start, events).executed| {
      TwoPerCooldown(cfg, start, events, i);
    }
  }

  lemma LockedMeansSpaced(cfg: Settings, start: int, events: seq<Event>)
    requires cfg.callers <= cfg.locking || AtMostOneCaller(cfg)
    ensures Spaced(Run(cfg, start, events).executed, cfg.cooldown)
  {
    ExcludedCyclesAreSpaced(cfg, start, events);
    var executed := Run(cfg, start, events).executed;
    forall i, j | 0 <= i < j < |executed| ensures Apart(executed[i], executed[j], cfg.cooldown) {
      assert executed[i] in executed && executed[j] in executed;
      assert Excluded(cfg, executed[i].caller, executed[j].caller);
    }
  }

  /** With a positive cooldown, executed cycles are a cooldown apart over every interleaving exactly
      when every caller takes the lock, or there is at most one caller. */
  lemma SpacedIffLocked(cfg: Settings, start: int)
    requires cfg.cooldown > 0
    ensures (forall events :: Spaced(Run(cfg, start, events).executed, cfg.cooldown))
       <==> cfg.callers <= cfg.locking || AtMostOneCaller(cfg)
  {
    if cfg.callers <= cfg.locking || AtMostOneCaller(cfg) {
      forall events ensures Spaced(Run(cfg, start, events).executed, cfg.cooldown) {
        LockedMeansSpaced(cfg, start, events);
      }
    } else {
      var a :| a in cfg.callers && a !in cfg.locking;
      var b :| b in cfg.callers && b != a;
      UnlockedCallerRaces(cfg, start, a, b);
      var executed := Run(cfg, start, Race(a, b)).executed;
      assert !Apart(executed[0], executed[1], cfg.cooldown);
    }
  }
}
