// How many actions really were executed automatically, against what the store still shows.
module AutonomyLog {
  import opened Common
  import opened StrategyActions
  import opened AdaptivePolicy
  import opened Autonomy

  // ----- The log -----

  /** The times of the automatic executions one event performs. */
  function Stamps(s: Auto, e: Autonomy.Event): seq<int> {
    if e.Applied? && e.partialMode && |e.stamps| >= |Chosen(s, e.now)| then e.stamps[..|Chosen(s, e.now)|] else []
  }

  /** The times of all automatic executions of a run; nothing is ever removed. */
  function Logged(start: Auto, events: seq<Autonomy.Event>): seq<int> {
    if events == [] then []
    else
      var n := |events| - 1;
      Logged(start, events[..n]) + Stamps(Autonomy.Run(start, events[..n]), events[n])
  }

  function CountSince(stamps: seq<int>, cutoff: int): nat {
    if stamps == [] then 0
    else CountSince(stamps[..|stamps| - 1], cutoff) + if stamps[|stamps| - 1] >= cutoff then 1 else 0
  }

  /** Every count of automatic executions that the store shows is the true one. */
  ghost predicate ShowsAll(items: seq<Action>, log: seq<int>) {
    forall cutoff :: CountAuto(items, cutoff) == CountSince(log, cutoff)
  }

  /** The event changes the status of an automatically executed action, or evicts one. */
  ghost predicate Hides(s: Auto, e: Autonomy.Event) {
    match e
    case ManuallyExecuted(id, _) => StatusOf(s.store, id) == Some(AutoExecuted)
    case Rejection(id, _) => StatusOf(s.store, id) == Some(AutoExecuted)
    case Registered(request, _) =>
      Registrable(s.store.items, request) && |s.store.items| >= s.store.capacity >= 1
      && s.store.items[0].status == AutoExecuted
    case _ => false
  }

  /** Every automatic execution in memory carries its time. */
  ghost predicate AllStamped(items: seq<Action>) {
    forall a | a in items :: a.status == AutoExecuted ==> a.executedAt.Some?
  }

  lemma {:induction false} SinceConcat(a: seq<int>, b: seq<int>, cutoff: int)
    ensures CountSince(a + b, cutoff) == CountSince(a, cutoff) + CountSince(b, cutoff)
  {
    if b == [] {
      assert a + b == a;
    } else {
      SinceConcat(a, b[..|b| - 1], cutoff);
      assert (a + b)[..|a + b| - 1] == a + b[..|b| - 1];
    }
  }

  // ----- One step -----

  function Shown(a: Action, cutoff: int): nat {
    if AutoSince(a, cutoff) then 1 else 0
  }

  /** A status change moves the count by the action's own share. */
  lemma StatusSetShows(s: Store, id: nat, status: Status, now: int, cutoff: int)
    requires Find(s.items, id).Some?
    ensures var a, items := Find(s.items, id).value, WithStatusSet(s, id, status, now).items;
            CountAuto(items, cutoff) == CountAuto(s.items, cutoff) - Shown(a, cutoff) + Shown(WithStatus(a, status, now), cutoff)
  {
    var i := IndexOf(s.items, id);
    CountAfterUpdate(s.items, i, WithStatus(s.items[i], status, now), cutoff);
  }

  /** Executing distinct pending actions adds exactly their stamps. */
  lemma {:induction false} StampAllShows(s: Store, chosen: seq<Action>, stamps: seq<int>, cutoff: int)
    requires |chosen| == |stamps| && Increasing(chosen)
    requires forall a | a in chosen :: Find(s.items, a.id) == Some(a) && a.status == Pending
    ensures CountAuto(StampAll(s, chosen, stamps).items, cutoff) == CountAuto(s.items, cutoff) + CountSince(stamps, cutoff)
  {
    if chosen != [] {
      var n := |chosen| - 1;
      StampAllShows(s, chosen[..n], stamps[..n], cutoff);
      assert chosen[n] in chosen;
      LastUntouched(s, chosen, stamps);
      StatusSetShows(StampAll(s, chosen[..n], stamps[..n]), chosen[n].id, AutoExecuted, stamps[n], cutoff);
    }
  }

  lemma ApplicationShows(s: Auto, e: Autonomy.Event, cutoff: int)
    requires e.Applied? && Valid(s.store)
    ensures CountAuto(Autonomy.Step(s, e).store.items, cutoff)
         == CountAuto(s.store.items, cutoff) + CountSince(Stamps(s, e), cutoff)
  {
    if e.partialMode && |e.stamps| >= |Chosen(s, e.now)| {
      var chosen := Chosen(s, e.now);
      ChosenAreEligible(s, e.now);
      forall a | a in chosen ensures Find(s.store.items, a.id) == Some(a) && a.status == Pending {
        ItemFound(s.store, a);
      }
      StampAllShows(s.store, chosen, e.stamps[..|chosen|], cutoff);
    }
  }

  /** Registering shows one execution less exactly when it evicts one. */
  lemma RegistrationShows(s: Auto, request: Request, now: int, cutoff: int)
    requires Valid(s.store)
    ensures var items, items' := s.store.items, RegisterOne(s.store, request, now).items;
            CountAuto(items', cutoff) == CountAuto(items, cutoff)
              - if Registrable(items, request) && |items| >= s.store.capacity then Shown(items[0], cutoff) else 0
  {
    if Registrable(s.store.items, request) {
      var a := Added(s.store, Raw(request), now);
      assert a.status == Pending;
      AppendShows(s.store.items, a, s.store.capacity, cutoff);
    }
  }

  lemma AppendShows(items: seq<Action>, a: Action, capacity: nat, cutoff: int)
    requires capacity >= 1 && |items| <= capacity && a.status == Pending
    ensures CountAuto(Newest(items + [a], capacity), cutoff)
         == CountAuto(items, cutoff) - if |items| >= capacity then Shown(items[0], cutoff) else 0
  {
    OneShows(a, cutoff);
    CountSplits(items, [a], cutoff);
    if |items| >= capacity {
      assert Newest(items + [a], capacity) == items[1..] + [a];
      CountSplits(items[1..], [a], cutoff);
      CountSplits([items[0]], items[1..], cutoff);
      OneShows(items[0], cutoff);
      assert items == [items[0]] + items[1..];
    }
  }

  lemma OneShows(a: Action, cutoff: int)
    ensures CountAuto([a], cutoff) == Shown(a, cutoff)
  {
    assert [a][..0] == [];
  }

  /** What an event takes away from the count. */
  ghost function Lost(s: Auto, e: Autonomy.Event, cutoff: int): nat {
    if !Hides(s, e) then 0
    else if e.Registered? then Shown(s.store.items[0], cutoff)
    else Shown(Find(s.store.items, e.id).value, cutoff)
  }

  lemma StepShows(s: Auto, e: Autonomy.Event, cutoff: int)
    requires Valid(s.store)
    ensures CountAuto(Autonomy.Step(s, e).store.items, cutoff)
         == CountAuto(s.store.items, cutoff) + CountSince(Stamps(s, e), cutoff) - Lost(s, e, cutoff)
  {
    match e
    case Registered(request, now) => RegistrationShows(s, request, now, cutoff);
    case ManuallyExecuted(id, now) => OverrideShows(s.store, id, Executed, now, cutoff);
    case Rejection(id, now) => OverrideShows(s.store, id, Rejected, now, cutoff);
    case Applied(_, _, _) => ApplicationShows(s, e, cutoff);
    case OutcomeRecorded(_, _) =>
  }

  /** Any other status shows one execution less exactly when the action was executed automatically. */
  lemma OverrideShows(s: Store, id: nat, status: Status, now: int, cutoff: int)
    requires status != AutoExecuted
    ensures CountAuto(WithStatusSet(s, id, status, now).items, cutoff)
         == CountAuto(s.items, cutoff) - if Find(s.items, id).Some? then Shown(Find(s.items, id).value, cutoff) else 0
  {
    if Find(s.items, id).Some? {
      StatusSetShows(s, id, status, now, cutoff);
    }
  }

  /** From a state that shows every automatic execution, an event keeps it so exactly when it neither
      changes the status of such an execution nor evicts one. */
  lemma ShowsAllIff(s: Auto, e: Autonomy.Event, log: seq<int>)
    requires Valid(s.store) && AllStamped(s.store.items) && ShowsAll(s.store.items, log)
    ensures ShowsAll(Autonomy.Step(s, e).store.items, log + Stamps(s, e)) <==> !Hides(s, e)
  {
    var items := Autonomy.Step(s, e).store.items;
    forall cutoff
      ensures CountAuto(items, cutoff) == CountSince(log + Stamps(s, e), cutoff) - Lost(s, e, cutoff)
    {
      StepShows(s, e, cutoff);
      SinceConcat(log, Stamps(s, e), cutoff);
    }
    if Hides(s, e) {
      var a := HiddenExecution(s, e);
      assert Lost(s, e, a.executedAt.value) == 1;
    }
  }

  lemma HiddenExecution(s: Auto, e: Autonomy.Event) returns (a: Action)
    requires Hides(s, e) && AllStamped(s.store.items)
    ensures a.executedAt.Some? && Lost(s, e, a.executedAt.value) == 1
  {
    if e.Registered? {
      a := s.store.items[0];
    } else {
      a := Find(s.store.items, e.id).value;
      assert a in s.store.items;
    }
  }

  // ----- Runs -----

  lemma StatusSetStamped(s: Store, id: nat, status: Status, now: int)
    requires AllStamped(s.items)
    ensures AllStamped(WithStatusSet(s, id, status, now).items)
  {
    var i := IndexOf(s.items, id);
    if i < |s.items| {
      assert s.items[i] in s.items;
    }
  }

  lemma {:induction false} StampAllStamped(s: Store, chosen: seq<Action>, stamps: seq<int>)
    requires |chosen| == |stamps| && AllStamped(s.items)
    ensures AllStamped(StampAll(s, chosen, stamps).items)
  {
    if chosen != [] {
      var n := |chosen| - 1;
      StampAllStamped(s, chosen[..n], stamps[..n]);
      StatusSetStamped(StampAll(s, chosen[..n], stamps[..n]), chosen[n].id, AutoExecuted, stamps[n]);
    }
  }

  /** In every reachable state every automatic execution carries its time. */
  lemma {:induction false} StampedOverRuns(capacity: nat, policy: Policy, events: seq<Autonomy.Event>)
    ensures AllStamped(Autonomy.Run(Fresh(capacity, policy), events).store.items)
  {
    if events != [] {
      var n := |events| - 1;
      StampedOverRuns(capacity, policy, events[..n]);
      StepStamped(Autonomy.Run(Fresh(capacity, policy), events[..n]), events[n]);
    }
  }

  lemma StepStamped(s: Auto, e: Autonomy.Event)
    requires AllStamped(s.store.items)
    ensures AllStamped(Autonomy.Step(s, e).store.items)
  {
    match e
    case Registered(request, now) =>
      assert Added(s.store, Raw(request), now).status == Pending;
    case ManuallyExecuted(id, now) => StatusSetStamped(s.store, id, Executed, now);
    case Rejection(id, now) => StatusSetStamped(s.store, id, Rejected, now);
    case Applied(partialMode, now, stamps) =>
      if partialMode && |stamps| >= |Chosen(s, now)| {
        StampAllStamped(s.store, Chosen(s, now), stamps[..|Chosen(s, now)|]);
      }
    case OutcomeRecorded(_, _) =>
  }

  ghost predicate NeverHides(start: Auto, events: seq<Autonomy.Event>) {
    events != [] ==>
      var n := |events| - 1;
      NeverHides(start, events[..n]) && !Hides(Autonomy.Run(start, events[..n]), events[n])
  }

  function Fresh(capacity: nat, policy: Policy): Auto {
    Auto(Store([], [], capacity), policy)
  }

  /** The count is at most the true one, and equal to it if nothing was hidden so far. */
  ghost predicate ShownRight(items: seq<Action>, log: seq<int>, hidden: bool, cutoff: int) {
    CountAuto(items, cutoff) <= CountSince(log, cutoff) && (!hidden ==> CountAuto(items, cutoff) == CountSince(log, cutoff))
  }

  lemma StepShownRight(s: Auto, e: Autonomy.Event, log: seq<int>, hidden: bool, cutoff: int)
    requires Valid(s.store) && ShownRight(s.store.items, log, hidden, cutoff)
    ensures ShownRight(Autonomy.Step(s, e).store.items, log + Stamps(s, e), hidden || Hides(s, e), cutoff)
  {
    StepShows(s, e, cutoff);
    SinceConcat(log, Stamps(s, e), cutoff);
  }

  /** The store never shows more than was executed, and shows all of it on every run that hides nothing. */
  lemma {:induction false} ShownOverRuns(capacity: nat, policy: Policy, events: seq<Autonomy.Event>, start: int, cutoff: int)
    requires capacity >= 1 && WithinLimits(policy) && ClockMoves(events, start)
    ensures var first := Fresh(capacity, policy);
            ShownRight(Autonomy.Run(first, events).store.items, Logged(first, events), !NeverHides(first, events), cutoff)
    decreases |events|
  {
    if events != [] {
      var n, first := |events| - 1, Fresh(capacity, policy);
      ShownOverRuns(capacity, policy, events[..n], start, cutoff);
      DailyBudgetHolds(capacity, policy, events[..n], start);
      StepShownRight(Autonomy.Run(first, events[..n]), events[n], Logged(first, events[..n]),
                     !NeverHides(first, events[..n]), cutoff);
    }
  }

  /** On every run that hides no automatic execution, at most five really happened in the trailing day. */
  lemma TrueBudgetHolds(capacity: nat, policy: Policy, events: seq<Autonomy.Event>, start: int)
    requires capacity >= 1 && WithinLimits(policy) && ClockMoves(events, start)
    requires NeverHides(Fresh(capacity, policy), events)
    ensures CountSince(Logged(Fresh(capacity, policy), events), LastTime(events, start) - DAY) <= 5
  {
    ShownOverRuns(capacity, policy, events, start, LastTime(events, start) - DAY);
    DailyBudgetHolds(capacity, policy, events, start);
  }

  // ----- A run that hides every execution -----

  /** Register a scaling action and apply the policy, `k` times over. */
  function Rounds(r: Request, k: nat): seq<Autonomy.Event> {
    if k == 0 then [] else Rounds(r, k - 1) + [Registered(r, 2 * k - 1)] + [Applied(true, 2 * k, [2 * k])]
  }

  ghost predicate Scaling(r: Request) {
    r.kind == Known(Scale) && r.target != "" && r.reasoning != "" && r.sales == Some(5)
  }

  /** One action in memory at most, executed automatically. */
  ghost predicate Spent(s: Auto) {
    && s.store.capacity == 1 && |s.store.items| <= 1 && WithinLimits(s.policy)
    && forall a | a in s.store.items :: a.status == AutoExecuted
  }

  lemma RunThen(s: Auto, events: seq<Autonomy.Event>, e: Autonomy.Event)
    ensures Autonomy.Run(s, events + [e]) == Autonomy.Step(Autonomy.Run(s, events), e)
    ensures Logged(s, events + [e]) == Logged(s, events) + Stamps(Autonomy.Run(s, events), e)
  {
    assert (events + [e])[..|events|] == events;
  }

  lemma RegistersOverSpent(s: Auto, r: Request, now: int)
    requires Spent(s) && Scaling(r)
    ensures var s' := Autonomy.Step(s, Registered(r, now));
            s'.policy == s.policy && s'.store.capacity == 1 && |s'.store.items| == 1
            && LowRiskPending(s'.store.items[0], s.policy.impactThreshold)
  {
    assert Registrable(s.store.items, r);
    var a := Added(s.store, Raw(r), now);
    assert Newest(s.store.items + [a], 1) == [a];
  }

  lemma AppliesToOne(s: Auto, now: int)
    requires s.store.capacity == 1 && |s.store.items| == 1 && WithinLimits(s.policy)
    requires LowRiskPending(s.store.items[0], s.policy.impactThreshold)
    ensures Chosen(s, now) == s.store.items
    ensures Spent(Autonomy.Step(s, Applied(true, now, [now])))
  {
    var a := s.store.items[0];
    assert s.store.items == [a] && [a][..0] == [];
    assert EligibleActions([a], s.policy.impactThreshold) == [a] && SortedByCreation([a]) == [a];
    assert CountAuto([a], now - DAY) == 0;
    assert [now][..1] == [now] && [now][..0] == [];
    AnyOutcomesWithinLimits(s.policy, Zeros(1));
    assert StampAll(s.store, [a], [now]) == WithStatusSet(s.store, a.id, AutoExecuted, now);
  }

  /** The state and the log that a run reaches. */
  ghost predicate Reaches(policy: Policy, events: seq<Autonomy.Event>, s: Auto, log: seq<int>) {
    s == Autonomy.Run(Fresh(1, policy), events) && log == Logged(Fresh(1, policy), events)
  }

  ghost predicate RoundsOrdered(r: Request, k: nat) {
    ClockMoves(Rounds(r, k), 0) && LastTime(Rounds(r, k), 0) == 2 * k
  }

  lemma RoundsExecute(policy: Policy, r: Request, k: nat, cutoff: int) returns (s: Auto, log: seq<int>)
    requires WithinLimits(policy) && Scaling(r) && cutoff <= 0
    ensures Reaches(policy, Rounds(r, k), s, log) && Spent(s) && CountSince(log, cutoff) == k
  {
    s, log := NoRounds(policy, r, cutoff);
    for i := 0 to k
      invariant Reaches(policy, Rounds(r, i), s, log) && Spent(s) && CountSince(log, cutoff) == i
    {
      s, log := OneMoreRound(policy, r, i + 1, cutoff, s, log);
    }
  }

  lemma NoRounds(policy: Policy, r: Request, cutoff: int) returns (s: Auto, log: seq<int>)
    requires WithinLimits(policy)
    ensures Reaches(policy, Rounds(r, 0), s, log) && Spent(s) && CountSince(log, cutoff) == 0
  {
    s, log := Fresh(1, policy), [];
  }

  lemma {:induction false} RoundsInOrder(r: Request, k: nat)
    ensures RoundsOrdered(r, k)
  {
    if k > 0 {
      RoundsInOrder(r, k - 1);
      LaterRound(r, k);
    }
  }

  lemma LaterRound(r: Request, k: nat)
    requires k > 0 && RoundsOrdered(r, k - 1)
    ensures RoundsOrdered(r, k)
  {
    var before, register, apply := Rounds(r, k - 1), Registered(r, 2 * k - 1), Applied(true, 2 * k, [2 * k]);
    LaterEvent(before, register);
    LaterEvent(before + [register], apply);
  }

  lemma LaterEvent(events: seq<Autonomy.Event>, e: Autonomy.Event)
    requires ClockMoves(events, 0) && LastTime(events, 0) < e.now
    ensures ClockMoves(events + [e], 0) && LastTime(events + [e], 0) == e.now
  {
    assert (events + [e])[..|events|] == events;
  }

  lemma OneMoreRound(policy: Policy, r: Request, k: nat, cutoff: int, s: Auto, log: seq<int>)
    returns (s': Auto, log': seq<int>)
    requires Scaling(r) && cutoff <= 0 && k > 0
    requires Reaches(policy, Rounds(r, k - 1), s, log) && Spent(s) && CountSince(log, cutoff) == k - 1
    ensures Reaches(policy, Rounds(r, k), s', log') && Spent(s') && CountSince(log', cutoff) == k
  {
    var first, events := Fresh(1, policy), Rounds(r, k - 1);
    var register, apply := Registered(r, 2 * k - 1), Applied(true, 2 * k, [2 * k]);
    RunThen(first, events, register);
    RunThen(first, events + [register], apply);
    var pending := Autonomy.Step(s, register);
    s', log' := Autonomy.Step(pending, apply), log + [2 * k];
    RegistersOverSpent(s, r, 2 * k - 1);
    AppliesToOne(pending, 2 * k);
    assert Stamps(s, register) == [] && log + [] == log;
    assert [2 * k][..1] == [2 * k] && Stamps(pending, apply) == [2 * k];
  }

  /** Every round really executes one action although the store shows one in all: without the condition
      the true number in a day can be as large as the day has time for. */
  lemma BudgetCanBeExceeded(policy: Policy, r: Request, k: nat)
    requires WithinLimits(policy) && Scaling(r) && 2 * k <= DAY
    ensures RoundsOrdered(r, k)
    ensures CountSince(Logged(Fresh(1, policy), Rounds(r, k)), 2 * k - DAY) == k
  {
    RoundsInOrder(r, k);
    var s, log := RoundsExecute(policy, r, k, 2 * k - DAY);
  }
}
