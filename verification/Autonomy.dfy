// Automatic execution of low-risk actions within a daily budget (no executor registry configured).
module Autonomy {
  import opened Common
  import opened StrategyActions
  import opened AdaptivePolicy

  const DAY := 24 * 3600

  predicate AutoSince(a: Action, cutoff: int) {
    a.status == AutoExecuted && a.executedAt.Some? && a.executedAt.value >= cutoff
  }

  function CountAuto(items: seq<Action>, cutoff: int): nat {
    if items == [] then 0
    else CountAuto(items[..|items| - 1], cutoff) + if AutoSince(items[|items| - 1], cutoff) then 1 else 0
  }

  predicate LowRiskPending(a: Action, impactThreshold: int) {
    a.status == Pending && a.risk == Low && a.impact >= impactThreshold
  }

  /** Oldest first. */
  function EligibleActions(items: seq<Action>, impactThreshold: int): seq<Action> {
    if items == [] then []
    else
      var rest := EligibleActions(items[..|items| - 1], impactThreshold);
      if LowRiskPending(items[|items| - 1], impactThreshold) then rest + [items[|items| - 1]] else rest
  }

  datatype Auto = Auto(store: Store, policy: Policy)

  function StampAll(s: Store, chosen: seq<Action>, stamps: seq<int>): Store
    requires |chosen| == |stamps|
  {
    if chosen == [] then s
    else
      var n := |chosen| - 1;
      WithStatusSet(StampAll(s, chosen[..n], stamps[..n]), chosen[n].id, AutoExecuted, stamps[n])
  }

  /** Executes `chosen` in order; an automatic execution records no revenue. */
  function ExecuteAll(s: Auto, chosen: seq<Action>, stamps: seq<int>): Auto
    requires |chosen| == |stamps|
  {
    Auto(StampAll(s.store, chosen, stamps), RecordedAll(s.policy, Zeros(|chosen|)))
  }

  function Chosen(s: Auto, now: int): seq<Action> {
    var eligible := SortedByCreation(EligibleActions(s.store.items, s.policy.impactThreshold));
    var budget := Max(s.policy.maxAuto - CountAuto(s.store.items, now - DAY), 0);
    if |eligible| <= budget then eligible else eligible[..budget]
  }

  /** `stamps` are the clock readings of the executions, as many as are ever needed. */
  function Apply(s: Auto, partialMode: bool, now: int, stamps: seq<int>): Auto {
    var chosen := Chosen(s, now);
    if !partialMode || |stamps| < |chosen| then s else ExecuteAll(s, chosen, stamps[..|chosen|])
  }

  class AutonomyPolicyEngine {
    const actions: StrategyActionStore
    const adaptive: AdaptivePolicyEngine

    constructor (actions: StrategyActionStore, adaptive: AdaptivePolicyEngine)
      ensures this.actions == actions && this.adaptive == adaptive
    {
      this.actions, this.adaptive := actions, adaptive;
    }

    ghost function State(): Auto
      reads actions, adaptive
    {
      Auto(actions.State(), adaptive.policy)
    }

    method CountAutoExecutedLast24h(now: int) returns (count: nat)
      ensures count == CountAuto(actions.items, now - DAY)
    {
      count := 0;
      for i := 0 to |actions.items|
        invariant count == CountAuto(actions.items[..i], now - DAY)
      {
        assert actions.items[..i + 1][..i] == actions.items[..i];
        if AutoSince(actions.items[i], now - DAY) {
          count := count + 1;
        }
      }
      assert actions.items[..|actions.items|] == actions.items;
    }

    method ApplyPolicy(partialMode: bool, now: int, stamps: seq<int>) returns (executed: seq<nat>)
      requires |stamps| >= |actions.items|
      modifies actions, adaptive
      ensures State() == Apply(old(State()), partialMode, now, stamps)
      ensures partialMode ==> executed == Ids(Chosen(old(State()), now))
      ensures !partialMode ==> executed == []
    {
      executed := [];
      if !partialMode {
        return;
      }
      var already := CountAutoExecutedLast24h(now);
      var budget := Max(adaptive.policy.maxAuto - already, 0);
      var eligible := SortedByCreation(EligibleActions(actions.items, adaptive.policy.impactThreshold));
      EligibleFewer(actions.items, adaptive.policy.impactThreshold);
      var chosen := if |eligible| <= budget then eligible else eligible[..budget];
      executed := ExecuteChosen(chosen, stamps[..|chosen|]);
    }

    method ExecuteChosen(chosen: seq<Action>, stamps: seq<int>) returns (executed: seq<nat>)
      requires |chosen| == |stamps|
      modifies actions, adaptive
      ensures State() == ExecuteAll(old(State()), chosen, stamps)
      ensures executed == Ids(chosen)
    {
      executed := [];
      for i := 0 to |chosen|
        invariant State() == ExecuteAll(old(State()), chosen[..i], stamps[..i])
        invariant executed == Ids(chosen[..i])
      {
        ExecuteOneMore(old(State()), chosen, stamps, i);
        var updated := actions.SetStatus(chosen[i].id, AutoExecuted, stamps[i]);
        adaptive.RecordActionOutcome(0.0);
        executed := executed + [chosen[i].id];
      }
      assert chosen[..|chosen|] == chosen && stamps[..|stamps|] == stamps;
    }
  }

  lemma ExecuteOneMore(s: Auto, chosen: seq<Action>, stamps: seq<int>, i: nat)
    requires |chosen| == |stamps| && i < |chosen|
    ensures ExecuteAll(s, chosen[..i + 1], stamps[..i + 1])
         == Auto(WithStatusSet(ExecuteAll(s, chosen[..i], stamps[..i]).store, chosen[i].id, AutoExecuted, stamps[i]),
                 Recorded(ExecuteAll(s, chosen[..i], stamps[..i]).policy, 0.0))
    ensures Ids(chosen[..i + 1]) == Ids(chosen[..i]) + [chosen[i].id]
  {
    assert chosen[..i + 1][..i] == chosen[..i] && stamps[..i + 1][..i] == stamps[..i];
    assert Zeros(i + 1)[..i] == Zeros(i);
  }

  function Ids(items: seq<Action>): seq<nat> {
    if items == [] then [] else Ids(items[..|items| - 1]) + [items[|items| - 1].id]
  }

  // ----- Facts about one application -----

  lemma {:induction false} SortedKeepsLength(table: seq<Action>)
    ensures |SortedByCreation(table)| == |table|
  {
    if table != [] {
      SortedKeepsLength(table[..|table| - 1]);
      InsertedLength(table[|table| - 1], SortedByCreation(table[..|table| - 1]));
    }
  }

  lemma {:induction false} InsertedLength(a: Action, sorted: seq<Action>)
    ensures |ByCreation(a, sorted)| == |sorted| + 1
  {
    if sorted != [] && sorted[|sorted| - 1].createdAt > a.createdAt {
      InsertedLength(a, sorted[..|sorted| - 1]);
    }
  }

  lemma {:induction false} EligibleShorter(items: seq<Action>, impactThreshold: int)
    ensures |EligibleActions(items, impactThreshold)| <= |items|
  {
    if items != [] {
      EligibleShorter(items[..|items| - 1], impactThreshold);
    }
  }

  lemma EligibleFewer(items: seq<Action>, impactThreshold: int)
    ensures |SortedByCreation(EligibleActions(items, impactThreshold))| <= |items|
  {
    EligibleShorter(items, impactThreshold);
    SortedKeepsLength(EligibleActions(items, impactThreshold));
  }

  lemma {:induction false} EligibleIncreasing(items: seq<Action>, impactThreshold: int)
    requires Increasing(items)
    ensures var eligible := EligibleActions(items, impactThreshold);
            && Increasing(eligible)
            && forall a | a in eligible :: a in items && LowRiskPending(a, impactThreshold)
  {
    if items != [] {
      var n := |items| - 1;
      EligibleIncreasing(items[..n], impactThreshold);
      forall a | a in EligibleActions(items[..n], impactThreshold)
        ensures a.id < items[n].id && a.createdAt < items[n].createdAt
      {
        var i :| 0 <= i < n && items[i] == a;
      }
    }
  }

  /** In a valid store the chosen actions are distinct pending low-risk items of the store. */
  lemma ChosenAreEligible(s: Auto, now: int)
    requires Valid(s.store)
    ensures var chosen := Chosen(s, now);
            && Increasing(chosen)
            && (forall a | a in chosen :: a in s.store.items && LowRiskPending(a, s.policy.impactThreshold))
            && CountAuto(s.store.items, now - DAY) + |chosen| <= Max(s.policy.maxAuto, CountAuto(s.store.items, now - DAY))
  {
    ItemsIncreasing(s.store);
    EligibleIncreasing(s.store.items, s.policy.impactThreshold);
    SortingIncreasing(EligibleActions(s.store.items, s.policy.impactThreshold));
  }

  lemma {:induction false} CountAfterUpdate(items: seq<Action>, i: nat, a: Action, cutoff: int)
    requires i < |items|
    ensures CountAuto(items[i := a], cutoff)
         == CountAuto(items, cutoff) - (if AutoSince(items[i], cutoff) then 1 else 0)
            + if AutoSince(a, cutoff) then 1 else 0
  {
    var n := |items| - 1;
    if i < n {
      CountAfterUpdate(items[..n], i, a, cutoff);
      assert items[i := a][..n] == items[..n][i := a];
    } else {
      assert items[i := a][..n] == items[..n];
    }
  }

  lemma {:induction false} CountLater(items: seq<Action>, cutoff: int, later: int)
    requires cutoff <= later
    ensures CountAuto(items, later) <= CountAuto(items, cutoff)
  {
    if items != [] {
      CountLater(items[..|items| - 1], cutoff, later);
    }
  }

  lemma {:induction false} CountSplits(a: seq<Action>, b: seq<Action>, cutoff: int)
    ensures CountAuto(a + b, cutoff) == CountAuto(a, cutoff) + CountAuto(b, cutoff)
  {
    if b == [] {
      assert a + b == a;
    } else {
      CountSplits(a, b[..|b| - 1], cutoff);
      assert (a + b)[..|a + b| - 1] == a + b[..|b| - 1];
    }
  }

  lemma StatusSetCounts(s: Store, id: nat, status: Status, now: int, cutoff: int)
    ensures CountAuto(WithStatusSet(s, id, status, now).items, cutoff)
         <= CountAuto(s.items, cutoff) + if status == AutoExecuted then 1 else 0
  {
    var i := IndexOf(s.items, id);
    if i < |s.items| {
      CountAfterUpdate(s.items, i, WithStatus(s.items[i], status, now), cutoff);
    }
  }

  lemma AddCounts(s: Store, raw: RawAction, now: int, cutoff: int)
    requires raw.status == Some(Pending)
    ensures CountAuto(WithAdded(s, raw, now).items, cutoff) <= CountAuto(s.items, cutoff)
  {
    var a := Added(s, raw, now);
    var all := s.items + [a];
    CountSplits(s.items, [a], cutoff);
    if |all| > s.capacity {
      var k := |all| - s.capacity;
      CountSplits(all[..k], all[k..], cutoff);
      assert all == all[..k] + all[k..];
    }
  }

  lemma {:induction false} StampAllCounts(s: Store, chosen: seq<Action>, stamps: seq<int>, cutoff: int)
    requires |chosen| == |stamps| && Valid(s)
    ensures var s' := StampAll(s, chosen, stamps);
            && CountAuto(s'.items, cutoff) <= CountAuto(s.items, cutoff) + |chosen|
            && Valid(s') && forall t: int :: After(s, t) ==> After(s', t)
  {
    if chosen != [] {
      var n := |chosen| - 1;
      var before := StampAll(s, chosen[..n], stamps[..n]);
      StampAllCounts(s, chosen[..n], stamps[..n], cutoff);
      StatusSetCounts(before, chosen[n].id, AutoExecuted, stamps[n], cutoff);
      StepKeepsValid(before, SetStatusOp(chosen[n].id, AutoExecuted, stamps[n]));
    }
  }

  // ----- Runs -----

  datatype Event =
    | Registered(request: Request, now: int)
    | ManuallyExecuted(id: nat, now: int)
    | Rejection(id: nat, now: int)
    | Applied(partialMode: bool, now: int, stamps: seq<int>)
    | OutcomeRecorded(delta: real, now: int)

  function Step(s: Auto, e: Event): Auto {
    match e
    case Registered(request, now) => s.(store := RegisterOne(s.store, request, now))
    case ManuallyExecuted(id, now) => s.(store := WithStatusSet(s.store, id, Executed, now))
    case Rejection(id, now) => s.(store := WithStatusSet(s.store, id, Rejected, now))
    case Applied(partialMode, now, stamps) => Apply(s, partialMode, now, stamps)
    case OutcomeRecorded(delta, now) => s.(policy := Recorded(s.policy, delta))
  }

  function Run(s: Auto, events: seq<Event>): Auto {
    if events == [] then s else Step(Run(s, events[..|events| - 1]), events[|events| - 1])
  }

  ghost function LastTime(events: seq<Event>, start: int): int {
    if events == [] then start else events[|events| - 1].now
  }

  ghost predicate ClockMoves(events: seq<Event>, start: int) {
    events != [] ==>
      && ClockMoves(events[..|events| - 1], start)
      && LastTime(events[..|events| - 1], start) < events[|events| - 1].now
  }

  ghost predicate Inv(s: Auto, now: int) {
    && Valid(s.store) && After(s.store, now + 1) && WithinLimits(s.policy)
    && CountAuto(s.store.items, now - DAY) <= 5
  }

  lemma StepKeepsInv(s: Auto, e: Event, now: int)
    requires Inv(s, now) && now < e.now
    ensures Inv(Step(s, e), e.now)
  {
    InvLater(s, now, e.now);
    match e
    case Registered(request, at) => RegisterKeepsInv(s, request, at);
    case ManuallyExecuted(id, at) => StatusSetKeepsInv(s, id, Executed, at);
    case Rejection(id, at) => StatusSetKeepsInv(s, id, Rejected, at);
    case Applied(partialMode, at, stamps) => ApplyKeepsInv(s, partialMode, at, stamps);
    case OutcomeRecorded(delta, at) => RecordedBounds(s.policy, delta);
  }

  lemma InvLater(s: Auto, now: int, later: int)
    requires Inv(s, now) && now < later
    ensures Inv(s, later) && After(s.store, later)
  {
    CountLater(s.store.items, now - DAY, later - DAY);
  }

  lemma RegisterKeepsInv(s: Auto, request: Request, at: int)
    requires Inv(s, at) && After(s.store, at)
    ensures Inv(s.(store := RegisterOne(s.store, request, at)), at)
  {
    if Registrable(s.store.items, request) {
      StepKeepsValid(s.store, AddOp(Raw(request), at));
      AddCounts(s.store, Raw(request), at, at - DAY);
    }
  }

  lemma StatusSetKeepsInv(s: Auto, id: nat, status: Status, at: int)
    requires Inv(s, at) && status != AutoExecuted
    ensures Inv(s.(store := WithStatusSet(s.store, id, status, at)), at)
  {
    StepKeepsValid(s.store, SetStatusOp(id, status, at));
    StatusSetCounts(s.store, id, status, at, at - DAY);
  }

  lemma ApplyKeepsInv(s: Auto, partialMode: bool, at: int, stamps: seq<int>)
    requires Inv(s, at)
    ensures Inv(Apply(s, partialMode, at, stamps), at)
  {
    var chosen := Chosen(s, at);
    if partialMode && |stamps| >= |chosen| {
      ChosenAreEligible(s, at);
      StampAllCounts(s.store, chosen, stamps[..|chosen|], at - DAY);
      AnyOutcomesWithinLimits(s.policy, Zeros(|chosen|));
    }
  }

  /** In every reachable state at most five actions were executed automatically in the trailing day,
      and the adaptive limits are in range. */
  lemma {:induction false} DailyBudgetHolds(capacity: nat, policy: Policy, events: seq<Event>, start: int)
    requires capacity >= 1 && WithinLimits(policy) && ClockMoves(events, start)
    ensures Inv(Run(Auto(Store([], [], capacity), policy), events), LastTime(events, start))
  {
    if events != [] {
      DailyBudgetHolds(capacity, policy, events[..|events| - 1], start);
      StepKeepsInv(Run(Auto(Store([], [], capacity), policy), events[..|events| - 1]), events[|events| - 1],
                   LastTime(events[..|events| - 1], start));
    }
  }

  function StatusOf(s: Store, id: nat): Option<Status> {
    var found := Find(s.items, id);
    if found.Some? then Some(found.value.status) else None
  }

  lemma {:induction false} OthersUntouched(s: Store, chosen: seq<Action>, stamps: seq<int>, id: nat)
    requires |chosen| == |stamps|
    ensures (forall a | a in chosen :: a.id != id) ==> Find(StampAll(s, chosen, stamps).items, id) == Find(s.items, id)
  {
    if chosen != [] {
      var n := |chosen| - 1;
      OthersUntouched(s, chosen[..n], stamps[..n], id);
      FindAfterSetStatus(StampAll(s, chosen[..n], stamps[..n]), chosen[n].id, AutoExecuted, stamps[n], id);
      if forall a | a in chosen :: a.id != id {
        forall a | a in chosen[..n] ensures a.id != id {
          assert a in chosen;
        }
        assert chosen[n] in chosen;
      }
    }
  }

  /** An application changes an action only if it was pending, of low risk and at or above the
      impact threshold; so nothing else is ever executed automatically. */
  lemma OnlyLowRiskAutoExecuted(s: Auto, partialMode: bool, now: int, stamps: seq<int>, id: nat)
    requires Valid(s.store)
    requires Find(Apply(s, partialMode, now, stamps).store.items, id) != Find(s.store.items, id)
    ensures partialMode && Find(s.store.items, id).Some?
    ensures var a := Find(s.store.items, id).value;
            && LowRiskPending(a, s.policy.impactThreshold)
            && (a.kind == PriceTest
                || (a.kind == Scale && 5 <= if a.sales.Some? then a.sales.value else a.salesInText))
            && (s.policy.impactThreshold > 6 ==> a.kind == Scale)
  {
    var chosen := Chosen(s, now);
    ChosenAreEligible(s, now);
    OthersUntouched(s.store, chosen, stamps[..|chosen|], id);
    var a :| a in chosen && a.id == id;
    ItemFound(s.store, a);
    var k :| 0 <= k < |s.store.items| && s.store.items[k] == a;
    ItemAt(s.store, k);
    LowRiskKinds(a);
  }

  lemma LowRiskKinds(a: Action)
    requires Normal(a) && a.risk == Low
    ensures (a.kind == PriceTest && a.impact == 6)
         || (a.kind == Scale && a.impact == 8 && 5 <= if a.sales.Some? then a.sales.value else a.salesInText)
  {
  }

  /** The action is automatically executed, stamped with this time, and otherwise as before. */
  ghost predicate StampedAt(before: Store, after: Store, id: nat, stamp: int) {
    var a, b := Find(before.items, id), Find(after.items, id);
    a.Some? && b == Some(a.value.(status := AutoExecuted, executedAt := Some(stamp)))
  }

  /** Every chosen action ends up automatically executed, stamped with the time of its execution. */
  lemma {:induction false} ChosenAreStamped(s: Store, chosen: seq<Action>, stamps: seq<int>, k: nat)
    requires |chosen| == |stamps| && Increasing(chosen) && k < |chosen|
    requires Find(s.items, chosen[k].id).Some?
    ensures StampedAt(s, StampAll(s, chosen, stamps), chosen[k].id, stamps[k])
    decreases |chosen|
  {
    var n := |chosen| - 1;
    if k < n {
      ChosenAreStamped(s, chosen[..n], stamps[..n], k);
      StampStays(s, StampAll(s, chosen[..n], stamps[..n]), chosen[k].id, stamps[k], chosen[n].id, stamps[n]);
    } else {
      LastUntouched(s, chosen, stamps);
      FindAfterSetStatus(StampAll(s, chosen[..n], stamps[..n]), chosen[n].id, AutoExecuted, stamps[n], chosen[n].id);
    }
  }

  lemma StampStays(s: Store, later: Store, id: nat, stamp: int, other: nat, now: int)
    requires StampedAt(s, later, id, stamp) && id != other
    ensures StampedAt(s, WithStatusSet(later, other, AutoExecuted, now), id, stamp)
  {
    FindAfterSetStatus(later, other, AutoExecuted, now, id);
  }

  /** Executing all but the last of distinct actions leaves the last as it was. */
  lemma LastUntouched(s: Store, chosen: seq<Action>, stamps: seq<int>)
    requires |chosen| == |stamps| > 0 && Increasing(chosen)
    ensures var n := |chosen| - 1;
            Find(StampAll(s, chosen[..n], stamps[..n]).items, chosen[n].id) == Find(s.items, chosen[n].id)
  {
    var n := |chosen| - 1;
    forall a | a in chosen[..n] ensures a.id != chosen[n].id {
      var i :| 0 <= i < n && chosen[i] == a;
    }
    OthersUntouched(s, chosen[..n], stamps[..n], chosen[n].id);
  }

  lemma ItemFound(s: Store, a: Action)
    requires Valid(s) && a in s.items
    ensures Find(s.items, a.id) == Some(a)
  {
    var k :| 0 <= k < |s.items| && s.items[k] == a;
    ItemsIncreasing(s);
    IndexUnique(s.items, a.id, k);
  }

  /** Each application executes the oldest eligible actions, as many as the budget leaves. */
  lemma ApplyExecutesOldest(s: Auto, now: int, eligible: seq<Action>)
    requires Valid(s.store) && eligible == EligibleActions(s.store.items, s.policy.impactThreshold)
    ensures var budget := Max(s.policy.maxAuto - CountAuto(s.store.items, now - DAY), 0);
            Chosen(s, now) == if |eligible| <= budget then eligible else eligible[..budget]
  {
    ItemsIncreasing(s.store);
    EligibleIncreasing(s.store.items, s.policy.impactThreshold);
    SortingIncreasing(eligible);
  }

  // ----- Which actions an application executes -----

  /** The positions before `n` of pending low-risk actions at or above the threshold. */
  function EligiblePositions(items: seq<Action>, impactThreshold: int, n: nat): set<nat> {
    set i: nat | i < n && i < |items| && items[i].status == Pending && items[i].risk == Low && items[i].impact >= impactThreshold
  }

  /** The positions of the actions executed automatically since the cutoff. */
  function AutoPositions(items: seq<Action>, cutoff: int): set<nat> {
    set i: nat | i < |items| && items[i].status == AutoExecuted
                 && items[i].executedAt.Some? && items[i].executedAt.value >= cutoff
  }

  lemma {:induction false} AutoCounted(items: seq<Action>, cutoff: int)
    ensures CountAuto(items, cutoff) == |AutoPositions(items, cutoff)|
  {
    if items == [] {
      assert AutoPositions(items, cutoff) == {};
    } else {
      var n := |items| - 1;
      AutoCounted(items[..n], cutoff);
      var earlier := AutoPositions(items[..n], cutoff);
      assert AutoPositions(items, cutoff) == if AutoSince(items[n], cutoff) then earlier + {n} else earlier;
    }
  }

  lemma {:induction false} EligibleCounted(items: seq<Action>, impactThreshold: int, n: nat)
    requires n <= |items|
    ensures |EligibleActions(items[..n], impactThreshold)| == |EligiblePositions(items, impactThreshold, n)|
  {
    if n == 0 {
      assert EligiblePositions(items, impactThreshold, n) == {};
    } else {
      EligibleCounted(items, impactThreshold, n - 1);
      assert items[..n][..n - 1] == items[..n - 1];
      var earlier := EligiblePositions(items, impactThreshold, n - 1);
      assert EligiblePositions(items, impactThreshold, n)
          == if LowRiskPending(items[n - 1], impactThreshold) then earlier + {n - 1} else earlier;
    }
  }

  /** An eligible action stands behind the eligible ones before it. */
  lemma {:induction false} EligibleStands(items: seq<Action>, impactThreshold: int, k: nat, n: nat)
    requires k < n <= |items| && LowRiskPending(items[k], impactThreshold)
    ensures var eligible, p := EligibleActions(items[..n], impactThreshold), |EligibleActions(items[..k], impactThreshold)|;
            p < |eligible| && eligible[p] == items[k]
  {
    assert items[..n][..n - 1] == items[..n - 1];
    if k < n - 1 {
      EligibleStands(items, impactThreshold, k, n - 1);
    }
  }

  lemma EligiblePlace(s: Store, impactThreshold: int, k: nat) returns (p: nat)
    requires Valid(s) && k < |s.items| && LowRiskPending(s.items[k], impactThreshold)
    ensures var eligible := EligibleActions(s.items, impactThreshold);
            Increasing(eligible) && p < |eligible| && eligible[p] == s.items[k]
    ensures p == |EligibleActions(s.items[..k], impactThreshold)|
  {
    p := |EligibleActions(s.items[..k], impactThreshold)|;
    ItemsIncreasing(s);
    EligibleIncreasing(s.items, impactThreshold);
    EligibleStands(s.items, impactThreshold, k, |s.items|);
    assert s.items[..|s.items|] == s.items;
  }

  /** An eligible action is chosen exactly when the eligible ones before it leave room. */
  lemma EligibleChosenIff(s: Auto, now: int, k: nat)
    requires Valid(s.store) && k < |s.store.items| && LowRiskPending(s.store.items[k], s.policy.impactThreshold)
    ensures s.store.items[k] in Chosen(s, now)
       <==> |EligibleActions(s.store.items[..k], s.policy.impactThreshold)| + CountAuto(s.store.items, now - DAY) < s.policy.maxAuto
  {
    var eligible := EligibleActions(s.store.items, s.policy.impactThreshold);
    var p := EligiblePlace(s.store, s.policy.impactThreshold, k);
    ApplyExecutesOldest(s, now, eligible);
    InPrefixIff(eligible, p, CountAuto(s.store.items, now - DAY), s.policy.maxAuto);
  }

  /** The report of an application names the executed actions in order. */
  lemma {:induction false} IdsAre(items: seq<Action>)
    ensures |Ids(items)| == |items| && forall i | 0 <= i < |items| :: Ids(items)[i] == items[i].id
  {
    if items != [] {
      IdsAre(items[..|items| - 1]);
    }
  }

  lemma OnlyEligibleChosen(s: Auto, now: int, a: Action)
    requires Valid(s.store) && a in Chosen(s, now)
    ensures LowRiskPending(a, s.policy.impactThreshold)
  {
    ChosenAreEligible(s, now);
  }

  /** An application executes exactly the pending low-risk actions at or above the impact threshold for which
      the older ones of that kind, and the automatic executions of the last 86400 seconds, leave room. */
  lemma ChosenIff(s: Auto, now: int, k: nat)
    requires Valid(s.store) && k < |s.store.items|
    ensures var a := s.store.items[k];
            a in Chosen(s, now) <==>
              && a.status == Pending && a.risk == Low && a.impact >= s.policy.impactThreshold
              && |EligiblePositions(s.store.items, s.policy.impactThreshold, k)|
                 + |AutoPositions(s.store.items, now - 86400)| < s.policy.maxAuto
  {
    AutoCounted(s.store.items, now - 86400);
    EligibleCounted(s.store.items, s.policy.impactThreshold, k);
    if LowRiskPending(s.store.items[k], s.policy.impactThreshold) {
      EligibleChosenIff(s, now, k);
    } else if s.store.items[k] in Chosen(s, now) {
      OnlyEligibleChosen(s, now, s.store.items[k]);
    }
  }

  lemma InPrefixIff(eligible: seq<Action>, p: nat, used: nat, allowed: int)
    requires Increasing(eligible) && p < |eligible|
    ensures var budget := Max(allowed - used, 0);
            eligible[p] in (if |eligible| <= budget then eligible else eligible[..budget]) <==> p + used < allowed
  {
    var budget := Max(allowed - used, 0);
    if budget < |eligible| && eligible[p] in eligible[..budget] {
      var i :| 0 <= i < budget && eligible[i] == eligible[p];
      assert i == p;
    }
  }

  /** Each executed action records one outcome without revenue; in any other mode nothing happens. */
  lemma ApplyRecords(s: Auto, partialMode: bool, now: int, stamps: seq<int>)
    requires |stamps| >= |Chosen(s, now)|
    ensures !partialMode ==> Apply(s, partialMode, now, stamps) == s
    ensures partialMode ==>
              Apply(s, partialMode, now, stamps).policy == RecordedAll(s.policy, seq(|Chosen(s, now)|, _ => 0.0))
  {
    assert Zeros(|Chosen(s, now)|) == seq(|Chosen(s, now)|, _ => 0.0);
  }
}
