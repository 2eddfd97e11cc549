// The in-process event bus with a cascade budget per trace.
module EventBus {
  import opened Common

  const HISTORY := 200

  /** An identifier is empty, only whitespace, or names something once stripped. */
  datatype Identifier = Empty | Whitespace | Named(stripped: string)

  datatype Event = Event(id: nat, traceId: Identifier, requestId: Identifier)

  const GLOBAL := "global"

  /** A whitespace trace id hides the request id and falls back to the global key. */
  function TraceKey(e: Event): string {
    var identifier := if e.traceId.Empty? then e.requestId else e.traceId;
    if identifier.Named? then identifier.stripped else GLOBAL
  }

  datatype Bus = Bus(queue: seq<Event>, history: seq<Event>, budget: map<string, nat>, limit: int)

  function BudgetOf(budget: map<string, nat>, key: string): nat {
    if key in budget then budget[key] else 0
  }

  function Accepts(b: Bus, e: Event): bool {
    BudgetOf(b.budget, TraceKey(e)) + 1 <= b.limit
  }

  /** Reading the counter creates it, so a refused event can leave a zero behind. */
  function Pushed(b: Bus, e: Event): Bus {
    var key := TraceKey(e);
    if Accepts(b, e)
    then Bus(b.queue + [e], Newest(b.history + [e], HISTORY), b.budget[key := BudgetOf(b.budget, key) + 1], b.limit)
    else b.(budget := b.budget[key := BudgetOf(b.budget, key)])
  }

  function Popped(b: Bus): Bus {
    if b.queue == [] then b
    else
      var key := TraceKey(b.queue[0]);
      var current := BudgetOf(b.budget, key);
      b.(queue := b.queue[1..],
         budget := if current <= 1 then b.budget - {key} else b.budget[key := current - 1])
  }

  /** How many of `events` belong to the trace. */
  function Queued(events: seq<Event>, key: string): nat {
    if events == [] then 0
    else Queued(events[..|events| - 1], key) + if TraceKey(events[|events| - 1]) == key then 1 else 0
  }

  // ----- Runs -----

  datatype Op = Push(e: Event) | Pop

  /** The bus together with everything it ever accepted and handed out. */
  datatype Trace = Trace(bus: Bus, accepted: seq<Event>, delivered: seq<Event>)

  function Step(t: Trace, op: Op): Trace {
    match op
    case Push(e) => Trace(Pushed(t.bus, e), if Accepts(t.bus, e) then t.accepted + [e] else t.accepted, t.delivered)
    case Pop =>
      Trace(Popped(t.bus), t.accepted,
            if t.bus.queue == [] then t.delivered else t.delivered + [t.bus.queue[0]])
  }

  function Run(limit: int, ops: seq<Op>): Trace {
    if ops == [] then Trace(Bus([], [], map[], limit), [], [])
    else Step(Run(limit, ops[..|ops| - 1]), ops[|ops| - 1])
  }

  ghost predicate Counted(b: Bus) {
    forall key: string :: BudgetOf(b.budget, key) == Queued(b.queue, key)
  }

  /** No counter of zero is stored. */
  ghost predicate Tidy(b: Bus) {
    forall key | key in b.budget :: b.budget[key] > 0
  }

  ghost predicate Bounded(b: Bus) {
    forall key: string :: Queued(b.queue, key) <= Max(b.limit, 0)
  }

  lemma QueuedAppend(events: seq<Event>, e: Event, key: string)
    ensures Queued(events + [e], key) == Queued(events, key) + if TraceKey(e) == key then 1 else 0
  {
    assert (events + [e])[..|events|] == events;
  }

  lemma {:induction false} QueuedTail(events: seq<Event>, key: string)
    requires events != []
    ensures Queued(events, key) == Queued(events[1..], key) + if TraceKey(events[0]) == key then 1 else 0
  {
    if |events| > 1 {
      QueuedTail(events[..|events| - 1], key);
      assert events[..|events| - 1][1..] == events[1..][..|events| - 2];
    } else {
      assert events[1..] == [] && events[..0] == [];
    }
  }

  lemma PushKeeps(b: Bus, e: Event)
    requires Counted(b) && Bounded(b)
    ensures Counted(Pushed(b, e)) && Bounded(Pushed(b, e))
    ensures Tidy(b) && b.limit >= 1 ==> Tidy(Pushed(b, e))
  {
    forall key: string
      ensures BudgetOf(Pushed(b, e).budget, key) == Queued(Pushed(b, e).queue, key) <= Max(b.limit, 0)
    {
      PushCounts(b, e, key);
    }
  }

  lemma PushCounts(b: Bus, e: Event, key: string)
    requires Counted(b) && Bounded(b)
    ensures BudgetOf(Pushed(b, e).budget, key) == Queued(Pushed(b, e).queue, key) <= Max(b.limit, 0)
  {
    assert BudgetOf(b.budget, key) == Queued(b.queue, key) <= Max(b.limit, 0);
    QueuedAppend(b.queue, e, key);
  }

  lemma PopKeeps(b: Bus)
    requires Counted(b) && Bounded(b)
    ensures Counted(Popped(b)) && Bounded(Popped(b))
    ensures Tidy(b) ==> Tidy(Popped(b))
  {
    if b.queue != [] {
      forall key: string
        ensures BudgetOf(Popped(b).budget, key) == Queued(Popped(b).queue, key) <= Max(b.limit, 0)
      {
        assert BudgetOf(b.budget, key) == Queued(b.queue, key);
        QueuedTail(b.queue, key);
      }
    }
  }

  /** After any run: each counter is the number of queued events of its trace and within the limit,
      events leave in the order they were accepted, and the history is the newest accepted events. */
  lemma {:induction false} BusIsFaithful(limit: int, ops: seq<Op>)
    ensures var t := Run(limit, ops);
            && t.bus.limit == limit && Faithful(t)
  {
    if ops != [] {
      var t, op := Run(limit, ops[..|ops| - 1]), ops[|ops| - 1];
      BusIsFaithful(limit, ops[..|ops| - 1]);
      StepKeepsFaithful(t, op);
    }
  }

  ghost predicate Faithful(t: Trace) {
    && Counted(t.bus) && Bounded(t.bus)
    && t.accepted == t.delivered + t.bus.queue
    && t.bus.history == Newest(t.accepted, HISTORY)
  }

  lemma StepKeepsFaithful(t: Trace, op: Op)
    requires Faithful(t)
    ensures Faithful(Step(t, op)) && Step(t, op).bus.limit == t.bus.limit
  {
    match op
    case Push(e) =>
      PushKeeps(t.bus, e);
      NewestAppend(t.accepted, e, HISTORY);
      assert t.delivered + (t.bus.queue + [e]) == t.accepted + [e];
    case Pop =>
      PopKeeps(t.bus);
  }

  /** An event is dropped exactly when its trace already has `limit` events queued. */
  lemma DroppedIff(limit: int, ops: seq<Op>, e: Event)
    ensures var t := Run(limit, ops);
            Step(t, Push(e)).accepted == t.accepted <==> Queued(t.bus.queue, TraceKey(e)) >= limit
  {
    BusIsFaithful(limit, ops);
    var t := Run(limit, ops);
    assert BudgetOf(t.bus.budget, TraceKey(e)) == Queued(t.bus.queue, TraceKey(e));
  }

  /** Events share a budget when they name the same trace; without a trace id the request id stands in for
      it, and what names nothing shares the global budget. */
  lemma BudgetKeyMeans(e: Event)
    ensures e.traceId.Named? ==> TraceKey(e) == e.traceId.stripped
    ensures e.traceId == Empty && e.requestId.Named? ==> TraceKey(e) == e.requestId.stripped
    ensures e.traceId == Whitespace || (e.traceId == Empty && !e.requestId.Named?) ==> TraceKey(e) == "global"
  {
  }

  /** The history is never longer than two hundred events, and complete until then. */
  lemma HistoryHoldsTwoHundred(limit: int, ops: seq<Op>)
    ensures var t := Run(limit, ops); |t.bus.history| == if |t.accepted| < 200 then |t.accepted| else 200
    ensures |Run(limit, ops).accepted| <= 200 ==> Run(limit, ops).bus.history == Run(limit, ops).accepted
  {
    BusIsFaithful(limit, ops);
  }

  /** After any run, what is read from the history is the newest ever accepted, up to the size of the history. */
  lemma RecentAreNewestAccepted(limit: int, ops: seq<Op>, events: seq<Event>, count: int)
    requires AreNewest(events, Run(limit, ops).bus.history, count)
    ensures AreNewest(events, Run(limit, ops).accepted, Min(count, HISTORY))
  {
    BusIsFaithful(limit, ops);
    NewestOfNewest(events, Run(limit, ops).accepted, count);
  }

  lemma NewestOfNewest(events: seq<Event>, all: seq<Event>, count: int)
    requires AreNewest(events, Newest(all, HISTORY), count)
    ensures AreNewest(events, all, Min(count, HISTORY))
  {
    var history := Newest(all, HISTORY);
    assert all[|all| - |history|..] == history;
    assert history[|history| - |events|..] == all[|all| - |events|..];
  }

  ghost predicate NeverPushed(ops: seq<Op>) {
    forall op | op in ops :: op.Pop?
  }

  /** No zero counter is ever stored exactly when the limit admits events at all. */
  lemma {:induction false} TidyIff(limit: int, ops: seq<Op>)
    ensures Tidy(Run(limit, ops).bus) <==> limit >= 1 || NeverPushed(ops)
  {
    if ops != [] {
      var t, op := Run(limit, ops[..|ops| - 1]), ops[|ops| - 1];
      TidyIff(limit, ops[..|ops| - 1]);
      BusIsFaithful(limit, ops[..|ops| - 1]);
      BusIsFaithful(limit, ops);
      assert ops == ops[..|ops| - 1] + [op];
      if limit >= 1 {
        match op {
          case Push(e) => PushKeeps(t.bus, e);
          case Pop => PopKeeps(t.bus);
        }
      } else if op.Push? {
        assert op in ops && TraceKey(op.e) in Run(limit, ops).bus.budget;
        EmptyQueue(limit, ops);
      } else {
        EmptyQueue(limit, ops[..|ops| - 1]);
        assert Run(limit, ops).bus == t.bus;
        assert NeverPushed(ops) <==> NeverPushed(ops[..|ops| - 1]);
      }
    }
  }

  lemma EmptyQueue(limit: int, ops: seq<Op>)
    requires limit < 1
    ensures var b := Run(limit, ops).bus;
            b.queue == [] && forall key | key in b.budget :: b.budget[key] == 0
  {
    BusIsFaithful(limit, ops);
    var b := Run(limit, ops).bus;
    if b.queue != [] {
      QueuedTail(b.queue, TraceKey(b.queue[0]));
      assert false;
    }
    forall key | key in b.budget ensures b.budget[key] == 0 {
      assert BudgetOf(b.budget, key) == Queued(b.queue, key);
    }
  }

  // ----- The bus as an object -----

  class CascadeBus {
    var queue: seq<Event>
    var history: seq<Event>
    var budget: map<string, nat>
    const limit: int

    constructor (limit: int)
      ensures State() == Run(limit, []).bus
    {
      this.limit := limit;
      queue, history, budget := [], [], map[];
    }

    ghost function State(): Bus
      reads this
    {
      Bus(queue, history, budget, limit)
    }

    method PushEvent(e: Event)
      modifies this
      ensures State() == Pushed(old(State()), e)
    {
      var key := TraceKey(e);
      if key !in budget {
        budget := budget[key := 0];
      }
      var next := budget[key] + 1;
      if next > limit {
        return;
      }
      budget := budget[key := next];
      queue := queue + [e];
      history := Newest(history + [e], HISTORY);
    }

    method PopEvent() returns (e: Option<Event>)
      modifies this
      ensures State() == Popped(old(State()))
      ensures e == if old(queue) == [] then None else Some(old(queue)[0])
    {
      if queue == [] {
        return None;
      }
      var first := queue[0];
      queue := queue[1..];
      var key := TraceKey(first);
      var current := BudgetOf(budget, key);
      if current <= 1 {
        budget := budget - {key};
      } else {
        budget := budget[key := current - 1];
      }
      e := Some(first);
    }

    method Recent(count: int) returns (events: seq<Event>)
      ensures AreNewest(events, history, count)
    {
      if count <= 0 {
        return [];
      }
      events := if |history| <= count then history else history[|history| - count..];
    }
  }
}
