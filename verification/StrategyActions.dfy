// The strategy action store: a bounded deque written through to a table.
module StrategyActions {
  import opened Common

  datatype ActionType =
    | Scale | Review | PriceTest | NewProduct | Archive
    | DraftAsset | QueueOpenclawTask | ExternalPublish | ExternalPriceUpdate

  datatype Status = Pending | Executed | AutoExecuted | Completed | Failed | Rejected

  datatype Risk = Low | Medium | High

  /** `salesInText` is the number the reasoning text mentions in front of the word "sales". */
  datatype Action = Action(
    id: nat,
    kind: ActionType,
    target: string,
    reasoning: string,
    salesInText: nat,
    status: Status,
    createdAt: int,
    executedAt: Option<int>,
    sales: Option<nat>,
    risk: Risk,
    impact: int)

  /** An item before normalisation: a missing or unknown field is None. */
  datatype RawAction = RawAction(
    id: Option<nat>,
    kind: Option<ActionType>,
    target: string,
    reasoning: string,
    salesInText: nat,
    status: Option<Status>,
    createdAt: Option<int>,
    executedAt: Option<int>,
    sales: Option<int>)

  // ----- Normalisation -----

  function Evaluate(kind: ActionType, sales: nat): (Risk, int) {
    match kind
    case Scale => if sales >= 5 then (Low, 8) else (Medium, 5)
    case PriceTest => (Low, 6)
    case Review => (Medium, 5)
    case NewProduct => (Medium, 7)
    case Archive => (High, 4)
    case _ => (Medium, 5)
  }

  function Normalise(raw: RawAction, nextId: nat, now: int): Action {
    var kind := if raw.kind.Some? then raw.kind.value else Review;
    var status := if raw.status.Some? then raw.status.value else Pending;
    var sales: Option<nat> := if raw.sales.Some? then Some(Max(raw.sales.value, 0)) else None;
    var (risk, impact) := Evaluate(kind, if sales.Some? then sales.value else raw.salesInText);
    Action(if raw.id.Some? then raw.id.value else nextId, kind, raw.target, raw.reasoning, raw.salesInText,
           status, if raw.createdAt.Some? then raw.createdAt.value else now, raw.executedAt, sales, risk, impact)
  }

  /** What the table's payload column holds. */
  function Payload(a: Action): RawAction {
    RawAction(Some(a.id), Some(a.kind), a.target, a.reasoning, a.salesInText, Some(a.status),
              Some(a.createdAt), a.executedAt, if a.sales.Some? then Some(a.sales.value) else None)
  }

  ghost predicate Normal(a: Action) {
    (a.risk, a.impact) == Evaluate(a.kind, if a.sales.Some? then a.sales.value else a.salesInText)
  }

  /** Normalising a stored item again, at any later time, gives it back. */
  lemma NormaliseIdempotent(raw: RawAction, nextId: nat, now: int, nextId': nat, now': int)
    ensures var a := Normalise(raw, nextId, now); Normal(a) && Normalise(Payload(a), nextId', now') == a
  {
  }

  /** The risk and the impact of each kind of action; only scaling looks at sales. */
  lemma EvaluationIs(kind: ActionType, sales: nat)
    ensures var (risk, impact) := Evaluate(kind, sales);
            && (risk == Low <==> kind == PriceTest || (kind == Scale && sales >= 5))
            && (risk == High <==> kind == Archive)
            && (impact == 8 <==> kind == Scale && sales >= 5)
            && (impact == 7 <==> kind == NewProduct)
            && (impact == 6 <==> kind == PriceTest)
            && (impact == 4 <==> kind == Archive)
            && (impact !in {4, 6, 7, 8} ==> impact == 5)
  {
  }

  /** What normalising fills in, what it corrects, and what it keeps. */
  lemma NormalisedFields(raw: RawAction, nextId: nat, now: int)
    ensures var a := Normalise(raw, nextId, now);
            && a.target == raw.target && a.reasoning == raw.reasoning && a.salesInText == raw.salesInText
            && a.executedAt == raw.executedAt
            && (if raw.id == None then a.id == nextId else Some(a.id) == raw.id)
            && (if raw.kind == None then a.kind == Review else Some(a.kind) == raw.kind)
            && (if raw.status == None then a.status == Pending else Some(a.status) == raw.status)
            && (if raw.createdAt == None then a.createdAt == now else Some(a.createdAt) == raw.createdAt)
            && (a.sales == None <==> raw.sales == None)
            && (raw.sales.Some? ==> a.sales.value == if raw.sales.value < 0 then 0 else raw.sales.value)
            && (a.risk, a.impact) == Evaluate(a.kind, if a.sales == None then raw.salesInText else a.sales.value)
  {
  }

  // ----- The store as a value -----

  datatype Store = Store(items: seq<Action>, table: seq<Action>, capacity: nat)

  function MaxId(items: seq<Action>): nat {
    if items == [] then 0 else Max(MaxId(items[..|items| - 1]), items[|items| - 1].id)
  }

  /** The position of the first item with this id, or the length. */
  function IndexOf(items: seq<Action>, id: nat): (i: nat)
    ensures i <= |items| && (i < |items| ==> items[i].id == id)
    ensures forall j | 0 <= j < i :: items[j].id != id
  {
    if items == [] then 0 else if items[0].id == id then 0 else 1 + IndexOf(items[1..], id)
  }

  function Find(items: seq<Action>, id: nat): Option<Action> {
    var i := IndexOf(items, id);
    if i < |items| then Some(items[i]) else None
  }

  /** The item found is the first with this id, and none is found exactly when there is none. */
  lemma FindIff(items: seq<Action>, id: nat)
    ensures Find(items, id) == None <==> forall a | a in items :: a.id != id
    ensures forall a :: Find(items, id) == Some(a)
              <==> exists k | 0 <= k < |items| :: items[k] == a && a.id == id && forall j | 0 <= j < k :: items[j].id != id
  {
    var i := IndexOf(items, id);
    if i < |items| {
      assert items[i] in items;
    }
  }

  /** Only an execution stamps the action; nothing but its status and that stamp changes. */
  lemma StatusMeans(a: Action, status: Status, now: int)
    ensures WithStatus(a, status, now)
         == a.(status := status, executedAt := if status in {Executed, AutoExecuted} then Some(now) else a.executedAt)
  {
  }

  function Upsert(table: seq<Action>, a: Action): seq<Action> {
    var i := IndexOf(table, a.id);
    if i < |table| then table[i := a] else table + [a]
  }

  function Added(s: Store, raw: RawAction, now: int): Action {
    Normalise(raw.(id := Some(MaxId(s.items) + 1), createdAt := Some(now)), 0, now)
  }

  function WithAdded(s: Store, raw: RawAction, now: int): Store {
    var a := Added(s, raw, now);
    Store(Newest(s.items + [a], s.capacity), Upsert(s.table, a), s.capacity)
  }

  function WithStatus(a: Action, status: Status, now: int): Action {
    if status == Executed || status == AutoExecuted then a.(status := status, executedAt := Some(now))
    else a.(status := status)
  }

  /** Unknown ids raise and change nothing. */
  function WithStatusSet(s: Store, id: nat, status: Status, now: int): Store {
    var i := IndexOf(s.items, id);
    if i == |s.items| then s
    else
      var a := WithStatus(s.items[i], status, now);
      Store(s.items[i := a], Upsert(s.table, a), s.capacity)
  }

  function ByCreation(a: Action, sorted: seq<Action>): seq<Action> {
    if sorted == [] || sorted[|sorted| - 1].createdAt <= a.createdAt then sorted + [a]
    else ByCreation(a, sorted[..|sorted| - 1]) + [sorted[|sorted| - 1]]
  }

  function SortedByCreation(table: seq<Action>): seq<Action> {
    if table == [] then []
    else ByCreation(table[|table| - 1], SortedByCreation(table[..|table| - 1]))
  }

  function Renormalised(table: seq<Action>, now: int): seq<Action> {
    if table == [] then []
    else Renormalised(table[..|table| - 1], now) + [Normalise(Payload(table[|table| - 1]), 0, now)]
  }

  /** A fresh store opened on an existing table. */
  function Restarted(table: seq<Action>, capacity: nat, now: int): Store {
    Store(Newest(Renormalised(SortedByCreation(table), now), capacity), table, capacity)
  }

  // ----- The invariant -----

  ghost predicate Increasing(table: seq<Action>) {
    forall i, j | 0 <= i < j < |table| :: table[i].id < table[j].id && table[i].createdAt < table[j].createdAt
  }

  ghost predicate Valid(s: Store) {
    && s.capacity >= 1
    && Increasing(s.table)
    && s.items == Newest(s.table, s.capacity)
    && forall a | a in s.table :: Normal(a) && a.id >= 1
  }

  ghost predicate After(s: Store, now: int) {
    forall a | a in s.table :: a.createdAt < now
  }

  lemma {:induction false} MaxIdBounds(items: seq<Action>)
    ensures forall a | a in items :: a.id <= MaxId(items)
    ensures items != [] ==> exists a | a in items :: a.id == MaxId(items)
    ensures items == [] ==> MaxId(items) == 0
  {
    if items != [] {
      MaxIdBounds(items[..|items| - 1]);
      var last := items[|items| - 1];
      assert items == items[..|items| - 1] + [last];
      assert last in items;
    }
  }

  /** Memory is a suffix of the table, position by position. */
  lemma ItemAt(s: Store, i: nat)
    requires Valid(s) && i < |s.items|
    ensures |s.items| <= |s.table| && s.items[i] == s.table[i + |s.table| - |s.items|] && s.items[i] in s.table
  {
  }

  lemma ItemsIncreasing(s: Store)
    requires Valid(s)
    ensures Increasing(s.items)
  {
    forall i, j | 0 <= i < j < |s.items|
      ensures s.items[i].id < s.items[j].id && s.items[i].createdAt < s.items[j].createdAt
    {
      ItemAt(s, i);
      ItemAt(s, j);
    }
  }

  lemma FreshId(s: Store)
    requires Valid(s)
    ensures forall b | b in s.table :: b.id <= MaxId(s.items)
  {
    MaxIdBounds(s.items);
    if s.table != [] {
      ItemAt(s, |s.items| - 1);
      assert s.items[|s.items| - 1] in s.items;
      LastIsGreatest(s.table);
    }
  }

  lemma LastIsGreatest(table: seq<Action>)
    requires Increasing(table) && table != []
    ensures forall b | b in table :: b.id <= table[|table| - 1].id
  {
    forall b | b in table ensures b.id <= table[|table| - 1].id {
      var k :| 0 <= k < |table| && table[k] == b;
    }
  }

  lemma UpsertFresh(table: seq<Action>, a: Action)
    requires forall i | 0 <= i < |table| :: table[i].id != a.id
    ensures Upsert(table, a) == table + [a]
  {
  }

  /** Ids grow over the whole history, so a new action never overwrites an evicted one. */
  lemma AddGrowsTable(s: Store, raw: RawAction, now: int)
    requires Valid(s) && After(s, now)
    ensures var a := Added(s, raw, now);
            && WithAdded(s, raw, now).table == s.table + [a]
            && (forall b | b in s.table :: b.id < a.id)
            && Valid(WithAdded(s, raw, now))
  {
    var a := Added(s, raw, now);
    FreshId(s);
    forall i | 0 <= i < |s.table| ensures s.table[i].id < a.id {
      assert s.table[i] in s.table;
    }
    UpsertFresh(s.table, a);
    NewestAppend(s.table, a, s.capacity);
    var table := s.table + [a];
    forall i, j | 0 <= i < j < |table| ensures table[i].id < table[j].id && table[i].createdAt < table[j].createdAt {
      assert table[i] in s.table;
    }
  }

  lemma IndexUnique(table: seq<Action>, id: nat, k: nat)
    requires Increasing(table) && k < |table| && table[k].id == id
    ensures IndexOf(table, id) == k
  {
    var i := IndexOf(table, id);
    assert i <= k && table[i].id == table[k].id;
  }

  lemma {:induction false} SameIds(a: seq<Action>, b: seq<Action>, id: nat)
    requires |a| == |b| && forall i | 0 <= i < |a| :: a[i].id == b[i].id
    ensures IndexOf(a, id) == IndexOf(b, id)
  {
    if a != [] {
      SameIds(a[1..], b[1..], id);
    }
  }

  /** A status change replaces one row, in memory and in the table alike. */
  lemma SetStatusForm(s: Store, id: nat, status: Status, now: int) returns (k: nat)
    requires Increasing(s.table) && s.items == Newest(s.table, s.capacity) && IndexOf(s.items, id) < |s.items|
    ensures k < |s.table| && s.table[k] == s.items[IndexOf(s.items, id)] && s.table[k].id == id
    ensures var table := s.table[k := WithStatus(s.table[k], status, now)];
            WithStatusSet(s, id, status, now) == Store(Newest(table, s.capacity), table, s.capacity)
  {
    var i := IndexOf(s.items, id);
    k := i + |s.table| - |s.items|;
    assert s.table[k] == s.items[i];
    var a := WithStatus(s.items[i], status, now);
    SetStatusUnfolds(s, i, status, now);
    RowReplaced(s.table, s.capacity, i, k, a);
  }

  lemma SetStatusUnfolds(s: Store, i: nat, status: Status, now: int)
    requires i < |s.items| && IndexOf(s.items, s.items[i].id) == i
    ensures var a := WithStatus(s.items[i], status, now);
            WithStatusSet(s, s.items[i].id, status, now) == Store(s.items[i := a], Upsert(s.table, a), s.capacity)
  {
  }

  /** Replacing a row by one with the same id, in memory and in the table. */
  lemma RowReplaced(table: seq<Action>, capacity: nat, i: nat, k: nat, a: Action)
    requires Increasing(table) && i < |Newest(table, capacity)|
    requires k == i + |table| - |Newest(table, capacity)| && k < |table| && table[k].id == a.id
    ensures Upsert(table, a) == table[k := a]
    ensures Newest(table, capacity)[i := a] == Newest(table[k := a], capacity)
  {
    UpsertAt(table, k, a);
    NewestUpdate(table, capacity, i, k, a);
  }

  lemma UpsertAt(table: seq<Action>, k: nat, a: Action)
    requires Increasing(table) && k < |table| && table[k].id == a.id
    ensures Upsert(table, a) == table[k := a]
  {
    IndexUnique(table, a.id, k);
  }

  lemma NewestUpdate(table: seq<Action>, capacity: nat, i: nat, k: nat, a: Action)
    requires i < |Newest(table, capacity)| && k == i + |table| - |Newest(table, capacity)|
    ensures Newest(table[k := a], capacity) == Newest(table, capacity)[i := a]
  {
  }

  lemma ReplacedRowNormal(table: seq<Action>, k: nat, status: Status, now: int)
    requires k < |table| && Increasing(table) && forall a | a in table :: Normal(a) && a.id >= 1
    ensures var table' := table[k := WithStatus(table[k], status, now)];
            Increasing(table') && forall a | a in table' :: Normal(a) && a.id >= 1
  {
    var table' := table[k := WithStatus(table[k], status, now)];
    assert forall i | 0 <= i < |table| :: table[i] in table;
    assert forall i | 0 <= i < |table| :: table'[i].id == table[i].id && table'[i].createdAt == table[i].createdAt;
  }

  lemma SetStatusKeepsValid(s: Store, id: nat, status: Status, now: int)
    requires Valid(s)
    ensures var s' := WithStatusSet(s, id, status, now);
            && Valid(s') && |s'.table| == |s.table| && s'.capacity == s.capacity
            && (forall i | 0 <= i < |s.table| ::
                  s'.table[i].id == s.table[i].id
                  && (s.table[i].id != id ==> s'.table[i] == s.table[i]))
  {
    if IndexOf(s.items, id) < |s.items| {
      var k := SetStatusForm(s, id, status, now);
      ReplacedRowNormal(s.table, k, status, now);
    }
  }

  lemma SetStatusKeepsTimes(s: Store, id: nat, status: Status, now: int, t: int)
    requires Valid(s) && After(s, t)
    ensures After(WithStatusSet(s, id, status, now), t)
  {
    if IndexOf(s.items, id) < |s.items| {
      var k := SetStatusForm(s, id, status, now);
      assert s.table[k] in s.table;
    }
  }

  /** Looking an action up after a status change: only the named one differs. */
  lemma FindAfterSetStatus(s: Store, id: nat, status: Status, now: int, other: nat)
    ensures Find(WithStatusSet(s, id, status, now).items, other)
         == if other == id && Find(s.items, id).Some?
            then Some(WithStatus(Find(s.items, id).value, status, now)) else Find(s.items, other)
  {
    var i := IndexOf(s.items, id);
    if i < |s.items| {
      SameIds(s.items, WithStatusSet(s, id, status, now).items, other);
    }
  }

  ghost predicate InCreationOrder(items: seq<Action>) {
    forall i, j | 0 <= i < j < |items| :: items[i].createdAt <= items[j].createdAt
  }

  lemma AppendKeepsOrder(sorted: seq<Action>, a: Action)
    requires InCreationOrder(sorted) && forall b | b in sorted :: b.createdAt <= a.createdAt
    ensures InCreationOrder(sorted + [a])
  {
    var all := sorted + [a];
    forall i, j | 0 <= i < j < |all| ensures all[i].createdAt <= all[j].createdAt {
      assert all[i] == sorted[i] && sorted[i] in sorted;
    }
  }

  lemma LastIsLatest(sorted: seq<Action>)
    requires InCreationOrder(sorted) && sorted != []
    ensures forall b | b in sorted :: b.createdAt <= sorted[|sorted| - 1].createdAt
  {
    forall b | b in sorted ensures b.createdAt <= sorted[|sorted| - 1].createdAt {
      var k :| 0 <= k < |sorted| && sorted[k] == b;
    }
  }

  lemma {:induction false} InsertedItems(a: Action, sorted: seq<Action>)
    ensures multiset(ByCreation(a, sorted)) == multiset(sorted) + multiset{a}
    ensures forall b :: b in ByCreation(a, sorted) <==> b == a || b in sorted
  {
    var n := |sorted| - 1;
    if sorted != [] && sorted[n].createdAt > a.createdAt {
      InsertedItems(a, sorted[..n]);
      assert sorted == sorted[..n] + [sorted[n]];
    }
  }

  lemma {:induction false} InsertKeepsOrder(a: Action, sorted: seq<Action>)
    requires InCreationOrder(sorted)
    ensures InCreationOrder(ByCreation(a, sorted))
  {
    var n := |sorted| - 1;
    if sorted != [] {
      LastIsLatest(sorted);
    }
    if sorted != [] && sorted[n].createdAt > a.createdAt {
      InsertKeepsOrder(a, sorted[..n]);
      InsertedItems(a, sorted[..n]);
      AppendKeepsOrder(ByCreation(a, sorted[..n]), sorted[n]);
    } else {
      AppendKeepsOrder(sorted, a);
    }
  }

  /** A store is opened on the rows of its table, each once, in the order of their creation. */
  lemma {:induction false} RowsSorted(table: seq<Action>)
    ensures InCreationOrder(SortedByCreation(table)) && multiset(SortedByCreation(table)) == multiset(table)
  {
    if table != [] {
      var n := |table| - 1;
      RowsSorted(table[..n]);
      InsertKeepsOrder(table[n], SortedByCreation(table[..n]));
      InsertedItems(table[n], SortedByCreation(table[..n]));
      assert table == table[..n] + [table[n]];
    }
  }

  lemma {:induction false} RowsRenormalised(table: seq<Action>, now: int, i: nat)
    requires i < |table|
    ensures |Renormalised(table, now)| == |table|
    ensures Renormalised(table, now)[i] == Normalise(Payload(table[i]), 0, now)
  {
    var n := |table| - 1;
    if i < n {
      RowsRenormalised(table[..n], now, i);
    } else if n > 0 {
      RowsRenormalised(table[..n], now, 0);
    }
  }

  lemma {:induction false} SortingIncreasing(table: seq<Action>)
    requires Increasing(table)
    ensures SortedByCreation(table) == table
  {
    if table != [] {
      var n := |table| - 1;
      SortingIncreasing(table[..n]);
      assert n > 0 ==> table[..n][n - 1].createdAt < table[n].createdAt;
      assert table == table[..n] + [table[n]];
    }
  }

  lemma {:induction false} RenormalisingNormal(table: seq<Action>, now: int)
    requires forall a | a in table :: Normal(a)
    ensures Renormalised(table, now) == table
  {
    if table != [] {
      forall a | a in table[..|table| - 1] ensures Normal(a) {
        assert a in table;
      }
      RenormalisingNormal(table[..|table| - 1], now);
      assert table[|table| - 1] in table;
    }
  }

  /** A restart recovers exactly the store that wrote the table. */
  lemma RestartRecovers(s: Store, now: int)
    requires Valid(s)
    ensures Restarted(s.table, s.capacity, now) == s
  {
    SortingIncreasing(s.table);
    RenormalisingNormal(s.table, now);
  }

  // ----- Runs -----

  datatype Op = AddOp(raw: RawAction, now: int) | SetStatusOp(id: nat, status: Status, now: int)

  function Step(s: Store, op: Op): Store {
    match op
    case AddOp(raw, now) => WithAdded(s, raw, now)
    case SetStatusOp(id, status, now) => WithStatusSet(s, id, status, now)
  }

  function Run(s: Store, ops: seq<Op>): Store {
    if ops == [] then s else Step(Run(s, ops[..|ops| - 1]), ops[|ops| - 1])
  }

  /** The last creation time in `ops`, or `start`. */
  ghost function LastCreation(ops: seq<Op>, start: int): int {
    if ops == [] then start
    else match ops[|ops| - 1]
         case AddOp(_, now) => now
         case SetStatusOp(_, _, _) => LastCreation(ops[..|ops| - 1], start)
  }

  ghost predicate CreationsIncrease(ops: seq<Op>, start: int) {
    ops != [] ==>
      && CreationsIncrease(ops[..|ops| - 1], start)
      && (ops[|ops| - 1].AddOp? ==> LastCreation(ops[..|ops| - 1], start) < ops[|ops| - 1].now)
  }

  lemma StepKeepsValid(s: Store, op: Op)
    requires Valid(s) && (op.AddOp? ==> After(s, op.now))
    ensures Valid(Step(s, op)) && Step(s, op).capacity == s.capacity
    ensures |Step(s, op).table| == |s.table| + if op.AddOp? then 1 else 0
    ensures forall t: int :: After(s, t) && (op.AddOp? ==> op.now < t) ==> After(Step(s, op), t)
  {
    match op
    case AddOp(raw, at) => AddGrowsTable(s, raw, at);
    case SetStatusOp(id, status, at) =>
      SetStatusKeepsValid(s, id, status, at);
      forall t: int | After(s, t) ensures After(Step(s, op), t) {
        SetStatusKeepsTimes(s, id, status, at, t);
      }
  }

  /** After any run, memory is the newest part of the table, the table keeps every action ever
      added in order, and a restart yields the same store. */
  lemma {:induction false} RunsStayRecoverable(capacity: nat, ops: seq<Op>, start: int, now: int)
    requires capacity >= 1 && CreationsIncrease(ops, start)
    ensures var s := Run(Store([], [], capacity), ops);
            && Valid(s) && After(s, LastCreation(ops, start) + 1)
            && s.items == Newest(s.table, capacity)
            && |s.table| == Additions(ops)
            && Restarted(s.table, capacity, now) == s
  {
    var empty := Store([], [], capacity);
    if ops != [] {
      var before, op := Run(empty, ops[..|ops| - 1]), ops[|ops| - 1];
      RunsStayRecoverable(capacity, ops[..|ops| - 1], start, now);
      StepKeepsValid(before, op);
    }
    CapacityFixed(empty, ops);
    RestartRecovers(Run(empty, ops), now);
  }

  lemma {:induction false} CapacityFixed(s: Store, ops: seq<Op>)
    ensures Run(s, ops).capacity == s.capacity
  {
    if ops != [] {
      CapacityFixed(s, ops[..|ops| - 1]);
    }
  }

  ghost function Additions(ops: seq<Op>): nat {
    if ops == [] then 0
    else Additions(ops[..|ops| - 1]) + if ops[|ops| - 1].AddOp? then 1 else 0
  }

  /** With capacity zero every action gets the same id and overwrites the one before. */
  lemma {:induction false} CapacityZeroOverwrites(ops: seq<Op>)
    ensures var s := Run(Store([], [], 0), ops);
            && s.items == [] && |s.table| <= 1 && (Additions(ops) > 0 <==> |s.table| == 1)
            && forall a | a in s.table :: a.id == 1
  {
    if ops != [] {
      CapacityZeroOverwrites(ops[..|ops| - 1]);
      var before, op := Run(Store([], [], 0), ops[..|ops| - 1]), ops[|ops| - 1];
      if op.AddOp? {
        var a := Added(before, op.raw, op.now);
        assert Newest(before.items + [a], 0) == [];
        assert IndexOf(before.table, 1) == 0;
      }
      CapacityFixed(Store([], [], 0), ops);
    }
  }

  // ----- Registering recommended actions -----

  datatype KindText = Blank | Unknown | Known(kind: ActionType)

  datatype Request = Request(kind: KindText, target: string, reasoning: string, salesInText: nat, sales: Option<int>)

  predicate Matches(a: Action, kind: ActionType, target: string, reasoning: string) {
    a.kind == kind && a.target == target && a.reasoning == reasoning && a.status == Pending
  }

  /** The newest pending match; an unknown kind never equals a stored one. */
  function FindPending(items: seq<Action>, r: Request): (found: Option<Action>)
    ensures found.Some? <==> r.kind.Known? && exists a | a in items :: Matches(a, r.kind.kind, r.target, r.reasoning)
    ensures found.Some? ==> found.value in items && Matches(found.value, r.kind.kind, r.target, r.reasoning)
  {
    if items == [] then None
    else if r.kind.Known? && Matches(items[|items| - 1], r.kind.kind, r.target, r.reasoning)
    then Some(items[|items| - 1])
    else
      assert items == items[..|items| - 1] + [items[|items| - 1]];
      FindPending(items[..|items| - 1], r)
  }

  function Raw(r: Request): RawAction {
    RawAction(None, if r.kind.Known? then Some(r.kind.kind) else None, r.target, r.reasoning, r.salesInText,
              Some(Pending), None, None, r.sales)
  }

  predicate Registrable(items: seq<Action>, r: Request) {
    !r.kind.Blank? && r.target != "" && r.reasoning != "" && FindPending(items, r).None?
  }

  function RegisterOne(s: Store, r: Request, now: int): Store {
    if Registrable(s.items, r) then WithAdded(s, Raw(r), now) else s
  }

  function RegisterAll(s: Store, rs: seq<Request>, times: seq<int>): Store
    requires |rs| == |times|
  {
    if rs == [] then s
    else RegisterOne(RegisterAll(s, rs[..|rs| - 1], times[..|rs| - 1]), rs[|rs| - 1], times[|rs| - 1])
  }

  /** A request is registered exactly when it names a kind, has a target and a reason, and is not already
      pending in memory under a known kind. */
  lemma RegistrableIff(items: seq<Action>, r: Request)
    ensures Registrable(items, r) <==>
              && r.kind != Blank && r.target != "" && r.reasoning != ""
              && (forall a | a in items && r.kind == Known(a.kind) && a.target == r.target && a.reasoning == r.reasoning ::
                    a.status != Pending)
  {
    if FindPending(items, r).None? && r.kind.Known? {
      forall a | a in items && r.kind == Known(a.kind) && a.target == r.target && a.reasoning == r.reasoning
        ensures a.status != Pending
      {
        assert !Matches(a, r.kind.kind, r.target, r.reasoning);
      }
    }
  }

  /** What a registered request becomes: pending, created now, never executed, an unknown kind a review, and
      its id above every id in memory. */
  lemma RegisteredFields(s: Store, r: Request, now: int)
    requires s.capacity >= 1 && Registrable(s.items, r)
    ensures var items := RegisterOne(s, r, now).items;
            && items != []
            && var a := items[|items| - 1];
            && a.target == r.target && a.reasoning == r.reasoning && a.salesInText == r.salesInText
            && a.status == Pending && a.createdAt == now && a.executedAt == None
            && a.kind == (if r.kind == Unknown then Review else r.kind.kind)
            && (a.sales == None <==> r.sales == None)
            && (r.sales.Some? ==> a.sales.value == if r.sales.value < 0 then 0 else r.sales.value)
            && (a.risk, a.impact) == Evaluate(a.kind, if a.sales == None then r.salesInText else a.sales.value)
            && forall b | b in s.items :: b.id < a.id
  {
    var a := Added(s, Raw(r), now);
    var items := RegisterOne(s, r, now).items;
    MaxIdBounds(s.items);
    assert items[|items| - 1] == a;
  }

  /** The pending action found is the newest that matches. */
  lemma {:induction false} NewestPendingFound(items: seq<Action>, r: Request) returns (k: nat)
    requires FindPending(items, r).Some?
    ensures k < |items| && FindPending(items, r) == Some(items[k])
    ensures r.kind == Known(items[k].kind) && items[k].target == r.target && items[k].reasoning == r.reasoning
            && items[k].status == Pending
    ensures forall j | k < j < |items| :: !Matches(items[j], items[k].kind, r.target, r.reasoning)
  {
    var n := |items| - 1;
    if r.kind.Known? && Matches(items[n], r.kind.kind, r.target, r.reasoning) {
      k := n;
    } else {
      k := NewestPendingFound(items[..n], r);
      assert forall j | 0 <= j < n :: items[..n][j] == items[j];
    }
  }

  ghost predicate SamePending(a: Action, b: Action) {
    Matches(a, b.kind, b.target, b.reasoning) && b.status == Pending
  }

  ghost predicate NoDuplicatePending(items: seq<Action>) {
    forall i, j | 0 <= i < j < |items| :: !SamePending(items[i], items[j])
  }

  /** Registering duplicates a pending action exactly when an unknown kind falls back to a review
      that is still pending in memory. */
  lemma RegisterDuplicatesIff(s: Store, r: Request, now: int)
    requires s.capacity >= 1 && |s.items| <= s.capacity && NoDuplicatePending(s.items)
    ensures var s' := RegisterOne(s, r, now);
            NoDuplicatePending(s'.items) <==>
              !(Registrable(s.items, r) && r.kind.Unknown?
                && exists a | a in Newest(s.items, s.capacity - 1) :: Matches(a, Review, r.target, r.reasoning))
  {
    if Registrable(s.items, r) {
      var a, kept := Added(s, Raw(r), now), Newest(s.items, s.capacity - 1);
      var items := RegisterOne(s, r, now).items;
      assert items == kept + [a];
      var shift := |s.items| - |kept|;
      forall i, j | 0 <= i < j < |kept| ensures !SamePending(kept[i], kept[j]) {
        assert !SamePending(s.items[i + shift], s.items[j + shift]);
      }
      if NoDuplicatePending(items) {
        forall b | b in kept ensures !Matches(b, a.kind, r.target, r.reasoning) {
          var i :| 0 <= i < |kept| && kept[i] == b;
          assert items[i] == b && items[|kept|] == a;
          assert !SamePending(items[i], items[|kept|]);
        }
      } else {
        var i, j :| 0 <= i < j < |items| && SamePending(items[i], items[j]);
        assert j == |kept| && kept[i] in kept && kept[i] in s.items;
      }
    }
  }

  /** Plans name known kinds only, so registering them never duplicates a pending action. */
  lemma {:induction false} RegisterAllKeepsPendingUnique(s: Store, rs: seq<Request>, times: seq<int>)
    requires |rs| == |times| && s.capacity >= 1 && |s.items| <= s.capacity
    requires NoDuplicatePending(s.items) && forall r | r in rs :: !r.kind.Unknown?
    ensures NoDuplicatePending(RegisterAll(s, rs, times).items)
    ensures RegisterAll(s, rs, times).capacity == s.capacity
    ensures |RegisterAll(s, rs, times).items| <= s.capacity
  {
    if rs != [] {
      var n := |rs| - 1;
      forall r | r in rs[..n] ensures !r.kind.Unknown? {
        assert r in rs;
      }
      RegisterAllKeepsPendingUnique(s, rs[..n], times[..n]);
      assert rs[n] in rs;
      RegisterDuplicatesIff(RegisterAll(s, rs[..n], times[..n]), rs[n], times[n]);
    }
  }

  // ----- The store as an object -----

  class StrategyActionStore {
    var items: seq<Action>
    var table: seq<Action>
    const capacity: nat

    ghost function State(): Store
      reads this
    {
      Store(items, table, capacity)
    }

    /** Opens the store on the rows a previous process left behind. */
    constructor (capacity: nat, rows: seq<Action>, now: int)
      ensures State() == Restarted(rows, capacity, now) && this.capacity == capacity
    {
      this.capacity := capacity;
      items := Newest(Renormalised(SortedByCreation(rows), now), capacity);
      table := rows;
    }

    method NextId() returns (id: nat)
      ensures id == MaxId(items) + 1
    {
      var highest: nat := 0;
      for i := 0 to |items|
        invariant highest == MaxId(items[..i])
      {
        assert items[..i + 1][..i] == items[..i];
        highest := Max(highest, items[i].id);
      }
      assert items[..|items|] == items;
      id := highest + 1;
    }

    method FindIndex(id: nat) returns (i: nat)
      ensures i == IndexOf(items, id)
    {
      i := 0;
      while i < |items| && items[i].id != id
        invariant 0 <= i <= |items|
        invariant IndexOf(items, id) == i + IndexOf(items[i..], id)
      {
        i := i + 1;
      }
    }

    method Persist(a: Action)
      modifies this`table
      ensures table == Upsert(old(table), a)
    {
      table := Upsert(table, a);
    }

    method Add(raw: RawAction, now: int) returns (a: Action)
      modifies this
      ensures State() == WithAdded(old(State()), raw, now)
      ensures a == Added(old(State()), raw, now)
    {
      var id := NextId();
      a := Normalise(raw.(id := Some(id), createdAt := Some(now)), 0, now);
      items := Newest(items + [a], capacity);
      Persist(a);
    }

    method SetStatus(id: nat, status: Status, now: int) returns (updated: Option<Action>)
      modifies this
      ensures State() == WithStatusSet(old(State()), id, status, now)
      ensures updated == Find(items, id)
    {
      var i := FindIndex(id);
      if i == |items| {
        return None;
      }
      items := items[i := WithStatus(items[i], status, now)];
      Persist(items[i]);
      SameIds(old(items), items, id);
      updated := Some(items[i]);
    }

    method FindPendingAction(r: Request) returns (found: Option<Action>)
      ensures found == FindPending(items, r)
    {
      var i := |items|;
      assert items[..i] == items;
      while i > 0
        invariant 0 <= i <= |items|
        invariant FindPending(items, r) == FindPending(items[..i], r)
      {
        i := i - 1;
        assert items[..i + 1][..i] == items[..i];
        var a := items[i];
        if r.kind.Known? && Matches(a, r.kind.kind, r.target, r.reasoning) {
          return Some(a);
        }
      }
      found := None;
    }

    method RegisterPendingActions(rs: seq<Request>, times: seq<int>)
      requires |rs| == |times|
      modifies this
      ensures State() == RegisterAll(old(State()), rs, times)
    {
      for i := 0 to |rs|
        invariant State() == RegisterAll(old(State()), rs[..i], times[..i])
      {
        assert rs[..i + 1][..i] == rs[..i] && times[..i + 1][..i] == times[..i];
        var r := rs[i];
        if r.kind.Blank? || r.target == "" || r.reasoning == "" {
          continue;
        }
        var existing := FindPendingAction(r);
        if existing.Some? {
          continue;
        }
        var a := Add(Raw(r), times[i]);
      }
      assert rs[..|rs|] == rs && times[..|rs|] == times;
    }
  }
}
