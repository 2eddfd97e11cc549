// Product proposals, launches and the execution focus.
module ProductLifecycle {
  import opened Common

  // ----- The proposal life cycle and the integrity policy -----

  datatype Status = Draft | Approved | Building | ReadyToLaunch | ReadyForReview | Launched | Rejected | Archived

  predicate Edge(a: Status, b: Status) {
    match a
    case Draft => b == Approved || b == Rejected
    case Approved => b == Building || b == Archived
    case Building => b == ReadyToLaunch
    case ReadyToLaunch => b == ReadyForReview
    case ReadyForReview => b == Launched
    case Launched => b == Archived
    case Rejected => b == Archived
    case Archived => false
  }

  predicate Executing(s: Status) {
    s == Approved || s == Building
  }

  predicate Active(s: Status) {
    Executing(s) || s == ReadyToLaunch
  }

  predicate PlanBuildable(s: Status) {
    Active(s) || s == ReadyForReview
  }

  datatype Proposal = Proposal(id: nat, status: Status, flagged: bool, hasSource: bool)

  datatype LaunchStatus = Drafted | Running | Paused | Retired

  datatype Launch = Launch(id: nat, proposalId: nat, status: LaunchStatus, flagged: bool)

  predicate LaunchEdge(a: LaunchStatus, b: LaunchStatus) {
    match a
    case Drafted => b == Running || b == Retired
    case Running => b == Paused || b == Retired
    case Paused => b == Running || b == Retired
    case Retired => false
  }

  function ActiveCount(ps: seq<Proposal>): nat {
    if ps == [] then 0
    else ActiveCount(ps[..|ps| - 1]) + if Active(ps[|ps| - 1].status) then 1 else 0
  }

  /** Another proposal than `id` is active. */
  predicate OtherActive(ps: seq<Proposal>, id: nat) {
    exists p | p in ps :: Active(p.status) && p.id != id
  }

  predicate TransitionAllowed(p: Proposal, next: Status, ps: seq<Proposal>) {
    Edge(p.status, next) && (Active(next) ==> !OtherActive(ps, p.id))
  }

  function ProposalAt(ps: seq<Proposal>, id: nat): (i: nat)
    ensures i <= |ps| && (i < |ps| ==> ps[i].id == id)
    ensures forall j | 0 <= j < i :: ps[j].id != id
  {
    if ps == [] then 0 else if ps[0].id == id then 0 else 1 + ProposalAt(ps[1..], id)
  }

  function LaunchAt(ls: seq<Launch>, id: nat): (i: nat)
    ensures i <= |ls| && (i < |ls| ==> ls[i].id == id)
    ensures forall j | 0 <= j < i :: ls[j].id != id
  {
    if ls == [] then 0 else if ls[0].id == id then 0 else 1 + LaunchAt(ls[1..], id)
  }

  /** The newest launch of a proposal. */
  function LaunchOf(ls: seq<Launch>, proposalId: nat): (r: Option<Launch>)
    ensures r.Some? ==> r.value in ls && r.value.proposalId == proposalId
    ensures r.None? ==> forall l | l in ls :: l.proposalId != proposalId
  {
    if ls == [] then None
    else if ls[|ls| - 1].proposalId == proposalId then Some(ls[|ls| - 1])
    else
      assert ls == ls[..|ls| - 1] + [ls[|ls| - 1]];
      LaunchOf(ls[..|ls| - 1], proposalId)
  }

  // ----- The execution focus -----

  datatype Focus = Nothing | OnProposal(id: nat) | OnLaunch(id: nat)

  function NewestWith(ps: seq<Proposal>, status: Status): Option<nat> {
    if ps == [] then None
    else if ps[|ps| - 1].status == status then Some(ps[|ps| - 1].id)
    else NewestWith(ps[..|ps| - 1], status)
  }

  /** No launch status is spelled "launched", so the newest launch always qualifies. */
  function SelectActive(ps: seq<Proposal>, ls: seq<Launch>): Focus {
    var building, approved := NewestWith(ps, Building), NewestWith(ps, Approved);
    if building.Some? then OnProposal(building.value)
    else if approved.Some? then OnProposal(approved.value)
    else if ls != [] then OnLaunch(ls[|ls| - 1].id)
    else Nothing
  }

  function FlagProposals(ps: seq<Proposal>, focus: Focus): (r: seq<Proposal>)
    ensures |r| == |ps| && forall i | 0 <= i < |ps| :: r[i] == ps[i].(flagged := focus == OnProposal(ps[i].id))
  {
    seq(|ps|, i requires 0 <= i < |ps| => ps[i].(flagged := focus == OnProposal(ps[i].id)))
  }

  function FlagLaunches(ls: seq<Launch>, focus: Focus): (r: seq<Launch>)
    ensures |r| == |ls| && forall i | 0 <= i < |ls| :: r[i] == ls[i].(flagged := focus == OnLaunch(ls[i].id))
  {
    seq(|ls|, i requires 0 <= i < |ls| => ls[i].(flagged := focus == OnLaunch(ls[i].id)))
  }

  // ----- The stores as values -----

  /** The next ids stand for the identifiers the system generates, which never repeat. */
  datatype Products = Products(
    proposals: seq<Proposal>,
    launches: seq<Launch>,
    nextProposal: nat,
    nextLaunch: nat,
    proposalCapacity: nat,
    launchCapacity: nat)

  function Refocused(s: Products): Products {
    var focus := SelectActive(s.proposals, s.launches);
    s.(proposals := FlagProposals(s.proposals, focus), launches := FlagLaunches(s.launches, focus))
  }

  function RefocusedProposals(ps: seq<Proposal>): seq<Proposal> {
    FlagProposals(ps, SelectActive(ps, []))
  }

  function ProposalAdded(s: Products, hasSource: bool): Products {
    var p := Proposal(s.nextProposal, Draft, false, hasSource);
    s.(proposals := RefocusedProposals(Newest(s.proposals + [p], s.proposalCapacity)),
       nextProposal := s.nextProposal + 1)
  }

  function ProposalMoved(s: Products, i: nat, next: Status): Products
    requires i < |s.proposals|
  {
    s.(proposals := RefocusedProposals(s.proposals[i := s.proposals[i].(status := next)]))
  }

  function LaunchAdded(s: Products, proposalId: nat): Products {
    if LaunchOf(s.launches, proposalId).Some? then s
    else
      var l := Launch(s.nextLaunch, proposalId, Drafted, false);
      Refocused(s.(launches := Newest(s.launches + [l], s.launchCapacity), nextLaunch := s.nextLaunch + 1))
  }

  function LaunchSet(s: Products, i: nat, status: LaunchStatus): Products
    requires i < |s.launches|
  {
    Refocused(s.(launches := s.launches[i := s.launches[i].(status := status)]))
  }

  // ----- Events -----

  datatype Event =
    | ProposalGenerated(hasSource: bool)
    | ProposalTransition(proposalId: nat, next: Status)
    | LaunchTransition(launchId: nat, status: LaunchStatus)
    | BuildPlan(proposalId: nat)
    | ExecutePlan(proposalId: nat)

  datatype Reply = Done | NothingToDo | DomainError | InvariantError | ValueError

  /** The six transition events reach these statuses; only plan execution reaches the others. */
  predicate EventTarget(s: Status) {
    s == Approved || s == Rejected || s == Building || s == ReadyToLaunch || s == Launched || s == Archived
  }

  function Launching(s: Products, proposalId: nat): (Products, Reply) {
    var added := LaunchAdded(s, proposalId);
    var l := LaunchOf(added.launches, proposalId);
    if l.None? then (added, ValueError)
    else
      var marked := LaunchSet(added, LaunchAt(added.launches, l.value.id), Running);
      if ActiveCount(marked.proposals) > 1 then (marked, InvariantError) else (Refocused(marked), Done)
  }

  /** What a transition event does once the proposal has moved. */
  function Followed(moved: Products, id: nat, next: Status): (Products, Reply) {
    if ActiveCount(moved.proposals) > 1 then (moved, InvariantError)
    else if Executing(next) then (Refocused(moved), Done)
    else if next == Launched then Launching(moved, id)
    else (moved, Done)
  }

  function Transitioned(s: Products, id: nat, next: Status): (Products, Reply) {
    var i := ProposalAt(s.proposals, id);
    if i == |s.proposals| then (s, NothingToDo)
    else if !TransitionAllowed(s.proposals[i], next, s.proposals) then (s, DomainError)
    else Followed(ProposalMoved(s, i, next), id, next)
  }

  /** A draft with a source is approved on the way, without refreshing the launches' flags. */
  predicate AutoApproves(s: Products, id: nat) {
    var i := ProposalAt(s.proposals, id);
    i < |s.proposals| && s.proposals[i].status == Draft && s.proposals[i].hasSource
  }

  function PlanBuilt(s: Products, id: nat): (Products, Reply) {
    var i := ProposalAt(s.proposals, id);
    if i == |s.proposals| then (s, NothingToDo)
    else if AutoApproves(s, id) then
      if !TransitionAllowed(s.proposals[i], Approved, s.proposals) then (s, DomainError)
      else
        var moved := ProposalMoved(s, i, Approved);
        (moved, if ActiveCount(moved.proposals) > 1 then InvariantError else Done)
    else if !PlanBuildable(s.proposals[i].status) then (s, DomainError)
    else (s, if ActiveCount(s.proposals) > 1 then InvariantError else Done)
  }

  function PlanExecuted(s: Products, id: nat): (Products, Reply) {
    var i := ProposalAt(s.proposals, id);
    if i == |s.proposals| then (s, NothingToDo)
    else if !TransitionAllowed(s.proposals[i], ReadyForReview, s.proposals) then (s, DomainError)
    else
      var moved := ProposalMoved(s, i, ReadyForReview);
      (moved, if ActiveCount(moved.proposals) > 1 then InvariantError else Done)
  }

  function LaunchMoved(s: Products, id: nat, status: LaunchStatus): (Products, Reply) {
    var i := LaunchAt(s.launches, id);
    if i == |s.launches| || !LaunchEdge(s.launches[i].status, status) then (s, ValueError)
    else
      var moved := LaunchSet(s, i, status);
      (moved, if ActiveCount(moved.proposals) > 1 then InvariantError else Done)
  }

  function Handle(s: Products, e: Event): (Products, Reply) {
    match e
    case ProposalGenerated(hasSource) => (ProposalAdded(s, hasSource), Done)
    case ProposalTransition(id, next) => if EventTarget(next) then Transitioned(s, id, next) else (s, NothingToDo)
    case LaunchTransition(id, status) => LaunchMoved(s, id, status)
    case BuildPlan(id) => PlanBuilt(s, id)
    case ExecutePlan(id) => PlanExecuted(s, id)
  }

  // ----- The stores and the handler as objects -----

  class ProductProposalStore {
    var items: seq<Proposal>
    var nextId: nat
    const capacity: nat

    constructor (capacity: nat)
      ensures items == [] && nextId == 0 && this.capacity == capacity
    {
      this.capacity := capacity;
      items, nextId := [], 0;
    }

    method Add(hasSource: bool)
      modifies this
      ensures items == RefocusedProposals(Newest(old(items) + [Proposal(old(nextId), Draft, false, hasSource)], capacity))
      ensures nextId == old(nextId) + 1
    {
      items := Newest(items + [Proposal(nextId, Draft, false, hasSource)], capacity);
      nextId := nextId + 1;
      RefreshExecutionFocus();
    }

    method IndexOf(id: nat) returns (i: nat)
      ensures i == ProposalAt(items, id)
    {
      i := 0;
      while i < |items| && items[i].id != id
        invariant 0 <= i <= |items|
        invariant ProposalAt(items, id) == i + ProposalAt(items[i..], id)
      {
        i := i + 1;
      }
    }

    method TransitionStatus(i: nat, next: Status)
      requires i < |items| && Edge(items[i].status, next)
      modifies this`items
      ensures items == RefocusedProposals(old(items)[i := old(items)[i].(status := next)])
    {
      items := items[i := items[i].(status := next)];
      RefreshExecutionFocus();
    }

    method RefreshExecutionFocus()
      modifies this`items
      ensures items == RefocusedProposals(old(items))
    {
      var focus := FindFocus(items, []);
      Enforce(focus);
    }

    method Enforce(focus: Focus)
      modifies this`items
      ensures items == FlagProposals(old(items), focus)
    {
      for i := 0 to |items|
        invariant |items| == |old(items)|
        invariant items[..i] == FlagProposals(old(items), focus)[..i] && items[i..] == old(items)[i..]
      {
        items := items[i := items[i].(flagged := focus == OnProposal(items[i].id))];
      }
    }
  }

  /** Searches newest first: a building proposal, then an approved one, then a launch. */
  method FindFocus(ps: seq<Proposal>, ls: seq<Launch>) returns (focus: Focus)
    ensures focus == SelectActive(ps, ls)
  {
    var building := FindNewest(ps, Building);
    if building.Some? {
      return OnProposal(building.value);
    }
    var approved := FindNewest(ps, Approved);
    if approved.Some? {
      return OnProposal(approved.value);
    }
    focus := if ls != [] then OnLaunch(ls[|ls| - 1].id) else Nothing;
  }

  method FindNewest(ps: seq<Proposal>, status: Status) returns (id: Option<nat>)
    ensures id == NewestWith(ps, status)
  {
    var i := |ps|;
    assert ps[..i] == ps;
    while i > 0
      invariant 0 <= i <= |ps|
      invariant NewestWith(ps, status) == NewestWith(ps[..i], status)
    {
      i := i - 1;
      assert ps[..i + 1][..i] == ps[..i];
      if ps[i].status == status {
        return Some(ps[i].id);
      }
    }
    id := None;
  }

  class ProductLaunchStore {
    var items: seq<Launch>
    var nextId: nat
    const capacity: nat
    const proposalStore: ProductProposalStore

    constructor (proposalStore: ProductProposalStore, capacity: nat)
      ensures items == [] && nextId == 0 && this.capacity == capacity && this.proposalStore == proposalStore
    {
      this.capacity, this.proposalStore := capacity, proposalStore;
      items, nextId := [], 0;
    }

    ghost function State(): Products
      reads this, proposalStore
    {
      Products(proposalStore.items, items, proposalStore.nextId, nextId, proposalStore.capacity, capacity)
    }

    /** Refreshes the flags of both stores. */
    method RefreshExecutionFocus()
      modifies this`items, proposalStore`items
      ensures State() == Refocused(old(State()))
    {
      var focus := FindFocus(proposalStore.items, items);
      proposalStore.Enforce(focus);
      ghost var before := items;
      for i := 0 to |items|
        invariant |items| == |before|
        invariant items[..i] == FlagLaunches(before, focus)[..i] && items[i..] == before[i..]
        invariant proposalStore.items == FlagProposals(old(proposalStore.items), focus)
      {
        items := items[i := items[i].(flagged := focus == OnLaunch(items[i].id))];
      }
    }

    method AddFromProposal(proposalId: nat) returns (launchId: nat)
      modifies this, proposalStore`items
      ensures State() == LaunchAdded(old(State()), proposalId)
      ensures capacity >= 1 ==>
                var l := LaunchOf(items, proposalId); l.Some? && l.value.id == launchId
    {
      var existing := LaunchOf(items, proposalId);
      if existing.Some? {
        return existing.value.id;
      }
      launchId := nextId;
      items := Newest(items + [Launch(nextId, proposalId, Drafted, false)], capacity);
      nextId := nextId + 1;
      RefreshExecutionFocus();
    }

    method IndexOf(id: nat) returns (i: nat)
      ensures i == LaunchAt(items, id)
    {
      i := 0;
      while i < |items| && items[i].id != id
        invariant 0 <= i <= |items|
        invariant LaunchAt(items, id) == i + LaunchAt(items[i..], id)
      {
        i := i + 1;
      }
    }

    method SetStatus(i: nat, status: LaunchStatus)
      requires i < |items|
      modifies this`items, proposalStore`items
      ensures State() == LaunchSet(old(State()), i, status)
    {
      items := items[i := items[i].(status := status)];
      RefreshExecutionFocus();
    }
  }

  class OpportunityHandler {
    const proposals: ProductProposalStore
    const launches: ProductLaunchStore

    constructor (launches: ProductLaunchStore)
      ensures this.launches == launches && proposals == launches.proposalStore
    {
      this.launches, proposals := launches, launches.proposalStore;
    }

    predicate Wired() {
      proposals == launches.proposalStore
    }

    method ValidateGlobal() returns (ok: bool)
      ensures ok <==> ActiveCount(proposals.items) <= 1
    {
      var active := 0;
      for i := 0 to |proposals.items|
        invariant active == ActiveCount(proposals.items[..i])
      {
        assert proposals.items[..i + 1][..i] == proposals.items[..i];
        if Active(proposals.items[i].status) {
          active := active + 1;
        }
      }
      assert proposals.items[..|proposals.items|] == proposals.items;
      ok := active <= 1;
    }

    method HandleTransition(id: nat, next: Status) returns (reply: Reply)
      requires Wired() && launches.capacity >= 1
      modifies proposals, launches
      ensures (launches.State(), reply) == Transitioned(old(launches.State()), id, next)
    {
      var i := proposals.IndexOf(id);
      if i == |proposals.items| {
        return NothingToDo;
      }
      if !TransitionAllowed(proposals.items[i], next, proposals.items) {
        return DomainError;
      }
      proposals.TransitionStatus(i, next);
      var ok := ValidateGlobal();
      if !ok {
        return InvariantError;
      }
      if Executing(next) {
        launches.RefreshExecutionFocus();
      }
      if next == Launched {
        reply := HandleLaunch(id);
        return;
      }
      reply := Done;
    }

    method HandleLaunch(id: nat) returns (reply: Reply)
      requires Wired() && launches.capacity >= 1
      modifies proposals, launches
      ensures (launches.State(), reply) == Launching(old(launches.State()), id)
    {
      var launchId := launches.AddFromProposal(id);
      var i := launches.IndexOf(launchId);
      launches.SetStatus(i, Running);
      var ok := ValidateGlobal();
      if !ok {
        return InvariantError;
      }
      launches.RefreshExecutionFocus();
      reply := Done;
    }

    method HandleBuildPlan(id: nat) returns (reply: Reply)
      requires Wired()
      modifies proposals
      ensures (launches.State(), reply) == PlanBuilt(old(launches.State()), id)
    {
      var i := proposals.IndexOf(id);
      if i == |proposals.items| {
        return NothingToDo;
      }
      if proposals.items[i].status == Draft && proposals.items[i].hasSource {
        if !TransitionAllowed(proposals.items[i], Approved, proposals.items) {
          return DomainError;
        }
        proposals.TransitionStatus(i, Approved);
        var ok := ValidateGlobal();
        return if ok then Done else InvariantError;
      }
      if !PlanBuildable(proposals.items[i].status) {
        return DomainError;
      }
      var ok := ValidateGlobal();
      reply := if ok then Done else InvariantError;
    }

    method HandleExecutePlan(id: nat) returns (reply: Reply)
      requires Wired()
      modifies proposals
      ensures (launches.State(), reply) == PlanExecuted(old(launches.State()), id)
    {
      var i := proposals.IndexOf(id);
      if i == |proposals.items| {
        return NothingToDo;
      }
      if !TransitionAllowed(proposals.items[i], ReadyForReview, proposals.items) {
        return DomainError;
      }
      proposals.TransitionStatus(i, ReadyForReview);
      var ok := ValidateGlobal();
      reply := if ok then Done else InvariantError;
    }

    method HandleLaunchTransition(id: nat, status: LaunchStatus) returns (reply: Reply)
      requires Wired()
      modifies proposals, launches
      ensures (launches.State(), reply) == LaunchMoved(old(launches.State()), id, status)
    {
      var i := launches.IndexOf(id);
      if i == |launches.items| || !LaunchEdge(launches.items[i].status, status) {
        return ValueError;
      }
      launches.SetStatus(i, status);
      var ok := ValidateGlobal();
      reply := if ok then Done else InvariantError;
    }
  }
}
