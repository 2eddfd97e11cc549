// When each life cycle event is accepted, and what it does then.
module LifecycleEvents {
  import opened Common
  import opened ProductLifecycle
  import opened LifecycleSafety

  /** The graph of proposals, edge by edge. */
  lemma EdgesAre(a: Status, b: Status)
    ensures Edge(a, b) <==>
              (a, b) in {(Draft, Approved), (Draft, ProductLifecycle.Rejected), (Approved, Building), (Approved, Archived),
                         (Building, ReadyToLaunch), (ReadyToLaunch, ReadyForReview), (ReadyForReview, Launched),
                         (Launched, Archived), (ProductLifecycle.Rejected, Archived)}
  {
  }

  /** The graph of launches, edge by edge. */
  lemma LaunchEdgesAre(a: LaunchStatus, b: LaunchStatus)
    ensures LaunchEdge(a, b) <==>
              (a, b) in {(Drafted, Running), (Drafted, Retired), (Running, Paused), (Running, Retired),
                         (Paused, Running), (Paused, Retired)}
  {
  }

  /** A proposal other than `id` is approved, building or ready to launch. */
  ghost predicate Occupied(s: Products, id: nat) {
    exists i | 0 <= i < |s.proposals| ::
      s.proposals[i].id != id && s.proposals[i].status in {Approved, Building, ReadyToLaunch}
  }

  lemma OccupiedIff(s: Products, id: nat)
    ensures OtherActive(s.proposals, id) <==> Occupied(s, id)
  {
    if Occupied(s, id) {
      var i :| 0 <= i < |s.proposals| && s.proposals[i].id != id && s.proposals[i].status in {Approved, Building, ReadyToLaunch};
      assert s.proposals[i] in s.proposals;
    }
  }

  /** A move is allowed along an edge of the graph, into the active statuses only while no other proposal has one. */
  lemma MoveAllowedIff(s: Products, i: nat, next: Status)
    requires i < |s.proposals|
    ensures TransitionAllowed(s.proposals[i], next, s.proposals)
       <==> (s.proposals[i].status, next)
              in {(Draft, Approved), (Draft, ProductLifecycle.Rejected), (Approved, Building), (Approved, Archived),
                  (Building, ReadyToLaunch), (ReadyToLaunch, ReadyForReview), (ReadyForReview, Launched),
                  (Launched, Archived), (ProductLifecycle.Rejected, Archived)}
            && (next in {Approved, Building, ReadyToLaunch} ==> !Occupied(s, s.proposals[i].id))
  {
    EdgesAre(s.proposals[i].status, next);
    OccupiedIff(s, s.proposals[i].id);
  }

  /** A transition event moves its proposal exactly when the proposal is known, no event is needed to pass
      review, and the move is allowed; otherwise it changes nothing and says why. */
  lemma TransitionIff(s: Products, id: nat, next: Status)
    requires Inv(s)
    ensures var (s', reply), status := Handle(s, ProposalTransition(id, next)), StatusOf(s, id);
            var allowed := status.Some?
              && (status.value, next)
                   in {(Draft, Approved), (Draft, ProductLifecycle.Rejected), (Approved, Building), (Approved, Archived),
                       (Building, ReadyToLaunch), (ReadyForReview, Launched), (Launched, Archived),
                       (ProductLifecycle.Rejected, Archived)}
              && (next in {Approved, Building, ReadyToLaunch} ==> !Occupied(s, id));
            && (allowed <==> reply == Done)
            && (allowed ==> StatusOf(s', id) == Some(next))
            && (!allowed ==> s' == s
                             && reply == if next in {Draft, ReadyForReview} || status == None then NothingToDo else DomainError)
  {
    var i := ProposalAt(s.proposals, id);
    if i < |s.proposals| {
      MoveAllowedIff(s, i, next);
      if EventTarget(next) && TransitionAllowed(s.proposals[i], next, s.proposals) {
        MoveKeepsInv(s, i, next);
        MoveStatus(s, i, next, id);
        FollowedKeepsInv(ProposalMoved(s, i, next), id, next);
        SameStatusOf(ProposalMoved(s, i, next), Handle(s, ProposalTransition(id, next)).0, id);
      }
    }
  }

  /** Plan building accepts a proposal that is being worked on, and a draft with a source, which it approves
      on the way unless another proposal is active. */
  lemma BuildPlanIff(s: Products, id: nat)
    requires Inv(s)
    ensures var (s', reply), i := Handle(s, BuildPlan(id)), ProposalAt(s.proposals, id);
            if i == |s.proposals| then s' == s && reply == NothingToDo
            else
              var p := s.proposals[i];
              var approves := p.status == Draft && p.hasSource && !Occupied(s, id);
              && (reply == Done <==> approves || p.status in {Approved, Building, ReadyToLaunch, ReadyForReview})
              && (reply != Done ==> reply == DomainError)
              && (if approves then StatusOf(s', id) == Some(Approved) && s'.launches == s.launches else s' == s)
  {
    var i := ProposalAt(s.proposals, id);
    OneActiveCount(s.proposals);
    if i < |s.proposals| {
      MoveAllowedIff(s, i, Approved);
      if TransitionAllowed(s.proposals[i], Approved, s.proposals) {
        MoveKeepsInv(s, i, Approved);
        MoveStatus(s, i, Approved, id);
      }
    }
  }

  /** Plan execution is the one way into review, and starts from ready to launch. */
  lemma ExecutePlanIff(s: Products, id: nat)
    requires Inv(s)
    ensures var (s', reply), status := Handle(s, ExecutePlan(id)), StatusOf(s, id);
            && (reply == Done <==> status == Some(ReadyToLaunch))
            && (reply == Done ==> StatusOf(s', id) == Some(ReadyForReview) && s'.launches == s.launches)
            && (reply != Done ==> s' == s && reply == if status == None then NothingToDo else DomainError)
  {
    var i := ProposalAt(s.proposals, id);
    if i < |s.proposals| {
      MoveAllowedIff(s, i, ReadyForReview);
      if TransitionAllowed(s.proposals[i], ReadyForReview, s.proposals) {
        MoveKeepsInv(s, i, ReadyForReview);
        MoveStatus(s, i, ReadyForReview, id);
      }
    }
  }

  /** A launch moves along its graph, alone, or the event fails and changes nothing. */
  lemma LaunchTransitionIff(s: Products, id: nat, status: LaunchStatus)
    requires Inv(s)
    ensures var (s', reply), i := Handle(s, LaunchTransition(id, status)), LaunchAt(s.launches, id);
            var allowed := i < |s.launches|
              && (s.launches[i].status, status)
                   in {(Drafted, Running), (Drafted, Retired), (Running, Paused), (Running, Retired),
                       (Paused, Running), (Paused, Retired)};
            && reply == (if allowed then Done else ValueError)
            && (if allowed then LaunchStatusesBut(s, s', i, status) else s' == s)
  {
    var i := LaunchAt(s.launches, id);
    if i < |s.launches| {
      LaunchEdgesAre(s.launches[i].status, status);
      LaunchSetKeepsInv(s, i, status);
    }
  }

  /** Launch `i` has this status; every other launch keeps its own. */
  ghost predicate LaunchStatusesBut(s: Products, s': Products, i: nat, status: LaunchStatus) {
    && |s'.launches| == |s.launches|
    && forall j | 0 <= j < |s.launches| ::
         s'.launches[j].id == s.launches[j].id && s'.launches[j].proposalId == s.launches[j].proposalId
         && s'.launches[j].status == if j == i then status else s.launches[j].status
  }

  /** Neither store holds more than its capacity. */
  ghost predicate Bounded(s: Products) {
    |s.proposals| <= s.proposalCapacity && |s.launches| <= s.launchCapacity
  }

  ghost predicate KeepsBounded(s: Products, s': Products) {
    && s'.proposalCapacity == s.proposalCapacity && s'.launchCapacity == s.launchCapacity
    && (Bounded(s) ==> Bounded(s'))
  }

  lemma LaunchingKeepsBounded(s: Products, id: nat)
    ensures KeepsBounded(s, Launching(s, id).0)
  {
    var added := LaunchAdded(s, id);
    assert KeepsBounded(s, added);
    var l := LaunchOf(added.launches, id);
    if l.Some? {
      LaunchIsAt(added.launches, l.value);
      var marked := LaunchSet(added, LaunchAt(added.launches, l.value.id), Running);
      assert KeepsBounded(added, marked) && KeepsBounded(marked, Refocused(marked));
    }
  }

  lemma FollowedKeepsBounded(moved: Products, id: nat, next: Status)
    ensures KeepsBounded(moved, Followed(moved, id, next).0)
  {
    if next == Launched {
      LaunchingKeepsBounded(moved, id);
    }
  }

  lemma TransitionKeepsBounded(s: Products, id: nat, next: Status)
    ensures KeepsBounded(s, Transitioned(s, id, next).0)
  {
    var i := ProposalAt(s.proposals, id);
    if i < |s.proposals| {
      var moved := ProposalMoved(s, i, next);
      assert KeepsBounded(s, moved);
      FollowedKeepsBounded(moved, id, next);
    }
  }

  lemma HandleKeepsBounded(s: Products, e: Event)
    ensures KeepsBounded(s, Handle(s, e).0)
  {
    if e.ProposalTransition? {
      TransitionKeepsBounded(s, e.proposalId, e.next);
    }
  }

  lemma {:induction false} StoresStayBounded(proposalCapacity: nat, launchCapacity: nat, events: seq<Event>)
    ensures var s := Run(Empty(proposalCapacity, launchCapacity), events);
            Bounded(s) && s.proposalCapacity == proposalCapacity && s.launchCapacity == launchCapacity
  {
    if events != [] {
      var n := |events| - 1;
      StoresStayBounded(proposalCapacity, launchCapacity, events[..n]);
      HandleKeepsBounded(Run(Empty(proposalCapacity, launchCapacity), events[..n]), events[n]);
    }
  }

  /** A generated proposal is a draft at the end of the store, with the next id and its source. */
  lemma GeneratedMeans(s: Products, hasSource: bool)
    requires Inv(s) && Bounded(s)
    ensures var (s', reply) := Handle(s, ProposalGenerated(hasSource));
            && reply == Done && s'.nextProposal == s.nextProposal + 1 && s'.launches == s.launches
            && |s'.proposals| == (if |s.proposals| < s.proposalCapacity then |s.proposals| + 1 else |s.proposals|)
            && s'.proposals != []
            && var last := s'.proposals[|s'.proposals| - 1];
            last.id == s.nextProposal && last.status == Draft && last.hasSource == hasSource
  {
  }

  /** The launch of a proposal is running; it is a new one exactly when the proposal had none in the store. */
  lemma LaunchMeans(s: Products, id: nat)
    requires Inv(s)
    ensures var s', before, after := Launching(s, id).0, LaunchOf(s.launches, id), LaunchOf(Launching(s, id).0.launches, id);
            && after.Some? && after.value.status == Running
            && after.value.id == (if before == None then s.nextLaunch else before.value.id)
            && s'.nextLaunch == if before == None then s.nextLaunch + 1 else s.nextLaunch
  {
    LaunchingKeepsInv(s, id);
    LaunchAddKeepsInv(s, id);
    var added := LaunchAdded(s, id);
    var l := LaunchOf(added.launches, id).value;
    if LaunchOf(s.launches, id) == None {
      NewLaunchIsLast(s, id);
    }
    LaunchIsAt(added.launches, l);
    SetKeepsLaunchOf(added, LaunchAt(added.launches, l.id), Running, id, l);
    RefocusKeepsLaunchOf(LaunchSet(added, LaunchAt(added.launches, l.id), Running), id);
  }

  /** A proposal launched from review has a running launch. */
  lemma LaunchedRuns(s: Products, id: nat)
    requires Inv(s) && StatusOf(s, id) == Some(ReadyForReview)
    ensures var s', before := Handle(s, ProposalTransition(id, Launched)).0, LaunchOf(s.launches, id);
            var after := LaunchOf(s'.launches, id);
            && after.Some? && after.value.status == Running
            && after.value.id == if before == None then s.nextLaunch else before.value.id
  {
    var i := ProposalAt(s.proposals, id);
    MoveAllowedIff(s, i, Launched);
    MoveKeepsInv(s, i, Launched);
    LaunchMeans(ProposalMoved(s, i, Launched), id);
    LaunchedHandles(s, id, i);
  }

  lemma LaunchedHandles(s: Products, id: nat, i: nat)
    requires i == ProposalAt(s.proposals, id) && i < |s.proposals|
    requires TransitionAllowed(s.proposals[i], Launched, s.proposals) && ActiveCount(ProposalMoved(s, i, Launched).proposals) <= 1
    ensures Handle(s, ProposalTransition(id, Launched)) == Launching(ProposalMoved(s, i, Launched), id)
    ensures ProposalMoved(s, i, Launched).launches == s.launches && ProposalMoved(s, i, Launched).nextLaunch == s.nextLaunch
  {
  }

  lemma NewLaunchIsLast(s: Products, id: nat)
    requires Inv(s) && LaunchOf(s.launches, id) == None
    ensures var l := LaunchOf(LaunchAdded(s, id).launches, id);
            l.Some? && l.value.id == s.nextLaunch
    ensures LaunchAdded(s, id).nextLaunch == s.nextLaunch + 1
  {
    var all := s.launches + [Launch(s.nextLaunch, id, Drafted, false)];
    NewestLaunches(s.launches, all[|all| - 1], s.nextLaunch, s.launchCapacity);
    var after := LaunchAdded(s, id).launches;
    assert after[|after| - 1].proposalId == id;
  }

  /** Flags apart, the launch found is the same. */
  lemma {:induction false} LaunchOfSame(a: seq<Launch>, b: seq<Launch>, id: nat)
    requires |a| == |b| && forall i | 0 <= i < |a| :: b[i] == a[i].(flagged := b[i].flagged)
    ensures LaunchOf(a, id) == None <==> LaunchOf(b, id) == None
    ensures LaunchOf(a, id).Some? ==>
              var x, y := LaunchOf(a, id).value, LaunchOf(b, id).value; x.id == y.id && x.status == y.status
  {
    if a != [] {
      LaunchOfSame(a[..|a| - 1], b[..|b| - 1], id);
    }
  }

  lemma RefocusKeepsLaunchOf(s: Products, id: nat)
    ensures LaunchOf(s.launches, id) == None <==> LaunchOf(Refocused(s).launches, id) == None
    ensures LaunchOf(s.launches, id).Some? ==>
              var x, y := LaunchOf(s.launches, id).value, LaunchOf(Refocused(s).launches, id).value;
              x.id == y.id && x.status == y.status
  {
    LaunchOfSame(s.launches, Refocused(s).launches, id);
  }

  ghost predicate NewestLaunchAt(ls: seq<Launch>, id: nat, k: nat) {
    k < |ls| && ls[k].proposalId == id && forall j | k < j < |ls| :: ls[j].proposalId != id
  }

  /** The launch found is the newest of its proposal. */
  lemma {:induction false} LaunchOfIsNewest(ls: seq<Launch>, id: nat, k: nat)
    requires NewestLaunchAt(ls, id, k)
    ensures LaunchOf(ls, id) == Some(ls[k])
  {
    var n := |ls| - 1;
    if k < n {
      LaunchOfIsNewest(ls[..n], id, k);
    }
  }

  lemma {:induction false} NewestLaunchFound(ls: seq<Launch>, id: nat) returns (k: nat)
    requires LaunchOf(ls, id).Some?
    ensures NewestLaunchAt(ls, id, k)
  {
    var n := |ls| - 1;
    if ls[n].proposalId == id {
      k := n;
    } else {
      k := NewestLaunchFound(ls[..n], id);
      assert forall j | 0 <= j < n :: ls[..n][j] == ls[j];
    }
  }

  lemma LaunchOfUpdated(ls: seq<Launch>, i: nat, l: Launch, id: nat)
    requires i < |ls| && LaunchOf(ls, id) == Some(ls[i]) && l.id == ls[i].id && l.proposalId == ls[i].proposalId
    requires forall j, k | 0 <= j < k < |ls| :: ls[j].id < ls[k].id
    ensures LaunchOf(ls[i := l], id) == Some(l)
  {
    var k := NewestLaunchFound(ls, id);
    LaunchOfIsNewest(ls, id, k);
    assert k == i;
    LaunchOfIsNewest(ls[i := l], id, i);
  }

  lemma SetKeepsLaunchOf(s: Products, i: nat, status: LaunchStatus, id: nat, l: Launch)
    requires Inv(s) && LaunchOf(s.launches, id) == Some(l) && i == LaunchAt(s.launches, l.id) && i < |s.launches|
    ensures var after := LaunchOf(LaunchSet(s, i, status).launches, id);
            after.Some? && after.value.id == l.id && after.value.status == status
  {
    var k :| 0 <= k < |s.launches| && s.launches[k] == l;
    assert i == k;
    LaunchOfUpdated(s.launches, i, l.(status := status), id);
    RefocusKeepsLaunchOf(s.(launches := s.launches[i := l.(status := status)]), id);
  }

  // ----- The focus -----

  ghost predicate NewestAt(ps: seq<Proposal>, status: Status, k: nat) {
    k < |ps| && ps[k].status == status && forall j | k < j < |ps| :: ps[j].status != status
  }

  ghost predicate NoneWith(ps: seq<Proposal>, status: Status) {
    forall j | 0 <= j < |ps| :: ps[j].status != status
  }

  lemma {:induction false} NewestWithIs(ps: seq<Proposal>, status: Status, k: nat)
    ensures NewestAt(ps, status, k) ==> NewestWith(ps, status) == Some(ps[k].id)
    ensures NoneWith(ps, status) ==> NewestWith(ps, status) == None
  {
    if ps != [] {
      var n := |ps| - 1;
      if k < n || NoneWith(ps, status) {
        NewestWithIs(ps[..n], status, k);
      }
    }
  }

  /** The focus is on the newest building proposal, else on the newest approved one, else on the newest launch,
      else on nothing. */
  lemma FocusMeans(ps: seq<Proposal>, ls: seq<Launch>, k: nat)
    ensures NewestAt(ps, Building, k) ==> SelectActive(ps, ls) == OnProposal(ps[k].id)
    ensures NoneWith(ps, Building) && NewestAt(ps, Approved, k) ==> SelectActive(ps, ls) == OnProposal(ps[k].id)
    ensures NoneWith(ps, Building) && NoneWith(ps, Approved) ==>
              SelectActive(ps, ls) == if ls == [] then Nothing else OnLaunch(ls[|ls| - 1].id)
  {
    NewestWithIs(ps, Building, k);
    NewestWithIs(ps, Approved, k);
  }

  function ActivePositions(ps: seq<Proposal>, n: nat): set<nat> {
    set i: nat | i < n && i < |ps| && ps[i].status in {Approved, Building, ReadyToLaunch}
  }

  lemma {:induction false} ActiveCountedTo(ps: seq<Proposal>, n: nat)
    requires n <= |ps|
    ensures ActiveCount(ps[..n]) == |ActivePositions(ps, n)|
  {
    if n == 0 {
      assert ActivePositions(ps, n) == {};
    } else {
      ActiveCountedTo(ps, n - 1);
      assert ps[..n][..n - 1] == ps[..n - 1];
      var earlier, active := ActivePositions(ps, n - 1), ps[n - 1].status in {Approved, Building, ReadyToLaunch};
      assert ActivePositions(ps, n) == if active then earlier + {n - 1} else earlier;
    }
  }

  /** The count that validation checks is the number of proposals approved, building or ready to launch. */
  lemma ActiveCounted(ps: seq<Proposal>)
    ensures ActiveCount(ps) == |ActivePositions(ps, |ps|)|
  {
    ActiveCountedTo(ps, |ps|);
    assert ps[..|ps|] == ps;
  }
}
