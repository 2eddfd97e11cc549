// What every sequence of life cycle events keeps.
module LifecycleSafety {
  import opened Common
  import opened ProductLifecycle

  // ----- The invariant -----

  ghost predicate OneActive(ps: seq<Proposal>) {
    forall i, j | 0 <= i < |ps| && 0 <= j < |ps| && Active(ps[i].status) && Active(ps[j].status) :: i == j
  }

  ghost predicate DistinctProposals(ps: seq<Proposal>, next: nat) {
    && (forall i, j | 0 <= i < j < |ps| :: ps[i].id < ps[j].id)
    && (forall i | 0 <= i < |ps| :: ps[i].id < next)
  }

  ghost predicate DistinctLaunches(ls: seq<Launch>, next: nat) {
    && (forall i, j | 0 <= i < j < |ls| :: ls[i].id < ls[j].id)
    && (forall i | 0 <= i < |ls| :: ls[i].id < next)
  }

  /** A proposal is flagged exactly when it is the selection among the proposals alone. */
  ghost predicate FlagsFollowSelection(ps: seq<Proposal>) {
    forall i | 0 <= i < |ps| :: ps[i].flagged <==> SelectActive(ps, []) == OnProposal(ps[i].id)
  }

  ghost predicate FlagsFollowStatus(ps: seq<Proposal>) {
    forall i | 0 <= i < |ps| :: ps[i].flagged <==> Executing(ps[i].status)
  }

  ghost predicate Inv(s: Products) {
    && s.proposalCapacity >= 1 && s.launchCapacity >= 1
    && DistinctProposals(s.proposals, s.nextProposal) && DistinctLaunches(s.launches, s.nextLaunch)
    && OneActive(s.proposals) && FlagsFollowStatus(s.proposals)
  }

  // ----- Selection and flags -----

  lemma {:induction false} NewestWithFinds(ps: seq<Proposal>, status: Status)
    ensures var r := NewestWith(ps, status);
            && (r.None? <==> forall p | p in ps :: p.status != status)
            && (r.Some? ==> exists i | 0 <= i < |ps| :: ps[i].status == status && ps[i].id == r.value)
  {
    if ps != [] {
      var n := |ps| - 1;
      NewestWithFinds(ps[..n], status);
      assert ps == ps[..n] + [ps[n]];
    }
  }

  /** With one active proposal, the selected proposal is the executing one. */
  lemma SelectionIsExecuting(ps: seq<Proposal>, next: nat, ls: seq<Launch>, i: nat)
    requires DistinctProposals(ps, next) && OneActive(ps) && i < |ps|
    ensures SelectActive(ps, ls) == OnProposal(ps[i].id) <==> Executing(ps[i].status)
  {
    NewestWithFinds(ps, Building);
    NewestWithFinds(ps, Approved);
    if Executing(ps[i].status) {
      assert ps[i] in ps;
    }
  }

  lemma FlaggingFollowsStatus(ps: seq<Proposal>, next: nat, ls: seq<Launch>)
    requires DistinctProposals(ps, next) && OneActive(ps)
    ensures var r := FlagProposals(ps, SelectActive(ps, ls));
            DistinctProposals(r, next) && OneActive(r) && FlagsFollowStatus(r)
  {
    var r := FlagProposals(ps, SelectActive(ps, ls));
    forall i | 0 <= i < |ps| ensures r[i].flagged <==> Executing(r[i].status) {
      SelectionIsExecuting(ps, next, ls, i);
    }
  }

  /** In every valid state a proposal is flagged exactly when it is the proposals-only selection. */
  lemma FlagsAreTheSelection(s: Products)
    requires Inv(s)
    ensures FlagsFollowSelection(s.proposals)
  {
    forall i | 0 <= i < |s.proposals|
      ensures s.proposals[i].flagged <==> SelectActive(s.proposals, []) == OnProposal(s.proposals[i].id)
    {
      SelectionIsExecuting(s.proposals, s.nextProposal, [], i);
    }
  }

  lemma {:induction false} OneActiveCount(ps: seq<Proposal>)
    requires OneActive(ps)
    ensures ActiveCount(ps) <= 1
    ensures ActiveCount(ps) == 1 ==> exists i | 0 <= i < |ps| :: Active(ps[i].status)
  {
    if ps != [] {
      var n := |ps| - 1;
      OneActiveCount(ps[..n]);
    }
  }

  // ----- Moving one proposal -----

  lemma MoveKeepsOneActive(ps: seq<Proposal>, next: nat, i: nat, status: Status)
    requires DistinctProposals(ps, next) && OneActive(ps) && i < |ps| && TransitionAllowed(ps[i], status, ps)
    ensures var ps' := ps[i := ps[i].(status := status)]; DistinctProposals(ps', next) && OneActive(ps')
  {
    var ps' := ps[i := ps[i].(status := status)];
    forall j | 0 <= j < |ps| && j != i && Active(status) ensures !Active(ps[j].status) {
      assert ps[j] in ps && ps[j].id != ps[i].id;
    }
    assert forall j | 0 <= j < |ps'| :: ps'[j].id == ps[j].id && (j != i ==> ps'[j] == ps[j]);
  }

  lemma MoveKeepsInv(s: Products, i: nat, next: Status)
    requires Inv(s) && i < |s.proposals| && TransitionAllowed(s.proposals[i], next, s.proposals)
    ensures var s' := ProposalMoved(s, i, next);
            && Inv(s') && ActiveCount(s'.proposals) <= 1 && |s'.proposals| == |s.proposals|
            && (forall j | 0 <= j < |s.proposals| ::
                  s'.proposals[j].id == s.proposals[j].id
                  && s'.proposals[j].status == if j == i then next else s.proposals[j].status)
  {
    MoveKeepsOneActive(s.proposals, s.nextProposal, i, next);
    FlaggingFollowsStatus(s.proposals[i := s.proposals[i].(status := next)], s.nextProposal, []);
    OneActiveCount(ProposalMoved(s, i, next).proposals);
  }

  lemma RefocusKeepsInv(s: Products)
    requires Inv(s)
    ensures Inv(Refocused(s)) && SameStatuses(s, Refocused(s))
    ensures OneFlagged(Refocused(s))
  {
    FlaggingFollowsStatus(s.proposals, s.nextProposal, s.launches);
    forall i | 0 <= i < |s.proposals| {
      SelectionIsExecuting(s.proposals, s.nextProposal, s.launches, i);
    }
  }

  ghost predicate SameStatuses(s: Products, s': Products) {
    && |s'.proposals| == |s.proposals| && s'.nextProposal == s.nextProposal
    && forall i | 0 <= i < |s.proposals| ::
         s'.proposals[i].id == s.proposals[i].id && s'.proposals[i].status == s.proposals[i].status
  }

  /** At most one item across proposals and launches carries the flag. */
  ghost predicate OneFlagged(s: Products) {
    && (forall i, j | 0 <= i < |s.proposals| && 0 <= j < |s.proposals|
          && s.proposals[i].flagged && s.proposals[j].flagged :: i == j)
    && (forall i, j | 0 <= i < |s.launches| && 0 <= j < |s.launches|
          && s.launches[i].flagged && s.launches[j].flagged :: i == j)
    && !(ProposalFlagged(s) && LaunchFlagged(s))
  }

  predicate ProposalFlagged(s: Products) {
    exists i | 0 <= i < |s.proposals| :: s.proposals[i].flagged
  }

  predicate LaunchFlagged(s: Products) {
    exists i | 0 <= i < |s.launches| :: s.launches[i].flagged
  }

  // ----- Every event keeps the invariant, and none finds it violated -----

  lemma NewestInOrder(ps: seq<Proposal>, next: nat, capacity: nat)
    requires DistinctProposals(ps, next) && OneActive(ps)
    ensures DistinctProposals(Newest(ps, capacity), next) && OneActive(Newest(ps, capacity))
  {
    if |ps| > capacity {
      SuffixInOrder(ps, next, |ps| - capacity);
    }
  }

  lemma SuffixInOrder(ps: seq<Proposal>, next: nat, from: nat)
    requires DistinctProposals(ps, next) && OneActive(ps) && from <= |ps|
    ensures DistinctProposals(ps[from..], next) && OneActive(ps[from..])
  {
    var r := ps[from..];
    forall i, j | 0 <= i < |r| && 0 <= j < |r| && Active(r[i].status) && Active(r[j].status) ensures i == j {
      assert r[i] == ps[i + from] && r[j] == ps[j + from];
    }
    forall i, j | 0 <= i < j < |r| ensures r[i].id < r[j].id {
      assert r[i] == ps[i + from] && r[j] == ps[j + from];
    }
  }

  lemma AddKeepsInv(s: Products, hasSource: bool)
    requires Inv(s)
    ensures Inv(ProposalAdded(s, hasSource))
  {
    var ps := s.proposals + [Proposal(s.nextProposal, Draft, false, hasSource)];
    NewestInOrder(ps, s.nextProposal + 1, s.proposalCapacity);
    FlaggingFollowsStatus(Newest(ps, s.proposalCapacity), s.nextProposal + 1, []);
  }

  lemma LaunchAddKeepsInv(s: Products, proposalId: nat)
    requires Inv(s)
    ensures var s' := LaunchAdded(s, proposalId);
            && Inv(s') && SameStatuses(s, s') && LaunchOf(s'.launches, proposalId).Some?
  {
    if LaunchOf(s.launches, proposalId).None? {
      var grown := Grown(s, proposalId);
      RefocusKeepsInv(grown);
      var after := Refocused(grown).launches;
      assert after[|after| - 1].proposalId == proposalId;
    }
  }

  lemma Grown(s: Products, proposalId: nat) returns (grown: Products)
    requires Inv(s)
    ensures grown == s.(launches := Newest(s.launches + [Launch(s.nextLaunch, proposalId, Drafted, false)], s.launchCapacity),
                        nextLaunch := s.nextLaunch + 1)
    ensures Inv(grown) && grown.launches != [] && grown.launches[|grown.launches| - 1].proposalId == proposalId
  {
    var all := s.launches + [Launch(s.nextLaunch, proposalId, Drafted, false)];
    var ls := Newest(all, s.launchCapacity);
    NewestLaunches(s.launches, all[|all| - 1], s.nextLaunch, s.launchCapacity);
    grown := s.(launches := ls, nextLaunch := s.nextLaunch + 1);
  }

  lemma NewestLaunches(ls: seq<Launch>, l: Launch, next: nat, capacity: nat)
    requires DistinctLaunches(ls, next) && l.id == next && capacity >= 1
    ensures var r := Newest(ls + [l], capacity); DistinctLaunches(r, next + 1) && r != [] && r[|r| - 1] == l
  {
    var all := ls + [l];
    assert DistinctLaunches(all, next + 1);
    NewestDistinct(all, next + 1, capacity);
    assert all[|all| - 1] == l;
  }

  lemma NewestDistinct(all: seq<Launch>, next: nat, capacity: nat)
    requires DistinctLaunches(all, next)
    ensures DistinctLaunches(Newest(all, capacity), next)
  {
    var r := Newest(all, capacity);
    var shift := |all| - |r|;
    forall i, j | 0 <= i < j < |r| ensures r[i].id < r[j].id {
      assert r[i] == all[i + shift] && r[j] == all[j + shift];
    }
    forall i | 0 <= i < |r| ensures r[i].id < next {
      assert r[i] == all[i + shift];
    }
  }

  lemma LaunchSetKeepsInv(s: Products, i: nat, status: LaunchStatus)
    requires Inv(s) && i < |s.launches|
    ensures Inv(LaunchSet(s, i, status)) && SameStatuses(s, LaunchSet(s, i, status)) && OneFlagged(LaunchSet(s, i, status))
    ensures ActiveCount(LaunchSet(s, i, status).proposals) <= 1
    ensures LaunchSet(s, i, status).nextLaunch == s.nextLaunch
  {
    RefocusKeepsInv(s.(launches := s.launches[i := s.launches[i].(status := status)]));
    OneActiveCount(LaunchSet(s, i, status).proposals);
  }

  lemma LaunchingKeepsInv(s: Products, proposalId: nat)
    requires Inv(s)
    ensures var (s', reply) := Launching(s, proposalId);
            && Inv(s') && SameStatuses(s, s') && OneFlagged(s') && reply == Done
            && s'.nextLaunch == LaunchAdded(s, proposalId).nextLaunch
  {
    LaunchAddKeepsInv(s, proposalId);
    var added := LaunchAdded(s, proposalId);
    var l := LaunchOf(added.launches, proposalId).value;
    LaunchIsAt(added.launches, l);
    var i := LaunchAt(added.launches, l.id);
    LaunchSetKeepsInv(added, i, Running);
    RefocusKeepsInv(LaunchSet(added, i, Running));
  }

  lemma LaunchIsAt(ls: seq<Launch>, l: Launch)
    requires l in ls
    ensures LaunchAt(ls, l.id) < |ls|
  {
    var k :| 0 <= k < |ls| && ls[k] == l;
  }

  /** What follows a move keeps the invariant, changes no status, and creates launches only on launch. */
  lemma FollowedKeepsInv(moved: Products, id: nat, next: Status)
    requires Inv(moved)
    ensures var (s', reply) := Followed(moved, id, next);
            && Inv(s') && reply == Done && SameStatuses(moved, s')
            && (next != Launched ==> s'.nextLaunch == moved.nextLaunch)
            && (Executing(next) || next == Launched ==> OneFlagged(s'))
  {
    OneActiveCount(moved.proposals);
    if Executing(next) {
      RefocusKeepsInv(moved);
    } else if next == Launched {
      LaunchingKeepsInv(moved, id);
    }
  }

  lemma TransitionKeepsInv(s: Products, id: nat, next: Status)
    requires Inv(s)
    ensures var (s', reply) := Transitioned(s, id, next); Inv(s') && reply != InvariantError && reply != ValueError
  {
    var i := ProposalAt(s.proposals, id);
    if i < |s.proposals| && TransitionAllowed(s.proposals[i], next, s.proposals) {
      MoveKeepsInv(s, i, next);
      FollowedKeepsInv(ProposalMoved(s, i, next), id, next);
    }
  }

  /** No event ever finds more than one active proposal, and a launch is never lost on the way. */
  lemma HandleKeepsInv(s: Products, e: Event)
    requires Inv(s)
    ensures Inv(Handle(s, e).0) && Handle(s, e).1 != InvariantError
  {
    match e
    case ProposalGenerated(hasSource) => AddKeepsInv(s, hasSource);
    case ProposalTransition(id, next) => TransitionKeepsInv(s, id, next);
    case LaunchTransition(id, status) =>
      var i := LaunchAt(s.launches, id);
      if i < |s.launches| { LaunchSetKeepsInv(s, i, status); }
    case BuildPlan(id) => BuildKeepsInv(s, id);
    case ExecutePlan(id) => ExecuteKeepsInv(s, id);
  }

  lemma BuildKeepsInv(s: Products, id: nat)
    requires Inv(s)
    ensures Inv(PlanBuilt(s, id).0) && PlanBuilt(s, id).1 != InvariantError
  {
    var i := ProposalAt(s.proposals, id);
    if AutoApproves(s, id) && TransitionAllowed(s.proposals[i], Approved, s.proposals) {
      MoveKeepsInv(s, i, Approved);
    } else {
      BuildKeepsState(s, id);
      OneActiveCount(s.proposals);
    }
  }

  lemma BuildKeepsState(s: Products, id: nat)
    requires var i := ProposalAt(s.proposals, id);
             !(AutoApproves(s, id) && TransitionAllowed(s.proposals[i], Approved, s.proposals))
    ensures PlanBuilt(s, id).0 == s
    ensures PlanBuilt(s, id).1 == InvariantError ==> ActiveCount(s.proposals) > 1
  {
  }

  lemma ExecuteKeepsInv(s: Products, id: nat)
    requires Inv(s)
    ensures Inv(PlanExecuted(s, id).0) && PlanExecuted(s, id).1 != InvariantError
  {
    var i := ProposalAt(s.proposals, id);
    if i < |s.proposals| && TransitionAllowed(s.proposals[i], ReadyForReview, s.proposals) {
      MoveKeepsInv(s, i, ReadyForReview);
    }
  }

  // ----- The flag across both stores -----

  /** The move takes a draft past approval while some launch still holds the flag. */
  ghost predicate LeavesStaleFlag(s: Products, e: Event) {
    && e.BuildPlan? && AutoApproves(s, e.proposalId)
    && !OtherActive(s.proposals, e.proposalId) && LaunchFlagged(s)
  }

  /** A move to a status that is not executing flags nothing new. */
  lemma MoveFlagsNothingNew(s: Products, i: nat, next: Status)
    requires Inv(s) && OneFlagged(s) && i < |s.proposals| && TransitionAllowed(s.proposals[i], next, s.proposals)
    requires !Executing(next)
    ensures OneFlagged(ProposalMoved(s, i, next))
  {
    MoveKeepsInv(s, i, next);
    var s' := ProposalMoved(s, i, next);
    assert forall j | 0 <= j < |s'.proposals| :: s'.proposals[j].flagged ==> s.proposals[j].flagged;
  }

  lemma AddFlagsNothingNew(s: Products, hasSource: bool)
    requires Inv(s) && OneFlagged(s)
    ensures OneFlagged(ProposalAdded(s, hasSource))
  {
    AddKeepsInv(s, hasSource);
    var s' := ProposalAdded(s, hasSource);
    var shift := |s.proposals| + 1 - |s'.proposals|;
    var all := s.proposals + [Proposal(s.nextProposal, Draft, false, hasSource)];
    forall j | 0 <= j < |s'.proposals| && s'.proposals[j].flagged
      ensures j + shift < |s.proposals| && s.proposals[j + shift].flagged
    {
      assert s'.proposals[j].status == all[j + shift].status;
    }
  }

  lemma AutoApprovalFlags(s: Products, id: nat)
    requires Inv(s) && OneFlagged(s) && AutoApproves(s, id) && !OtherActive(s.proposals, id)
    ensures OneFlagged(PlanBuilt(s, id).0) <==> !LaunchFlagged(s)
  {
    var i := ProposalAt(s.proposals, id);
    MoveKeepsInv(s, i, Approved);
    var s' := ProposalMoved(s, i, Approved);
    assert s'.proposals[i].flagged;
    forall j | 0 <= j < |s'.proposals| && s'.proposals[j].flagged ensures j == i {
      assert Active(s'.proposals[i].status) && Active(s'.proposals[j].status);
    }
  }

  /** One event keeps at most one item flagged exactly when it is not an automatic approval made
      while a launch is flagged. */
  lemma OneFlaggedIff(s: Products, e: Event)
    requires Inv(s) && OneFlagged(s)
    ensures OneFlagged(Handle(s, e).0) <==> !LeavesStaleFlag(s, e)
  {
    match e
    case ProposalGenerated(hasSource) => AddFlagsNothingNew(s, hasSource);
    case ProposalTransition(id, next) => TransitionFlags(s, id, next);
    case LaunchTransition(id, status) =>
      var i := LaunchAt(s.launches, id);
      if i < |s.launches| { LaunchSetKeepsInv(s, i, status); }
    case BuildPlan(id) =>
      if AutoApproves(s, id) && !OtherActive(s.proposals, id) { AutoApprovalFlags(s, id); }
    case ExecutePlan(id) =>
      var i := ProposalAt(s.proposals, id);
      if i < |s.proposals| && TransitionAllowed(s.proposals[i], ReadyForReview, s.proposals) {
        MoveFlagsNothingNew(s, i, ReadyForReview);
      }
  }

  lemma TransitionFlags(s: Products, id: nat, next: Status)
    requires Inv(s) && OneFlagged(s)
    ensures OneFlagged(Transitioned(s, id, next).0)
  {
    var i := ProposalAt(s.proposals, id);
    if i < |s.proposals| && TransitionAllowed(s.proposals[i], next, s.proposals) {
      MoveKeepsInv(s, i, next);
      FollowedKeepsInv(ProposalMoved(s, i, next), id, next);
      if !Executing(next) && next != Launched {
        MoveFlagsNothingNew(s, i, next);
      }
    }
  }

  /** Without an executing proposal a refresh flags the newest launch, whatever its status. */
  lemma FocusFallsOnNewestLaunch(s: Products, i: nat)
    requires Inv(s) && i < |s.launches| && forall p | p in s.proposals :: !Executing(p.status)
    ensures Refocused(s).launches[i].flagged <==> i == |s.launches| - 1
  {
    NewestWithFinds(s.proposals, Building);
    NewestWithFinds(s.proposals, Approved);
    assert i < |s.launches| - 1 ==> s.launches[i].id < s.launches[|s.launches| - 1].id;
  }

  // ----- Runs -----

  function Run(s: Products, events: seq<Event>): Products {
    if events == [] then s else Handle(Run(s, events[..|events| - 1]), events[|events| - 1]).0
  }

  function Empty(proposalCapacity: nat, launchCapacity: nat): Products {
    Products([], [], 0, 0, proposalCapacity, launchCapacity)
  }

  lemma {:induction false} RunKeepsInv(s: Products, events: seq<Event>)
    requires Inv(s)
    ensures Inv(Run(s, events))
  {
    if events != [] {
      RunKeepsInv(s, events[..|events| - 1]);
      HandleKeepsInv(Run(s, events[..|events| - 1]), events[|events| - 1]);
    }
  }

  /** Over every run: at most one proposal is active, so validation never fails, and a proposal is
      flagged exactly when it is the proposals-only selection. */
  lemma LifecycleIsSafe(proposalCapacity: nat, launchCapacity: nat, events: seq<Event>, e: Event)
    requires proposalCapacity >= 1 && launchCapacity >= 1
    ensures var s := Run(Empty(proposalCapacity, launchCapacity), events);
            && OneActive(s.proposals) && ActiveCount(s.proposals) <= 1
            && FlagsFollowSelection(s.proposals)
            && Handle(s, e).1 != InvariantError
  {
    var s := Run(Empty(proposalCapacity, launchCapacity), events);
    RunKeepsInv(Empty(proposalCapacity, launchCapacity), events);
    OneActiveCount(s.proposals);
    FlagsAreTheSelection(s);
    HandleKeepsInv(s, e);
  }

  /** Over every run without an automatic approval at most one item is flagged. */
  lemma {:induction false} OneFlaggedOverRuns(s: Products, events: seq<Event>)
    requires Inv(s) && OneFlagged(s)
    requires forall k | 0 <= k < |events| :: !LeavesStaleFlag(Run(s, events[..k]), events[k])
    ensures OneFlagged(Run(s, events))
  {
    if events != [] {
      var n := |events| - 1;
      forall k | 0 <= k < n ensures !LeavesStaleFlag(Run(s, events[..n][..k]), events[..n][k]) {
        assert events[..n][..k] == events[..k];
      }
      OneFlaggedOverRuns(s, events[..n]);
      RunKeepsInv(s, events[..n]);
      OneFlaggedIff(Run(s, events[..n]), events[n]);
    }
  }

  // ----- A run that leaves two items flagged -----

  /** One proposal in this status, without launches. */
  function Lone(status: Status): Products {
    Products([Proposal(0, status, Executing(status), true)], [], 1, 0, 2, 2)
  }

  /** The first proposal launched. */
  function LaunchedState(ps: seq<Proposal>): Products {
    Products([Proposal(0, Launched, false, true)] + ps, [Launch(0, 0, Running, true)], 1 + |ps|, 1, 2, 2)
  }

  lemma SelectOne(p: Proposal, ls: seq<Launch>)
    ensures SelectActive([p], ls) == if Executing(p.status) then OnProposal(p.id) else SelectActive([], ls)
    ensures ActiveCount([p]) <= 1
  {
    assert [p][..0] == [];
    assert forall status: Status :: NewestWith([p], status) == if p.status == status then Some(p.id) else None;
  }

  lemma SelectLast(p: Proposal, q: Proposal, ls: seq<Launch>)
    requires q.status == Draft
    ensures SelectActive([p] + [q], ls) == SelectActive([p], ls)
  {
    assert ([p] + [q])[..1] == [p];
  }

  lemma LoneMoves(a: Status, b: Status)
    requires Edge(a, b) && b != Launched
    ensures ProposalMoved(Lone(a), 0, b) == Lone(b) && ActiveCount(Lone(b).proposals) <= 1
    ensures ProposalAt(Lone(a).proposals, 0) == 0 && TransitionAllowed(Lone(a).proposals[0], b, Lone(a).proposals)
    ensures Refocused(Lone(b)) == Lone(b)
  {
    var p := Proposal(0, b, Executing(a), true);
    assert Lone(a).proposals[0 := Lone(a).proposals[0].(status := b)] == [p];
    SelectOne(p, []);
    assert RefocusedProposals([p]) == Lone(b).proposals;
    SelectOne(Lone(b).proposals[0], []);
    assert FlagProposals(Lone(b).proposals, SelectActive(Lone(b).proposals, [])) == Lone(b).proposals;
  }

  lemma FirstGenerated()
    ensures Handle(Empty(2, 2), ProposalGenerated(true)).0 == Lone(Draft)
  {
    assert [] + [Proposal(0, Draft, false, true)] == Lone(Draft).proposals;
    assert Lone(Draft).proposals[..0] == [];
  }

  lemma LoneLaunches()
    ensures Handle(Lone(ReadyForReview), ProposalTransition(0, Launched)).0 == LaunchedState([])
  {
    var s := Lone(ReadyForReview);
    LoneMovesToLaunched();
    LaunchedFollows();
    assert ProposalAt(s.proposals, 0) == 0 && TransitionAllowed(s.proposals[0], Launched, s.proposals);
  }

  lemma LoneMovesToLaunched()
    ensures ProposalMoved(Lone(ReadyForReview), 0, Launched) == Lone(Launched)
  {
    var p := Proposal(0, Launched, false, true);
    assert Lone(ReadyForReview).proposals[0 := p] == [p];
    SelectOne(p, []);
    assert RefocusedProposals([p]) == Lone(Launched).proposals;
  }

  lemma LaunchedFollows()
    ensures Followed(Lone(Launched), 0, Launched).0 == LaunchedState([])
  {
    var p := Proposal(0, Launched, false, true);
    SelectOne(p, [Launch(0, 0, Drafted, false)]);
    SelectOne(p, [Launch(0, 0, Running, true)]);
    assert [] + [Launch(0, 0, Drafted, false)] == [Launch(0, 0, Drafted, false)];
    var added := LaunchAdded(Lone(Launched), 0);
    assert added.launches == [Launch(0, 0, Drafted, true)] && added.proposals == [p];
    LaunchRuns(added);
  }

  lemma LaunchRuns(added: Products)
    requires added == Products([Proposal(0, Launched, false, true)], [Launch(0, 0, Drafted, true)], 1, 1, 2, 2)
    ensures LaunchOf(added.launches, 0) == Some(added.launches[0]) && LaunchAt(added.launches, 0) == 0
    ensures var marked := LaunchSet(added, 0, Running);
            marked == LaunchedState([]) && Refocused(marked) == marked && ActiveCount(marked.proposals) <= 1
  {
    var p := added.proposals[0];
    SelectOne(p, [Launch(0, 0, Running, true)]);
    var marked := LaunchSet(added, 0, Running);
    assert marked.launches == [Launch(0, 0, Running, true)] && marked.proposals == [p];
    assert [p] + [] == [p];
  }

  lemma SecondGenerated()
    ensures Handle(LaunchedState([]), ProposalGenerated(true)).0 == LaunchedState([Proposal(1, Draft, false, true)])
  {
    var ps := [Proposal(0, Launched, false, true)] + [Proposal(1, Draft, false, true)];
    SelectOne(ps[0], []);
    SelectLast(ps[0], ps[1], []);
    assert LaunchedState([]).proposals == [Proposal(0, Launched, false, true)];
    assert RefocusedProposals(ps) == ps;
  }

  lemma SecondAutoApproved()
    ensures var s := LaunchedState([Proposal(1, Draft, false, true)]);
            LeavesStaleFlag(s, BuildPlan(1)) && Inv(s) && OneFlagged(s)
  {
    var s := LaunchedState([Proposal(1, Draft, false, true)]);
    assert s.proposals == [Proposal(0, Launched, false, true), Proposal(1, Draft, false, true)];
    assert s.launches[0].flagged;
    SecondWaits(s.proposals);
  }

  lemma SecondWaits(ps: seq<Proposal>)
    requires ps == [Proposal(0, Launched, false, true), Proposal(1, Draft, false, true)]
    ensures ProposalAt(ps, 1) == 1 && !OtherActive(ps, 1)
    ensures DistinctProposals(ps, 2) && OneActive(ps) && FlagsFollowStatus(ps)
    ensures forall i | 0 <= i < |ps| :: !ps[i].flagged
  {
    assert ps[0].id != 1 && ps[1].id == 1;
  }

  lemma RunThen(s: Products, events: seq<Event>, e: Event)
    ensures Run(s, events + [e]) == Handle(Run(s, events), e).0
  {
    assert (events + [e])[..|events|] == events;
  }

  function UpToReview(): seq<Event> {
    [ProposalGenerated(true)] + [ProposalTransition(0, Approved)] + [ProposalTransition(0, Building)]
    + [ProposalTransition(0, ReadyToLaunch)] + [ExecutePlan(0)]
  }

  lemma ReviewReached()
    ensures Run(Empty(2, 2), UpToReview()) == Lone(ReadyForReview)
  {
    var a := [ProposalGenerated(true)];
    var b := a + [ProposalTransition(0, Approved)];
    var c := b + [ProposalTransition(0, Building)];
    var d := c + [ProposalTransition(0, ReadyToLaunch)];
    assert [] + a == a;
    FirstGenerated();
    RunThen(Empty(2, 2), [], ProposalGenerated(true));
    LoneMoves(Draft, Approved);
    RunThen(Empty(2, 2), a, ProposalTransition(0, Approved));
    LoneMoves(Approved, Building);
    RunThen(Empty(2, 2), b, ProposalTransition(0, Building));
    LoneMoves(Building, ReadyToLaunch);
    RunThen(Empty(2, 2), c, ProposalTransition(0, ReadyToLaunch));
    LoneMoves(ReadyToLaunch, ReadyForReview);
    RunThen(Empty(2, 2), d, ExecutePlan(0));
  }

  /** The automatic approval breaks the single flag: launch one proposal, then plan another. */
  lemma TwoItemsFlagged() returns (events: seq<Event>)
    ensures !OneFlagged(Run(Empty(2, 2), events))
  {
    var launch := UpToReview() + [ProposalTransition(0, Launched)];
    var second := launch + [ProposalGenerated(true)];
    events := second + [BuildPlan(1)];
    ReviewReached();
    LoneLaunches();
    RunThen(Empty(2, 2), UpToReview(), ProposalTransition(0, Launched));
    SecondGenerated();
    RunThen(Empty(2, 2), launch, ProposalGenerated(true));
    SecondAutoApproved();
    RunThen(Empty(2, 2), second, BuildPlan(1));
    OneFlaggedIff(LaunchedState([Proposal(1, Draft, false, true)]), BuildPlan(1));
  }

  // ----- One proposal's life -----

  function StatusOf(s: Products, id: nat): Option<Status> {
    var i := ProposalAt(s.proposals, id);
    if i < |s.proposals| then Some(s.proposals[i].status) else None
  }

  function Rank(s: Status): nat {
    match s
    case Draft => 0
    case Approved => 1
    case Rejected => 1
    case Building => 2
    case ReadyToLaunch => 3
    case ReadyForReview => 4
    case Launched => 5
    case Archived => 6
  }

  /** What one event may do to one proposal. */
  ghost predicate StatusStep(before: Option<Status>, after: Option<Status>, isNew: bool) {
    || after == before
    || (before.Some? && after.Some? && Edge(before.value, after.value))
    || (before.None? && isNew && after == Some(Draft))
    || after.None?
  }

  lemma {:induction false} AtUnique(ps: seq<Proposal>, next: nat, i: nat)
    requires DistinctProposals(ps, next) && i < |ps|
    ensures ProposalAt(ps, ps[i].id) == i
  {
    var k := ProposalAt(ps, ps[i].id);
    assert k <= i && ps[k].id == ps[i].id;
  }

  lemma {:induction false} SameIds(a: seq<Proposal>, b: seq<Proposal>, id: nat)
    requires |a| == |b| && forall i | 0 <= i < |a| :: a[i].id == b[i].id
    ensures ProposalAt(a, id) == ProposalAt(b, id)
  {
    if a != [] {
      SameIds(a[1..], b[1..], id);
    }
  }

  lemma MoveStatus(s: Products, i: nat, next: Status, id: nat)
    requires Inv(s) && i < |s.proposals| && TransitionAllowed(s.proposals[i], next, s.proposals)
    ensures StatusOf(ProposalMoved(s, i, next), id)
         == if id == s.proposals[i].id then Some(next) else StatusOf(s, id)
  {
    MoveKeepsInv(s, i, next);
    SameIds(s.proposals, ProposalMoved(s, i, next).proposals, id);
    AtUnique(s.proposals, s.nextProposal, i);
  }

  lemma SameStatusOf(s: Products, s': Products, id: nat)
    requires SameStatuses(s, s')
    ensures StatusOf(s', id) == StatusOf(s, id)
  {
    SameIds(s.proposals, s'.proposals, id);
  }

  lemma AddStatus(s: Products, hasSource: bool, id: nat)
    requires Inv(s)
    ensures StatusStep(StatusOf(s, id), StatusOf(ProposalAdded(s, hasSource), id), id == s.nextProposal)
    ensures id > s.nextProposal ==> StatusOf(ProposalAdded(s, hasSource), id).None?
  {
    AddKeepsInv(s, hasSource);
    var s' := ProposalAdded(s, hasSource);
    var all := s.proposals + [Proposal(s.nextProposal, Draft, false, hasSource)];
    var j := ProposalAt(s'.proposals, id);
    if j < |s'.proposals| {
      var k := j + |all| - |s'.proposals|;
      assert s'.proposals[j].status == all[k].status && s'.proposals[j].id == all[k].id;
      if k < |s.proposals| {
        AtUnique(s.proposals, s.nextProposal, k);
      } else {
        NoneBeyondNext(s, id);
      }
    }
  }

  /** What follows the move of a transition event changes no status. */
  lemma TransitionIsMove(s: Products, moved: nat, next: Status)
    requires Inv(s)
    ensures var i, s' := ProposalAt(s.proposals, moved), Transitioned(s, moved, next).0;
            if i < |s.proposals| && TransitionAllowed(s.proposals[i], next, s.proposals)
            then SameStatuses(ProposalMoved(s, i, next), s') && (next != Launched ==> s'.nextLaunch == s.nextLaunch)
            else s' == s
  {
    var i := ProposalAt(s.proposals, moved);
    if i < |s.proposals| && TransitionAllowed(s.proposals[i], next, s.proposals) {
      MoveKeepsInv(s, i, next);
      FollowedKeepsInv(ProposalMoved(s, i, next), moved, next);
    }
  }

  lemma TransitionStatus(s: Products, moved: nat, next: Status, id: nat)
    requires Inv(s)
    ensures StatusStep(StatusOf(s, id), StatusOf(Transitioned(s, moved, next).0, id), false)
    ensures Transitioned(s, moved, next).0.nextLaunch != s.nextLaunch && id == moved ==>
              StatusOf(s, id) == Some(ReadyForReview) && StatusOf(Transitioned(s, moved, next).0, id) == Some(Launched)
  {
    var i, s' := ProposalAt(s.proposals, moved), Transitioned(s, moved, next).0;
    TransitionIsMove(s, moved, next);
    if i < |s.proposals| && TransitionAllowed(s.proposals[i], next, s.proposals) {
      MoveStatus(s, i, next, id);
      SameStatusOf(ProposalMoved(s, i, next), s', id);
    }
  }

  /** Every event moves every proposal along an edge of the graph, or not at all; only a fresh
      proposal appears, and only a launch transition creates a launch. */
  lemma HandleStatus(s: Products, e: Event, id: nat)
    requires Inv(s)
    ensures StatusStep(StatusOf(s, id), StatusOf(Handle(s, e).0, id), id == s.nextProposal)
    ensures s.nextProposal <= Handle(s, e).0.nextProposal
    ensures id >= Handle(s, e).0.nextProposal ==> StatusOf(Handle(s, e).0, id).None?
    ensures Handle(s, e).0.nextLaunch != s.nextLaunch ==>
              e.ProposalTransition? && StatusOf(s, e.proposalId) == Some(ReadyForReview)
              && StatusOf(Handle(s, e).0, e.proposalId) == Some(Launched)
  {
    HandleKeepsInv(s, e);
    NoneBeyondNext(Handle(s, e).0, id);
    match e
    case ProposalGenerated(hasSource) => AddStatus(s, hasSource, id);
    case ProposalTransition(moved, next) =>
      TransitionStatus(s, moved, next, id);
      TransitionStatus(s, moved, next, moved);
      TransitionIsMove(s, moved, next);
    case LaunchTransition(launchId, status) => LaunchMoveStatus(s, launchId, status, id);
    case BuildPlan(built) => PlanStatus(s, built, Approved, id);
    case ExecutePlan(executed) => PlanStatus(s, executed, ReadyForReview, id);
  }

  lemma LaunchMoveStatus(s: Products, launchId: nat, status: LaunchStatus, id: nat)
    requires Inv(s)
    ensures var s' := LaunchMoved(s, launchId, status).0;
            StatusOf(s', id) == StatusOf(s, id) && s'.nextProposal == s.nextProposal && s'.nextLaunch == s.nextLaunch
  {
    var i := LaunchAt(s.launches, launchId);
    if i < |s.launches| {
      LaunchSetKeepsInv(s, i, status);
      SameStatusOf(s, LaunchSet(s, i, status), id);
    }
  }

  lemma PlanStatus(s: Products, moved: nat, next: Status, id: nat)
    requires Inv(s) && (next == Approved || next == ReadyForReview)
    ensures var s' := if next == Approved then PlanBuilt(s, moved).0 else PlanExecuted(s, moved).0;
            && StatusStep(StatusOf(s, id), StatusOf(s', id), false)
            && s'.nextProposal == s.nextProposal && s'.nextLaunch == s.nextLaunch
  {
    var i := ProposalAt(s.proposals, moved);
    if i < |s.proposals| && TransitionAllowed(s.proposals[i], next, s.proposals) {
      MoveStatus(s, i, next, id);
    }
  }

  lemma NoneBeyondNext(s: Products, id: nat)
    requires Inv(s)
    ensures id >= s.nextProposal ==> StatusOf(s, id).None?
  {
  }

  /** How often the proposal changed status along the run. */
  ghost function Changes(s: Products, events: seq<Event>, id: nat): nat {
    if events == [] then 0
    else
      var before := Run(s, events[..|events| - 1]);
      var after := Handle(before, events[|events| - 1]).0;
      Changes(s, events[..|events| - 1], id)
      + if Changed(StatusOf(before, id), StatusOf(after, id)) then 1 else 0
  }

  /** How many launches the run created for the proposal. */
  ghost function LaunchesCreated(s: Products, events: seq<Event>, id: nat): nat {
    if events == [] then 0
    else
      var before, e := Run(s, events[..|events| - 1]), events[|events| - 1];
      LaunchesCreated(s, events[..|events| - 1], id)
      + if Handle(before, e).0.nextLaunch != before.nextLaunch && e.ProposalTransition? && e.proposalId == id
        then 1 else 0
  }

  /** The counts so far agree with where the proposal stands. */
  ghost predicate LifeAt(status: Option<Status>, unborn: bool, changes: nat, launches: nat) {
    && changes <= 6 && launches <= 1
    && (status.Some? && status.value != Archived ==> changes == Rank(status.value))
    && (status == Some(Archived) ==> changes >= 2)
    && (unborn ==> changes == 0 && launches == 0 && status.None?)
    && (launches == 1 ==> status in {None, Some(Launched), Some(Archived)})
  }

  ghost predicate Changed(before: Option<Status>, after: Option<Status>) {
    before.Some? && after.Some? && before != after
  }

  lemma LifeStep(before: Option<Status>, after: Option<Status>, unborn: bool, stillUnborn: bool, launched: bool,
                 changes: nat, launches: nat)
    requires LifeAt(before, unborn, changes, launches) && StatusStep(before, after, unborn)
    requires stillUnborn ==> unborn && after.None?
    requires launched ==> before == Some(ReadyForReview) && after == Some(Launched)
    ensures LifeAt(after, stillUnborn, changes + (if Changed(before, after) then 1 else 0),
                   launches + if launched then 1 else 0)
  {
  }

  ghost predicate Life(s: Products, id: nat, changes: nat, launches: nat) {
    LifeAt(StatusOf(s, id), id >= s.nextProposal, changes, launches)
  }

  lemma LifeGoesOn(s: Products, e: Event, id: nat, changes: nat, launches: nat)
    requires Inv(s) && Life(s, id, changes, launches)
    ensures var s' := Handle(s, e).0;
            var launched := s'.nextLaunch != s.nextLaunch && e.ProposalTransition? && e.proposalId == id;
            Life(s', id, changes + (if Changed(StatusOf(s, id), StatusOf(s', id)) then 1 else 0),
                 launches + if launched then 1 else 0)
  {
    HandleStatus(s, e, id);
    var s' := Handle(s, e).0;
    var launched := s'.nextLaunch != s.nextLaunch && e.ProposalTransition? && e.proposalId == id;
    LifeStep(StatusOf(s, id), StatusOf(s', id), id >= s.nextProposal, id >= s'.nextProposal, launched, changes, launches);
  }

  lemma {:induction false} LifeOverRuns(start: Products, events: seq<Event>, id: nat)
    requires Inv(start) && StatusOf(start, id).None?
    ensures Life(Run(start, events), id, Changes(start, events, id), LaunchesCreated(start, events, id))
  {
    if events != [] {
      var n := |events| - 1;
      LifeOverRuns(start, events[..n], id);
      RunKeepsInv(start, events[..n]);
      LifeGoesOn(Run(start, events[..n]), events[n], id, Changes(start, events[..n], id),
                 LaunchesCreated(start, events[..n], id));
    }
  }

  /** Every proposal changes status at most six times, skips no stage (one that is launched made
      exactly five changes), and gets at most one launch. */
  lemma OneLifePerProposal(proposalCapacity: nat, launchCapacity: nat, events: seq<Event>, id: nat)
    requires proposalCapacity >= 1 && launchCapacity >= 1
    ensures var start := Empty(proposalCapacity, launchCapacity);
            && Changes(start, events, id) <= 6 && LaunchesCreated(start, events, id) <= 1
            && (StatusOf(Run(start, events), id) == Some(Launched) ==> Changes(start, events, id) == 5)
  {
    LifeOverRuns(Empty(proposalCapacity, launchCapacity), events, id);
  }
}
