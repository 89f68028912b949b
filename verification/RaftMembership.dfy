/** Raft membership, the guards in front of a membership change, and the fixed-voter plan. */
module RaftMembership {
  import opened Prelude
  import opened ConsensusTypes
  import opened ClusterControl

  /** Voter configurations (two while joint) and the addresses of all members, learners included. */
  datatype Membership = Membership(configs: seq<set<NodeId>>, nodes: map<NodeId, string>)

  function VotersOf(configs: seq<set<NodeId>>): set<NodeId> {
    set c, v | c in configs && v in c :: v
  }

  function Voters(m: Membership): set<NodeId> {
    VotersOf(m.configs)
  }

  function Last(m: Membership): set<NodeId>
    requires m.configs != []
  {
    m.configs[|m.configs| - 1]
  }

  /** The next configuration on the way to a goal; voters that drop out leave the group. */
  function NextCoherent(m: Membership, goal: set<NodeId>): Membership
    requires m.configs != []
  {
    var configs := if goal in m.configs then [goal] else [Last(m), goal];
    Membership(configs, m.nodes - (Voters(m) - VotersOf(configs)))
  }

  // ---- The fixed-voter plan

  /** The node that a REMOVE transition takes out. */
  function Leaving(c: Cluster): set<NodeId> {
    if c.transition.Some? && c.transition.value.kind.Remove? then {c.transition.value.nodeId} else {}
  }

  function Eligible(c: Cluster): set<NodeId> {
    ActiveIds(c.nodes) - Leaving(c)
  }

  /** Keep every eligible voter, fill up to the target, prefer the lowest identities. */
  predicate IsPlan(voters: set<NodeId>, eligible: set<NodeId>, plan: set<NodeId>) {
    && voters * eligible <= plan <= eligible
    && |plan| == VoterTarget(|eligible|)
    && forall x, y :: x in plan && x !in voters && y in eligible && y !in plan ==> x < y
  }

  /** There is only one plan. */
  lemma PlanIsUnique(voters: set<NodeId>, eligible: set<NodeId>, p: set<NodeId>, q: set<NodeId>)
    requires IsPlan(voters, eligible, p) && IsPlan(voters, eligible, q)
    ensures p == q
  {
    if p <= q {
      SmallerWithin(p, q);
    } else if q <= p {
      SmallerWithin(q, p);
    }
  }

  datatype PlanError =
    | NoTransitionNow | FenceDiffers | DescriptorMissing | ActivationFirst | NoVoterChange | EmptyVoters
    | AddressDiffers | CandidateAbsent | TooManyVoters | NotEnoughMembers | NotCommitted
    | VoterRefused

  /** The first of a set in ascending order. */
  method PickLeast(s: set<NodeId>) returns (least: NodeId)
    requires s != {}
    ensures least in s && forall other :: other in s ==> least <= other
  {
    least :| least in s;
    var rest := s - {least};
    while rest != {}
      invariant rest <= s && least in s
      invariant forall other :: other in s && other !in rest ==> least <= other
    {
      var next :| next in rest;
      if next < least {
        least := next;
      }
      rest := rest - {next};
    }
  }

  lemma GrownIsPlan(voters: set<NodeId>, eligible: set<NodeId>, rest: set<NodeId>, desired: set<NodeId>)
    requires rest <= eligible && desired == voters * eligible + (eligible - rest)
    requires forall x, y :: x in eligible && x !in rest && y in rest ==> x < y
    requires |desired| == VoterTarget(|eligible|)
    ensures IsPlan(voters, eligible, desired)
  {
  }

  /** Grow the surviving voters in ascending identity order until the target is met. */
  method PlanVoters(voters: set<NodeId>, eligible: set<NodeId>) returns (r: Result<set<NodeId>, PlanError>)
    ensures r.Ok? <==> eligible != {} && |voters * eligible| <= FIXED_VOTER_TARGET
    ensures r.Ok? ==> IsPlan(voters, eligible, r.value)
    ensures r.Err? ==> r.error == if eligible == {} then EmptyVoters else TooManyVoters
  {
    var target := VoterTarget(|eligible|);
    if target == 0 {
      return Err(EmptyVoters);
    }
    var desired := voters * eligible;
    SmallerWithin(desired, eligible);
    if |desired| > target {
      return Err(TooManyVoters);
    }
    var rest := eligible;
    while rest != {} && |desired| != target
      invariant rest <= eligible
      invariant desired == voters * eligible + (eligible - rest)
      invariant forall x, y :: x in eligible && x !in rest && y in rest ==> x < y
      invariant |desired| <= target
    {
      var id := PickLeast(rest);
      desired := desired + {id};
      rest := rest - {id};
    }
    if rest == {} {
      assert desired == eligible;
    }
    if |desired| != target {
      return Err(NotEnoughMembers);
    }
    GrownIsPlan(voters, eligible, rest, desired);
    return Ok(desired);
  }

  // ---- Guarded membership changes

  datatype Action =
    | Genesis(members: map<NodeId, string>)
    | AddLearner(id: NodeId, address: string)
    | ChangeVoters(goal: set<NodeId>)
    | Flatten
    | RemoveLearner(id: NodeId)

  /** Before the first descriptor any learner may join; afterwards only the JOINING node, at its own address. */
  predicate LearnerGuard(c: Cluster, id: NodeId, address: string) {
    && ValidNode(id)
    && (c.nodes != map[] ==>
        && c.transition.Some? && c.transition.value.kind.Add? && c.transition.value.nodeId == id
        && id in c.nodes && c.nodes[id].state.Joining? && c.nodes[id].address == address)
  }

  /** Voters change only in an activated ADD or a REMOVE, to a full set of ACTIVE nodes that stay. */
  predicate VotersGuard(c: Cluster, goal: set<NodeId>) {
    && goal != {} && (forall v :: v in goal ==> ValidNode(v))
    && (c.nodes != map[] ==>
        && c.transition.Some?
        && (match c.transition.value.kind
            case Add => IsActive(c.nodes, c.transition.value.nodeId) && |goal| == VoterTarget(|ActiveIds(c.nodes)|)
            case Remove => |ActiveIds(c.nodes)| > 0 && |goal| == VoterTarget(|ActiveIds(c.nodes)| - 1)
            case Reweight => false)
        && (forall v :: v in goal ==> IsActive(c.nodes, v) && v !in Leaving(c)))
  }

  /** What the group accepts, given the guards above and the plan as the only source of voter goals. */
  predicate Enabled(c: Cluster, m: Membership, pristine: bool, a: Action) {
    match a
    case Genesis(members) => pristine && members != map[] && forall id :: id in members ==> ValidNode(id)
    case AddLearner(id, address) => m.configs != [] && LearnerGuard(c, id, address)
    case ChangeVoters(goal) =>
      && m.configs != [] && goal <= m.nodes.Keys && VotersGuard(c, goal)
      && (c.nodes != map[] ==> IsPlan(Voters(m), Eligible(c), goal))
    case Flatten => m.configs != []
    case RemoveLearner(id) =>
      && m.configs != [] && id !in Voters(m)
      && c.transition.Some? && c.transition.value.kind.Remove? && c.transition.value.nodeId == id
  }

  function Effect(m: Membership, a: Action): Membership
    requires !a.Genesis? ==> m.configs != []
  {
    match a
    case Genesis(members) => Membership([members.Keys], members)
    case AddLearner(id, address) => if id in m.nodes then m else m.(nodes := m.nodes[id := address])
    case ChangeVoters(goal) => NextCoherent(m, goal)
    case Flatten => NextCoherent(m, Last(m))
    case RemoveLearner(id) => m.(nodes := m.nodes - {id})
  }

  // ---- What every guarded change keeps

  predicate ConfigsOk(m: Membership) {
    forall c :: c in m.configs ==> c != {} && c <= m.nodes.Keys
  }

  /** Every member has a descriptor with its address. */
  predicate MembersOk(nodes: Nodes, m: Membership) {
    forall id :: id in m.nodes ==> id in nodes && nodes[id].address == m.nodes[id]
  }

  /** Only the leaving node can be a voter that the newest configuration lacks. */
  predicate LastOk(c: Cluster, m: Membership) {
    m.configs != [] ==> Voters(m) - Last(m) <= Leaving(c)
  }

  predicate ActiveMembersOk(c: Cluster, m: Membership) {
    forall id :: id in ActiveIds(c.nodes) ==> id in m.nodes || id in Leaving(c)
  }

  /** Outside an activated ADD and a REMOVE the voter count is at its target. */
  predicate VotersSettled(nodes: Nodes, transition: Option<Transition>) {
    transition.Some? ==>
      match transition.value.kind
      case Add => transition.value.nodeId in nodes && nodes[transition.value.nodeId].state.Joining?
      case Remove => false
      case Reweight => true
  }

  predicate VotersOk(c: Cluster, m: Membership) {
    && Voters(m) <= ActiveIds(c.nodes)
    && |Voters(m) * Eligible(c)| <= FIXED_VOTER_TARGET
    && (VotersSettled(c.nodes, c.transition) ==> |Voters(m)| == VoterTarget(|ActiveIds(c.nodes)|))
  }

  predicate MemberInv(c: Cluster, m: Membership) {
    && ConfigsOk(m)
    && (c.nodes != map[] ==> MembersOk(c.nodes, m) && LastOk(c, m))
    && (ActiveIds(c.nodes) != {} ==> ActiveMembersOk(c, m) && VotersOk(c, m))
  }

  lemma VotersAreMembers(m: Membership)
    requires ConfigsOk(m)
    ensures Voters(m) <= m.nodes.Keys
  {
  }

  /** Once a node is ACTIVE, a plan exists in every activated ADD and every REMOVE, and it passes the guard. */
  lemma PlanPassesGuard(c: Cluster, m: Membership, n: nat, goal: set<NodeId>)
    requires NodesOk(c.nodes) && TransitionOk(c, n) && ActiveMembersOk(c, m)
    requires ActiveIds(c.nodes) != {} && !VotersSettled(c.nodes, c.transition) && IsPlan(Voters(m), Eligible(c), goal)
    ensures Eligible(c) != {} && goal <= m.nodes.Keys && VotersGuard(c, goal)
  {
    EligibleCount(c, n);
    EligibleMembers(c, m, goal);
    assert !VotersSettled(c.nodes, c.transition) ==> c.transition.Some? && !c.transition.value.kind.Reweight?;
  }

  lemma EligibleMembers(c: Cluster, m: Membership, goal: set<NodeId>)
    requires NodesOk(c.nodes) && ActiveMembersOk(c, m) && goal <= Eligible(c)
    ensures goal <= m.nodes.Keys
    ensures forall v :: v in goal ==> IsActive(c.nodes, v) && v !in Leaving(c) && ValidNode(v)
  {
    forall v | v in goal
      ensures IsActive(c.nodes, v) && v !in Leaving(c) && ValidNode(v) && v in m.nodes
    {
      assert v in Eligible(c);
      assert NodeOk(v, c.nodes[v]);
    }
  }

  lemma EligibleCount(c: Cluster, n: nat)
    requires TransitionOk(c, n) && ActiveIds(c.nodes) != {}
    ensures |Eligible(c)| == |ActiveIds(c.nodes)| - |Leaving(c)| > 0
  {
    assert Leaving(c) <= ActiveIds(c.nodes);
    assert ActiveIds(c.nodes) == Eligible(c) + Leaving(c);
  }

  lemma ChangeKeepsInv(c: Cluster, m: Membership, goal: set<NodeId>)
    requires MemberInv(c, m) && m.configs != [] && goal != {} && goal <= m.nodes.Keys
    requires c.nodes != map[] ==> IsPlan(Voters(m), Eligible(c), goal) && ActiveIds(c.nodes) != {} && !VotersSettled(c.nodes, c.transition)
    ensures MemberInv(c, NextCoherent(m, goal))
  {
    var m' := NextCoherent(m, goal);
    assert Last(m) in m.configs;
    assert Last(m') == goal;
    if c.nodes != map[] {
      forall v | v in Voters(m) && v !in goal
        ensures v in Leaving(c)
      {
        assert v in ActiveIds(c.nodes);
      }
      assert Voters(m') <= Voters(m) + goal;
      assert Voters(m') * Eligible(c) <= goal;
      SmallerWithin(Voters(m') * Eligible(c), goal);
    }
  }

  /** Completing a joint configuration drops at most the leaving node. */
  lemma FlattenKeepsInv(c: Cluster, m: Membership)
    requires MemberInv(c, m) && m.configs != []
    ensures MemberInv(c, NextCoherent(m, Last(m)))
  {
    var m' := NextCoherent(m, Last(m));
    FlattenShape(m);
    if ActiveIds(c.nodes) != {} {
      FlattenKeepsVoters(c, m, m');
    }
  }

  lemma FlattenShape(m: Membership)
    requires ConfigsOk(m) && m.configs != []
    ensures var m' := NextCoherent(m, Last(m));
            && ConfigsOk(m') && Voters(m') == Last(m) <= Voters(m) && m'.configs == [Last(m)]
            && m'.nodes == m.nodes - (Voters(m) - Last(m))
  {
    assert Last(m) in m.configs;
    assert VotersOf([Last(m)]) == Last(m);
  }

  lemma FlattenKeepsVoters(c: Cluster, m: Membership, m': Membership)
    requires VotersOk(c, m) && m.configs != [] && LastOk(c, m) && Voters(m') == Last(m) <= Voters(m)
    ensures VotersOk(c, m')
  {
    SmallerWithin(Voters(m') * Eligible(c), Voters(m) * Eligible(c));
    if VotersSettled(c.nodes, c.transition) {
      assert Leaving(c) == {};
      assert Voters(m') == Voters(m);
    }
  }

  /** Every membership change that its guard lets through keeps members described and voters ACTIVE and counted. */
  lemma ActionKeepsInv(c: Cluster, m: Membership, n: nat, pristine: bool, a: Action)
    requires ClusterInv(c, n) && MemberInv(c, m) && Enabled(c, m, pristine, a) && (pristine ==> c.nodes == map[])
    ensures MemberInv(c, Effect(m, a))
  {
    match a
    case Genesis(members) =>
      assert members.Keys != {} by {
        var id :| id in members;
        assert id in members.Keys;
      }
    case AddLearner(id, address) =>
    case ChangeVoters(goal) =>
      if c.nodes != map[] {
        assert IsActive(c.nodes, c.transition.value.nodeId);
        assert c.transition.value.nodeId in ActiveIds(c.nodes);
      }
      ChangeKeepsInv(c, m, goal);
    case Flatten => FlattenKeepsInv(c, m);
    case RemoveLearner(id) =>
  }

  lemma CoherentVoters(m: Membership, goal: set<NodeId>)
    requires m.configs != []
    ensures goal <= Voters(NextCoherent(m, goal)) <= Voters(m) + goal
  {
    assert goal in NextCoherent(m, goal).configs && Last(m) in m.configs;
  }

  lemma PlanStands(voters: set<NodeId>, between: set<NodeId>, eligible: set<NodeId>, goal: set<NodeId>, again: set<NodeId>)
    requires IsPlan(voters, eligible, goal) && goal <= between <= voters + goal && IsPlan(between, eligible, again)
    ensures again == goal
  {
    assert between * eligible == goal;
    SmallerWithin(goal, again);
  }

  /** From a half-done change to a plan, planning again finds the same set. */
  lemma PlanResumes(c: Cluster, m: Membership, goal: set<NodeId>, again: set<NodeId>)
    requires m.configs != []
    requires IsPlan(Voters(m), Eligible(c), goal) && IsPlan(Voters(NextCoherent(m, goal)), Eligible(c), again)
    ensures again == goal
    ensures NextCoherent(NextCoherent(m, goal), goal).configs == [goal]
  {
    CoherentVoters(m, goal);
    PlanStands(Voters(m), Voters(NextCoherent(m, goal)), Eligible(c), goal, again);
    assert goal in NextCoherent(m, goal).configs;
  }

  // ---- Driving a transition's voter change

  /** A voter change that an ADD or REMOVE with this fence is waiting for. */
  predicate AwaitsVoters(c: Cluster, started: nat) {
    c.transition.Some? && c.transition.value.started == started && !VotersSettled(c.nodes, c.transition)
  }

  ghost predicate Healthy(c: Cluster, m: Membership, n: nat) {
    ClusterInv(c, n) && MemberInv(c, m) && ActiveIds(c.nodes) != {} && m.configs != []
  }

  lemma ChangeSettles(c: Cluster, m: Membership, n: nat, goal: set<NodeId>)
    requires Healthy(c, m, n) && !VotersSettled(c.nodes, c.transition) && IsPlan(Voters(m), Eligible(c), goal)
    ensures goal <= m.nodes.Keys && VotersGuard(c, goal)
    ensures var once := NextCoherent(m, goal);
            var twice := NextCoherent(once, goal);
            && MemberInv(c, once) && MemberInv(c, twice) && once.configs != [] && Last(once) == goal
            && (|once.configs| <= 1 ==> once == twice)
            && twice.configs == [goal] && Voters(twice) == goal
            && m.nodes - Leaving(c) == twice.nodes - Leaving(c)
  {
    PlanPassesGuard(c, m, n, goal);
    ChangeKeepsInv(c, m, goal);
    var once := NextCoherent(m, goal);
    FlattenKeepsInv(c, once);
    assert Voters(m) - goal <= Leaving(c) by {
      forall v | v in Voters(m) && v !in goal
        ensures v in Leaving(c)
      {
        assert v in ActiveIds(c.nodes);
      }
    }
    ChangeDropsLeaving(c, m, goal);
  }

  lemma ChangeDropsLeaving(c: Cluster, m: Membership, goal: set<NodeId>)
    requires m.configs != [] && Voters(m) - goal <= Leaving(c)
    ensures var once := NextCoherent(m, goal);
            var twice := NextCoherent(once, goal);
            && twice.configs == [goal] && Voters(twice) == goal && (|once.configs| <= 1 ==> once == twice)
            && m.nodes - Leaving(c) == twice.nodes - Leaving(c)
  {
    var once := NextCoherent(m, goal);
    assert Last(m) in m.configs && goal in once.configs;
    assert VotersOf([goal]) == goal;
    assert Voters(once) - goal <= Leaving(c);
  }

  class Coordinator {
    const cluster: Cluster
    var membership: Membership

    constructor (cluster: Cluster, membership: Membership)
      ensures this.cluster == cluster && this.membership == membership
    {
      this.cluster, this.membership := cluster, membership;
    }

    /** The joint configuration and then the final one, behind the guard. */
    method ChangeMembership(goal: set<NodeId>) returns (changed: bool)
      modifies this`membership
      ensures changed <==> old(membership).configs != [] && goal <= old(membership).nodes.Keys && VotersGuard(cluster, goal)
      ensures changed ==> membership == NextCoherent(NextCoherent(old(membership), goal), goal)
      ensures !changed ==> membership == old(membership)
    {
      if membership.configs == [] || !VotersGuard(cluster, goal) || !(goal <= membership.nodes.Keys) {
        return false;
      }
      membership := NextCoherent(membership, goal);
      if |membership.configs| > 1 {
        membership := NextCoherent(membership, Last(membership));
      } else {
        assert VotersOf([goal]) == goal;
      }
      return true;
    }

    /** Every candidate voter must be a member at its committed address. */
    method CheckCandidates(eligible: set<NodeId>) returns (e: Option<PlanError>)
      requires eligible <= cluster.nodes.Keys
      ensures e.None? <==>
              forall id :: id in eligible ==> id in membership.nodes && membership.nodes[id] == cluster.nodes[id].address
    {
      var rest := eligible;
      while rest != {}
        invariant rest <= eligible
        invariant forall id :: id in eligible && id !in rest ==>
                    id in membership.nodes && membership.nodes[id] == cluster.nodes[id].address
      {
        var id := PickLeast(rest);
        if id !in membership.nodes {
          return Some(CandidateAbsent);
        }
        if membership.nodes[id] != cluster.nodes[id].address {
          return Some(AddressDiffers);
        }
        rest := rest - {id};
      }
      return None;
    }

    method CheckTransition(started: nat) returns (e: Option<PlanError>)
      ensures e.None? ==> cluster.transition.Some? && cluster.transition.value.started == started
      ensures e.None? ==> !cluster.transition.value.kind.Reweight?
      ensures forall n: nat :: TransitionOk(cluster, n) ==> (e.None? <==> AwaitsVoters(cluster, started))
    {
      if cluster.transition.None? {
        return Some(NoTransitionNow);
      }
      var t := cluster.transition.value;
      if t.started != started {
        return Some(FenceDiffers);
      }
      match t.kind
      case Add =>
        if t.nodeId !in cluster.nodes {
          return Some(DescriptorMissing);
        }
        return if cluster.nodes[t.nodeId].state.Active? then None else Some(ActivationFirst);
      case Remove => return None;
      case Reweight => return Some(NoVoterChange);
    }

    /** Change to the planned voters if they are not yet alone, then drop the leaving node. */
    method Settle(desired: set<NodeId>, ghost n: nat) returns (e: Option<PlanError>)
      modifies this`membership
      ensures Plannable(cluster, old(membership), n) && IsPlan(Voters(old(membership)), Eligible(cluster), desired) ==>
                && e.None? && Healthy(cluster, membership, n)
                && membership == Membership([desired], old(membership).nodes - Leaving(cluster))
    {
      ghost var before := membership;
      if Voters(membership) != desired || |membership.configs| > 1 {
        var changed := ChangeMembership(desired);
        if !changed {
          if Plannable(cluster, before, n) && IsPlan(Voters(before), Eligible(cluster), desired) {
            ChangeSettles(cluster, before, n, desired);
          }
          return Some(VoterRefused);
        }
      }
      if Plannable(cluster, before, n) && IsPlan(Voters(before), Eligible(cluster), desired) {
        SettledByChange(cluster, before, membership, n, desired);
      }
      if !(Leaving(cluster) !! Voters(membership)) {
        return Some(VoterRefused);
      }
      membership := membership.(nodes := membership.nodes - Leaving(cluster));
      if Voters(membership) != desired || |membership.configs| > 1 {
        return Some(NotCommitted);
      }
      return None;
    }

    /**
      Once a node is ACTIVE, this succeeds exactly for the activated ADD or the REMOVE that it names, and leaves
      the planned voters alone in one configuration, without the leaving node.
     */
    method ApplyFixedVoters(started: nat, ghost n: nat) returns (r: Result<set<NodeId>, PlanError>)
      modifies this`membership
      ensures Healthy(cluster, old(membership), n) ==> (r.Ok? <==> AwaitsVoters(cluster, started))
      ensures Healthy(cluster, old(membership), n) ==> Healthy(cluster, membership, n)
      ensures Healthy(cluster, old(membership), n) && r.Ok? ==>
                && IsPlan(Voters(old(membership)), Eligible(cluster), r.value)
                && membership == Membership([r.value], old(membership).nodes - Leaving(cluster))
    {
      var refused := CheckTransition(started);
      if refused.Some? {
        return Err(refused.value);
      }
      if Healthy(cluster, membership, n) {
        HealthyIsPlannable(cluster, membership, n);
      }
      var eligible := Eligible(cluster);
      if eligible == {} {
        return Err(EmptyVoters);
      }
      refused := CheckCandidates(eligible);
      if refused.Some? {
        return Err(refused.value);
      }
      var plan := PlanVoters(Voters(membership), eligible);
      if plan.Err? {
        return Err(plan.error);
      }
      refused := Settle(plan.value, n);
      if refused.Some? {
        return Err(refused.value);
      }
      return plan;
    }
  }

  ghost predicate Plannable(c: Cluster, m: Membership, n: nat) {
    Healthy(c, m, n) && !VotersSettled(c.nodes, c.transition)
  }

  lemma HealthyIsPlannable(c: Cluster, m: Membership, n: nat)
    requires Healthy(c, m, n)
    ensures Eligible(c) != {} && |Voters(m) * Eligible(c)| <= FIXED_VOTER_TARGET
    ensures forall id :: id in Eligible(c) ==> id in m.nodes && m.nodes[id] == c.nodes[id].address
  {
    EligibleCount(c, n);
    EligibleMembers(c, m, Eligible(c));
  }

  lemma SettledByChange(c: Cluster, m: Membership, m': Membership, n: nat, goal: set<NodeId>)
    requires Plannable(c, m, n) && IsPlan(Voters(m), Eligible(c), goal)
    requires m' == NextCoherent(NextCoherent(m, goal), goal) || (m' == m && Voters(m) == goal && |m.configs| <= 1)
    ensures Leaving(c) !! Voters(m') && m'.configs == [goal] && Voters(m') == goal
    ensures m.nodes - Leaving(c) == m'.nodes - Leaving(c)
    ensures Healthy(c, m'.(nodes := m'.nodes - Leaving(c)), n)
  {
    assert MemberInv(c, m') && m'.configs == [goal] && m.nodes - Leaving(c) == m'.nodes - Leaving(c) by {
      if m' == m {
        SingleConfig(m);
      } else {
        ChangeSettles(c, m, n, goal);
      }
    }
    SingleConfig(m');
    PlanStays(c, Voters(m), goal);
    LeavingKeepsInv(c, m');
  }

  lemma SingleConfig(m: Membership)
    requires 1 == |m.configs|
    ensures Voters(m) == m.configs[0] && m.configs == [Voters(m)]
  {
  }

  lemma PlanStays(c: Cluster, voters: set<NodeId>, goal: set<NodeId>)
    requires IsPlan(voters, Eligible(c), goal)
    ensures Leaving(c) !! goal
  {
  }

  lemma LeavingKeepsInv(c: Cluster, m: Membership)
    requires MemberInv(c, m) && Leaving(c) !! Voters(m)
    ensures MemberInv(c, m.(nodes := m.nodes - Leaving(c)))
  {
    forall config | config in m.configs
      ensures config <= (m.nodes - Leaving(c)).Keys
    {
      assert config <= Voters(m);
    }
  }
}
