/** Every run of committed entries: membership stays valid from the first activation on. */
module RaftRuns {
  import opened Prelude
  import opened LogIds
  import opened ConsensusTypes
  import opened ClusterControl
  import opened BatchLedger
  import opened DecisionMachine
  import opened RaftMembership
  import opened RaftMachine

  /** A membership entry is the effect of one guarded change, evaluated in the state where it is applied. */
  ghost predicate Admissible(m: Machine, e: Entry) {
    e.payload.Members? ==>
      exists a :: Enabled(m.decisions.cluster, m.membership, m.lastApplied.None?, a)
                  && e.payload.membership == Effect(m.membership, a)
  }

  ghost predicate GuardedRun(m: Machine, log: seq<Entry>) {
    log != [] ==>
      var rest := log[..|log| - 1];
      GuardedRun(m, rest) && (Replay(m, rest).Some? ==> Admissible(Replay(m, rest).value, log[|log| - 1]))
  }

  ghost predicate MachineInv(m: Machine) {
    && DecisionsInv(m.decisions, Next(m.lastApplied))
    && MemberInv(m.decisions.cluster, m.membership)
    && (m.lastApplied.None? ==> m.decisions.cluster.nodes == map[])
  }

  // ---- Commands keep the membership in step with the descriptors

  /** Same nodes, states, addresses and transition: nothing the membership depends on. */
  predicate SameShape(c: Cluster, c': Cluster) {
    && c'.transition == c.transition && c'.nodes.Keys == c.nodes.Keys
    && forall id :: id in c.nodes ==> c'.nodes[id].state == c.nodes[id].state && c'.nodes[id].address == c.nodes[id].address
  }

  lemma SameShapeKeepsInv(c: Cluster, c': Cluster, m: Membership)
    requires MemberInv(c, m) && SameShape(c, c')
    ensures MemberInv(c', m)
  {
    assert ActiveIds(c'.nodes) == ActiveIds(c.nodes);
    assert Eligible(c') == Eligible(c) && VotersSettled(c'.nodes, c'.transition) == VotersSettled(c.nodes, c.transition);
    assert c'.nodes == map[] <==> c.nodes == map[] by {
      assert c'.nodes.Keys == {} <==> c.nodes.Keys == {};
      assert c.nodes.Keys == {} ==> c.nodes == map[];
      assert c'.nodes.Keys == {} ==> c'.nodes == map[];
    }
  }

  lemma AdmissionKeepsInv(c: Cluster, m: Membership, d: Descriptor, c': Cluster)
    requires MemberInv(c, m) && IsAddMembersRefusal(m, c.nodes, d, None) && c.transition.None? && d.nodeId !in c.nodes
    requires d.state.Joining? && c'.nodes == c.nodes[d.nodeId := d] && c'.transition.Some?
    requires c'.transition.value.kind.Add? && c'.transition.value.nodeId == d.nodeId
    ensures MemberInv(c', m)
  {
    assert MembersOk(c'.nodes, m) by {
      forall id | id in m.nodes
        ensures id in c'.nodes && c'.nodes[id].address == m.nodes[id]
      {
        assert !Offends(m, c.nodes, d, id);
      }
    }
    AdmissionKeepsLast(c, m, d, c');
    AdmittedIds(c.nodes, d);
    if ActiveIds(c.nodes) != {} {
      SettledKeepsVoters(c, m, c');
      Assembled(c', m);
    }
  }

  lemma AdmittedIds(nodes: Nodes, d: Descriptor)
    requires d.nodeId !in nodes && d.state.Joining?
    ensures ActiveIds(nodes[d.nodeId := d]) == ActiveIds(nodes)
  {
  }

  /** With no descriptor admitted yet, every configuration is the node that is now joining. */
  lemma AdmissionKeepsLast(c: Cluster, m: Membership, d: Descriptor, c': Cluster)
    requires ConfigsOk(m) && (c.nodes != map[] ==> LastOk(c, m)) && c.transition.None?
    requires IsAddMembersRefusal(m, c.nodes, d, None)
    ensures LastOk(c', m)
  {
    if c.nodes == map[] && m.configs != [] {
      forall config | config in m.configs
        ensures config == {d.nodeId}
      {
        assert forall id :: id in config ==> id in m.nodes && !Offends(m, c.nodes, d, id);
      }
      assert Last(m) in m.configs;
    }
  }

  lemma SettledKeepsVoters(c: Cluster, m: Membership, c': Cluster)
    requires ActiveMembersOk(c, m) && VotersOk(c, m) && VotersSettled(c.nodes, c.transition)
    requires ActiveIds(c'.nodes) == ActiveIds(c.nodes) && Leaving(c') == Leaving(c)
    ensures ActiveMembersOk(c', m) && VotersOk(c', m)
  {
    assert Eligible(c') == Eligible(c);
  }

  lemma BegunKeepsInv(c: Cluster, m: Membership, t: Transition)
    requires MemberInv(c, m) && c.transition.None? && !t.kind.Add? && JoiningOk(c)
    ensures MemberInv(c.(transition := Some(t)), m)
  {
    var c' := c.(transition := Some(t));
    SmallerWithin(Voters(m) * Eligible(c'), Voters(m) * Eligible(c));
  }

  lemma OnlyJoining(c: Cluster, m: Membership, id: NodeId)
    requires JoiningOk(c) && MembersOk(c.nodes, m) && ConfigsOk(m) && ActiveIds(c.nodes) == {}
    requires c.transition.Some? && c.transition.value.nodeId == id
    ensures Voters(m) <= {id}
  {
    forall v | v in Voters(m)
      ensures v == id
    {
      assert v in m.nodes;
      assert v !in ActiveIds(c.nodes);
    }
  }

  lemma ActivationKeepsInv(c: Cluster, m: Membership, id: NodeId, d: Descriptor, c': Cluster)
    requires MemberInv(c, m) && JoiningOk(c) && c.transition.Some? && c.transition.value.kind.Add?
    requires c.transition.value.nodeId == id && id in c.nodes && c.nodes[id].state.Joining? && id in m.nodes
    requires d.state.Active? && d.address == c.nodes[id].address
    requires c'.nodes == c.nodes[id := d] && c'.transition == c.transition
    ensures MemberInv(c', m)
  {
    ActivatedIds(c.nodes, id, d);
    if ActiveIds(c.nodes) == {} {
      OnlyJoining(c, m, id);
      FirstActivation(m, c', id);
    } else {
      LaterActivation(c, m, c', id);
    }
    ActivationKeepsMembers(c, m, c', id);
    Assembled(c', m);
  }

  lemma Assembled(c: Cluster, m: Membership)
    requires ConfigsOk(m) && MembersOk(c.nodes, m) && LastOk(c, m) && ActiveMembersOk(c, m) && VotersOk(c, m)
    ensures MemberInv(c, m)
  {
  }

  lemma ActivatedIds(nodes: Nodes, id: NodeId, d: Descriptor)
    requires id in nodes && nodes[id].state.Joining? && d.state.Active?
    ensures ActiveIds(nodes[id := d]) == ActiveIds(nodes) + {id} && id !in ActiveIds(nodes)
  {
  }

  lemma ActivationKeepsMembers(c: Cluster, m: Membership, c': Cluster, id: NodeId)
    requires MembersOk(c.nodes, m) && LastOk(c, m) && (ActiveIds(c.nodes) != {} ==> ActiveMembersOk(c, m))
    requires c'.transition == c.transition && c'.nodes.Keys == c.nodes.Keys && id in m.nodes
    requires forall other :: other in c.nodes ==> c'.nodes[other].address == c.nodes[other].address
    requires ActiveIds(c'.nodes) == ActiveIds(c.nodes) + {id}
    ensures MembersOk(c'.nodes, m) && LastOk(c', m) && ActiveMembersOk(c', m)
  {
  }

  lemma FirstActivation(m: Membership, c': Cluster, id: NodeId)
    requires Voters(m) <= {id} && ActiveIds(c'.nodes) == {id} && Leaving(c') == {} && !VotersSettled(c'.nodes, c'.transition)
    ensures VotersOk(c', m)
  {
    AllEligible(Voters(m), c');
    SmallerWithin(Voters(m), {id});
  }

  lemma LaterActivation(c: Cluster, m: Membership, c': Cluster, id: NodeId)
    requires VotersOk(c, m) && ActiveIds(c'.nodes) == ActiveIds(c.nodes) + {id}
    requires Leaving(c) == {} && Leaving(c') == {} && !VotersSettled(c'.nodes, c'.transition)
    ensures VotersOk(c', m)
  {
    AllEligible(Voters(m), c);
    AllEligible(Voters(m), c');
  }

  lemma AllEligible(voters: set<NodeId>, c: Cluster)
    requires voters <= ActiveIds(c.nodes) && Leaving(c) == {}
    ensures voters * Eligible(c) == voters
  {
  }

  lemma ReleaseKeepsInv(c: Cluster, m: Membership)
    requires MemberInv(c, m) && c.transition.Some? && c.transition.value.kind.Add? && FixedVotersRefusal(m, c.nodes).None?
    ensures MemberInv(c.(transition := None), m)
  {
    var c' := c.(transition := None);
    assert Eligible(c') == Eligible(c);
  }

  lemma ReweightKeepsMembers(c: Cluster, m: Membership, d: Descriptor)
    requires MemberInv(c, m) && c.transition.Some? && c.transition.value.kind.Reweight?
    requires IsActive(c.nodes, c.transition.value.nodeId)
    requires d.state.Active? && d.address == c.nodes[c.transition.value.nodeId].address
    ensures MemberInv(c.(nodes := c.nodes[c.transition.value.nodeId := d], transition := None), m)
  {
    var c' := c.(nodes := c.nodes[c.transition.value.nodeId := d]);
    SameShapeKeepsInv(c, c', m);
    ReleaseReweight(c', m);
  }

  lemma ReleaseReweight(c: Cluster, m: Membership)
    requires MemberInv(c, m) && c.transition.Some? && c.transition.value.kind.Reweight?
    ensures MemberInv(c.(transition := None), m)
  {
    var c' := c.(transition := None);
    assert Eligible(c') == Eligible(c);
  }

  lemma DepartureKeepsInv(c: Cluster, m: Membership, n: nat)
    requires MemberInv(c, m) && TransitionOk(c, n) && c.transition.Some? && c.transition.value.kind.Remove?
    requires c.transition.value.nodeId !in m.nodes
    requires VotersRefusal(m, c.nodes, VoterTarget(|ActiveIds(c.nodes)| - 1)).None?
    ensures MemberInv(c.(nodes := c.nodes - {c.transition.value.nodeId}, transition := None), m)
  {
    var id := c.transition.value.nodeId;
    var c' := c.(nodes := c.nodes - {id}, transition := None);
    DepartedIds(c.nodes, id);
    DepartureKeepsVoters(c, m, c', id);
    DepartureKeepsMembers(c, m, c', id);
    Assembled(c', m);
  }

  lemma DepartedIds(nodes: Nodes, id: NodeId)
    requires IsActive(nodes, id)
    ensures ActiveIds(nodes - {id}) == ActiveIds(nodes) - {id}
    ensures |ActiveIds(nodes - {id})| == |ActiveIds(nodes)| - 1
  {
    assert ActiveIds(nodes - {id}) == ActiveIds(nodes) - {id};
    assert id in ActiveIds(nodes);
  }

  lemma DepartureKeepsVoters(c: Cluster, m: Membership, c': Cluster, id: NodeId)
    requires ConfigsOk(m) && id !in m.nodes && Leaving(c') == {} && Voters(m) <= ActiveIds(c.nodes)
    requires ActiveIds(c'.nodes) == ActiveIds(c.nodes) - {id} && |Voters(m)| == VoterTarget(|ActiveIds(c'.nodes)|)
    ensures VotersOk(c', m)
  {
    VotersAreMembers(m);
    AllEligible(Voters(m), c');
  }

  lemma DepartureKeepsMembers(c: Cluster, m: Membership, c': Cluster, id: NodeId)
    requires ConfigsOk(m) && MembersOk(c.nodes, m) && LastOk(c, m) && ActiveMembersOk(c, m) && id !in m.nodes
    requires c'.nodes == c.nodes - {id} && Leaving(c) == {id} && ActiveIds(c'.nodes) == ActiveIds(c.nodes) - {id}
    ensures MembersOk(c'.nodes, m) && LastOk(c', m) && ActiveMembersOk(c', m)
  {
    VotersAreMembers(m);
  }

  lemma CompleteKeepsMembers(c: Cluster, m: Membership, initialized: bool, format: nat, started: nat, at: LogId)
    requires ClusterInv(c, at.index) && MemberInv(c, m) && CompletionRefusal(m, c, started).None?
    ensures MemberInv(CompleteStep(c, initialized, format, started, at).0, m)
  {
    if CompleteRefusal(c, initialized, format, started).None? {
      var t := c.transition.value;
      var d := c.nodes[t.nodeId];
      var c' := CompleteStep(c, initialized, format, started, at).0;
      match t.kind
      case Add =>
        if d.state.Joining? {
          ActivationKeepsInv(c, m, t.nodeId, d.(state := Active, joinCapability := None), c');
        } else {
          ReleaseKeepsInv(c, m);
        }
      case Remove =>
        DepartureKeepsInv(c, m, at.index);
        SameShapeKeepsInv(c.(nodes := c'.nodes, transition := None), c', m);
      case Reweight =>
        ReweightKeepsMembers(c, m, d.(weight := t.target.value));
        SameShapeKeepsInv(c.(nodes := c'.nodes, transition := None), c', m);
    }
  }

  lemma AddKeepsMembers(c: Cluster, m: Membership, initialized: bool, format: nat, d: Descriptor, n: nat)
    requires ClusterInv(c, n) && MemberInv(c, m) && IsAddMembersRefusal(m, c.nodes, d, None)
    ensures MemberInv(AddStep(c, initialized, format, d, n).0, m)
  {
    if AddRefusal(c, initialized, format, d).None? && c.transition.None? {
      AdmissionKeepsInv(c, m, d, AddStep(c, initialized, format, d, n).0);
    }
  }

  lemma BeginKeepsMembers(c: Cluster, m: Membership, initialized: bool, format: nat, id: NodeId, weight: nat, n: nat)
    requires ClusterInv(c, n) && MemberInv(c, m)
    ensures MemberInv(RemoveStep(c, initialized, format, id, n).0, m)
    ensures MemberInv(ReweightStep(c, initialized, format, id, weight, n).0, m)
  {
    if c.transition.None? {
      BegunKeepsInv(c, m, Transition(Remove, id, n, None));
      BegunKeepsInv(c, m, Transition(Reweight, id, n, Some(weight)));
    }
  }

  /** Pin rotation, preparation refresh and the bindings leave the shape of the cluster alone. */
  lemma ShapeKept(c: Cluster, initialized: bool, command: Command, at: LogId)
    requires IsClusterCommand(command)
    requires !(command.BeginAddNode? || command.BeginRemoveNode? || command.BeginReweightNode? || command.CompleteTransition?)
    ensures SameShape(c, ClusterStep(c, initialized, command, at).0)
  {
  }

  lemma CommandKeepsMembers(c: Cluster, m: Membership, initialized: bool, command: Command, at: LogId)
    requires ClusterInv(c, at.index) && MemberInv(c, m) && IsClusterCommand(command)
    requires CommandRefusal(m, c, command).None?
    ensures MemberInv(ClusterStep(c, initialized, command, at).0, m)
  {
    if command.BeginAddNode? {
      AddKeepsMembers(c, m, initialized, command.format, command.descriptor, at.index);
    } else if command.BeginRemoveNode? {
      BeginKeepsMembers(c, m, initialized, command.format, command.nodeId, 0, at.index);
    } else if command.BeginReweightNode? {
      BeginKeepsMembers(c, m, initialized, command.format, command.nodeId, command.weight, at.index);
    } else if command.CompleteTransition? {
      CompleteKeepsMembers(c, m, initialized, command.format, command.started, at);
    } else {
      ShapeKept(c, initialized, command, at);
      SameShapeKeepsInv(c, ClusterStep(c, initialized, command, at).0, m);
    }
  }

  lemma DecisionKeepsMembers(m: Machine, at: LogId, command: Command)
    requires MachineInv(m) && at.index == Next(m.lastApplied)
    ensures MemberInv(Decided(m, at, command).0.cluster, m.membership)
  {
    var d := m.decisions;
    if CommandRefusal(m.membership, d.cluster, command).None? {
      if IsClusterCommand(command) {
        CommandKeepsMembers(d.cluster, m.membership, d.clusterId.Some?, command, at);
      } else {
        LedgerCommandShape(d, at, command);
        SameShapeKeepsInv(d.cluster, Apply(d, at, command).0.cluster, m.membership);
      }
    }
  }

  lemma LedgerCommandShape(d: Decisions, at: LogId, command: Command)
    requires !IsClusterCommand(command)
    ensures SameShape(d.cluster, Apply(d, at, command).0.cluster)
  {
  }

  lemma DecisionKeepsInv(m: Machine, at: LogId, command: Command)
    requires MachineInv(m) && at.index == Next(m.lastApplied)
    ensures DecisionsInv(Decided(m, at, command).0, at.index + 1)
  {
    ApplyKeepsInv(m.decisions, at, command);
    InvLater(m.decisions, at.index);
  }

  lemma MachineInvFrom(m: Machine, n: nat)
    requires m.lastApplied.Some? && n == Next(m.lastApplied)
    requires DecisionsInv(m.decisions, n) && MemberInv(m.decisions.cluster, m.membership)
    ensures MachineInv(m)
  {
    assert DecisionsInv(m.decisions, Next(m.lastApplied));
  }

  lemma MembershipChangeKeepsInv(c: Cluster, m: Membership, n: nat, pristine: bool, changed: Membership)
    requires ClusterInv(c, n) && MemberInv(c, m) && (pristine ==> c.nodes == map[])
    requires exists a :: Enabled(c, m, pristine, a) && changed == Effect(m, a)
    ensures MemberInv(c, changed)
  {
    var a :| Enabled(c, m, pristine, a) && changed == Effect(m, a);
    ActionKeepsInv(c, m, n, pristine, a);
  }

  lemma MembersEntryKeepsInv(m: Machine, e: Entry)
    requires MachineInv(m) && Admissible(m, e) && e.payload.Members? && e.at.index == Next(m.lastApplied)
    ensures MachineInv(m.(membership := e.payload.membership, membershipAt := Some(e.at), lastApplied := Some(e.at)))
  {
    InvLater(m.decisions, Next(m.lastApplied));
    MembershipChangeKeepsInv(m.decisions.cluster, m.membership, Next(m.lastApplied), m.lastApplied.None?, e.payload.membership);
    MachineInvFrom(m.(membership := e.payload.membership, membershipAt := Some(e.at), lastApplied := Some(e.at)), e.at.index + 1);
  }

  lemma CommandEntryKeepsInv(m: Machine, at: LogId, command: Command)
    requires MachineInv(m) && at.index == Next(m.lastApplied)
    ensures MachineInv(m.(decisions := Decided(m, at, command).0, lastApplied := Some(at)))
  {
    DecisionKeepsInv(m, at, command);
    DecisionKeepsMembers(m, at, command);
    MachineInvFrom(m.(decisions := Decided(m, at, command).0, lastApplied := Some(at)), at.index + 1);
  }

  lemma EntryKeepsInv(m: Machine, e: Entry)
    requires MachineInv(m) && Admissible(m, e) && ApplyEntry(m, e).Some?
    ensures MachineInv(ApplyEntry(m, e).value.0)
  {
    match e.payload
    case Blank => InvLater(m.decisions, e.at.index);
    case Members(_) => MembersEntryKeepsInv(m, e);
    case Normal(command) => CommandEntryKeepsInv(m, e.at, command);
  }

  lemma StartInv(maxEntries: nat, maxBytes: nat)
    ensures MachineInv(Start(maxEntries, maxBytes))
  {
    EmptyLedgerInv(maxEntries, maxBytes);
    EmptyClusterInv();
    assert ActiveIds(map[]) == {};
  }

  /** The invariant over every guarded log, of any length and any content. */
  lemma {:induction false} RunKeepsInv(m: Machine, log: seq<Entry>)
    requires MachineInv(m) && GuardedRun(m, log) && Replay(m, log).Some?
    ensures MachineInv(Replay(m, log).value)
  {
    if log != [] {
      var rest := log[..|log| - 1];
      RunKeepsInv(m, rest);
      EntryKeepsInv(Replay(m, rest).value, log[|log| - 1]);
    }
  }

  // ---- The validity check

  lemma DescribedWhenInv(c: Cluster, m: Membership, n: nat, id: NodeId)
    requires ClusterInv(c, n) && MemberInv(c, m) && id in c.nodes
    ensures DescribedOk(c, m, id)
  {
    assert NodeOk(id, c.nodes[id]);
    if c.nodes[id].state.Active? {
      assert id in ActiveIds(c.nodes);
    }
  }

  /** The check passes exactly outside the genesis window. */
  lemma ValidIffNotGenesisWindow(c: Cluster, m: Membership, n: nat)
    requires ClusterInv(c, n) && MemberInv(c, m)
    ensures MembershipValid(c, m) <==> !GenesisWindow(c, m)
  {
    if c.nodes != map[] {
      forall id | id in c.nodes
        ensures DescribedOk(c, m, id)
      {
        DescribedWhenInv(c, m, n, id);
      }
      if ActiveIds(c.nodes) == {} {
        JoiningSettles(c, n);
        if m.configs == [] {
          assert Voters(m) == {};
        } else {
          assert Last(m) in m.configs && Last(m) <= Voters(m);
          assert Voters(m) != {};
        }
      }
    }
  }

  lemma JoiningSettles(c: Cluster, n: nat)
    requires TransitionOk(c, n) && JoiningOk(c) && c.nodes != map[] && ActiveIds(c.nodes) == {}
    ensures VotersSettled(c.nodes, c.transition)
  {
    var id :| id in c.nodes;
    assert id !in ActiveIds(c.nodes);
  }

  /** In every guarded run the check fails only while the first admitted node is still JOINING. */
  lemma RunIsValid(maxEntries: nat, maxBytes: nat, log: seq<Entry>)
    requires GuardedRun(Start(maxEntries, maxBytes), log) && Replay(Start(maxEntries, maxBytes), log).Some?
    ensures var m := Replay(Start(maxEntries, maxBytes), log).value;
            MembershipValid(m.decisions.cluster, m.membership) <==> !GenesisWindow(m.decisions.cluster, m.membership)
  {
    var m := Replay(Start(maxEntries, maxBytes), log).value;
    StartInv(maxEntries, maxBytes);
    RunKeepsInv(Start(maxEntries, maxBytes), log);
    ValidIffNotGenesisWindow(m.decisions.cluster, m.membership, Next(m.lastApplied));
  }

  /** Once the planned voters stand alone and the leaving node is gone, the waiting completion is let through. */
  lemma PlannedTransitionCompletes(c: Cluster, m: Membership, n: nat, started: nat, voters: set<NodeId>, plan: set<NodeId>)
    requires Healthy(c, m, n) && AwaitsVoters(c, started) && IsPlan(voters, Eligible(c), plan)
    requires m.configs == [plan] && m.nodes.Keys !! Leaving(c)
    ensures CompletionRefusal(m, c, started).None?
  {
    SingleConfig(m);
    PlanCompletes(c, m, n, started);
  }

  lemma PlanCompletes(c: Cluster, m: Membership, n: nat, started: nat)
    requires TransitionOk(c, n) && ActiveIds(c.nodes) != {} && ActiveMembersOk(c, m) && AwaitsVoters(c, started)
    requires Voters(m) <= Eligible(c) && |Voters(m)| == VoterTarget(|Eligible(c)|) && m.nodes.Keys !! Leaving(c)
    ensures CompletionRefusal(m, c, started).None?
  {
    EligibleCount(c, n);
    if c.transition.value.kind.Add? {
      assert Leaving(c) == {};
      assert c.transition.value.nodeId in ActiveIds(c.nodes);
    } else {
      assert Leaving(c) == {c.transition.value.nodeId};
    }
  }

  const FIRST_NODE := Descriptor(1, "a", 1, Joining, 1, None, Some(1), Range(1, 1), Range(1, 1))

  /** A group is formed, the cluster initialized and its first node admitted. */
  const FIRST_ADMISSION: seq<Entry> := [
    Entry(LogId(1, 0), Members(Membership([{1}], map[1 := "a"]))),
    Entry(LogId(1, 1), Normal(InitializeCluster(1))),
    Entry(LogId(1, 2), Normal(BeginAddNode(COMMAND_VERSION, FIRST_NODE)))]

  lemma FirstNodeIsWellFormed()
    ensures DescriptorRefusal(FIRST_NODE).None?
  {
    assert Text.Bytes("a") == 1;
  }

  lemma {:induction false} NoNodesNoClash(d: Descriptor, id: nat)
    ensures FirstClash(map[], d, id).None?
    decreases MAX_NODE_ID + 1 - id
  {
    if id <= MAX_NODE_ID {
      NoNodesNoClash(d, id + 1);
    }
  }

  /** The genesis window is reached, so a machine restarted there fails its check. */
  lemma GenesisWindowIsReached()
    ensures GuardedRun(Start(1, 1), FIRST_ADMISSION) && Replay(Start(1, 1), FIRST_ADMISSION).Some?
    ensures var m := Replay(Start(1, 1), FIRST_ADMISSION).value;
            GenesisWindow(m.decisions.cluster, m.membership) && !MembershipValid(m.decisions.cluster, m.membership)
  {
    var log := FIRST_ADMISSION;
    var s0 := Start(1, 1);
    var group := map[1 := "a"];
    var s1 := s0.(membership := Membership([{1}], group), membershipAt := Some(LogId(1, 0)), lastApplied := Some(LogId(1, 0)));
    FirstStep(s0, log, s1);
    var c1 := NO_NODES;
    var d2 := s1.decisions.(clusterId := Some(1));
    var s2 := s1.(decisions := d2, lastApplied := Some(LogId(1, 1)));
    assert log[..2][..1] == log[..1];
    assert ApplyEntry(s1, log[1]).value.0 == s2;
    assert Replay(s0, log[..2]) == Some(s2);
    FirstNodeIsWellFormed();
    NoNodesNoClash(FIRST_NODE, 1);
    assert IsRefusal(s2.membership, c1, log[2].payload.command, None);
    RefusalIsUnique(s2.membership, c1, log[2].payload.command, None, CommandRefusal(s2.membership, c1, log[2].payload.command));
    assert log[..3] == log;
    var s3 := ApplyEntry(s2, log[2]).value.0;
    assert s3.decisions.cluster.nodes == map[1 := FIRST_NODE];
    assert Replay(s0, log) == Some(s3);
    assert GuardedRun(s0, log[..2]);
    RunIsValid(1, 1, log);
  }

  lemma FirstStep(s0: Machine, log: seq<Entry>, s1: Machine)
    requires s0 == Start(1, 1) && log == FIRST_ADMISSION
    requires s1 == s0.(membership := Membership([{1}], map[1 := "a"]), membershipAt := Some(LogId(1, 0)), lastApplied := Some(LogId(1, 0)))
    ensures Replay(s0, log[..1]) == Some(s1) && GuardedRun(s0, log[..1])
  {
    assert log[..1][..0] == [];
    assert map[1 := "a"].Keys == {1};
    assert Enabled(s0.decisions.cluster, s0.membership, true, Genesis(map[1 := "a"]));
    assert Effect(s0.membership, Genesis(map[1 := "a"])) == Membership([{1}], map[1 := "a"]);
    assert Admissible(s0, log[0]);
  }
}
