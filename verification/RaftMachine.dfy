/** Folding committed log entries over decisions and membership. */
module RaftMachine {
  import opened Prelude
  import opened LogIds
  import opened ConsensusTypes
  import opened ClusterControl
  import opened DecisionMachine
  import opened RaftMembership

  datatype Payload = Blank | Members(membership: Membership) | Normal(command: Command)
  datatype Entry = Entry(at: LogId, payload: Payload)
  datatype Response = Noop | Applied(result: ApplyResult) | Rejected(error: ApplyError)

  datatype Machine = Machine(
    decisions: Decisions, lastApplied: Option<LogId>, membership: Membership, membershipAt: Option<LogId>, generation: nat)

  const NO_MEMBERS: Membership := Membership([], map[])

  function Start(maxEntries: nat, maxBytes: nat): Machine {
    Machine(Empty(maxEntries, maxBytes), None, NO_MEMBERS, None, 0)
  }

  function Next(last: Option<LogId>): nat {
    if last.None? then 0 else last.value.index + 1
  }

  // ---- Commands are checked against the membership first

  function ExecutorOf(command: Command): Option<NodeId> {
    match command
    case NominateExecutor(executor) => Some(executor)
    case Begin(batch) => Some(batch.executor)
    case Commit(prepared) => Some(prepared.executor)
    case Abort(prepared) => Some(prepared.executor)
    case FinalizedThrough(executor, _, _) => Some(executor)
    case CompleteBootstrap(executor, _, _) => Some(executor)
    case _ => None
  }

  function MemberRefusal(nodes: Nodes, d: Descriptor, id: NodeId, address: string): Option<ApplyError> {
    if id == d.nodeId then (if address != d.address then Some(MemberAddressMismatch) else None)
    else if id !in nodes then Some(MemberDescriptorMissing)
    else None
  }

  predicate Offends(m: Membership, nodes: Nodes, d: Descriptor, id: NodeId) {
    id in m.nodes && MemberRefusal(nodes, d, id, m.nodes[id]).Some?
  }

  /** The answer for the lowest member that an admission would leave without a matching descriptor. */
  ghost predicate IsAddMembersRefusal(m: Membership, nodes: Nodes, d: Descriptor, e: Option<ApplyError>) {
    if e.None? then forall id :: id in m.nodes ==> !Offends(m, nodes, d, id)
    else exists id :: Offends(m, nodes, d, id) && e == MemberRefusal(nodes, d, id, m.nodes[id])
                      && forall other :: other in m.nodes && other < id ==> !Offends(m, nodes, d, other)
  }

  function VotersRefusal(m: Membership, nodes: Nodes, expected: nat): Option<ApplyError> {
    if |Voters(m)| != expected then Some(VoterTargetMismatch)
    else if !(Voters(m) <= ActiveIds(nodes)) then Some(VoterNotActive)
    else None
  }

  function FixedVotersRefusal(m: Membership, nodes: Nodes): Option<ApplyError> {
    VotersRefusal(m, nodes, VoterTarget(|ActiveIds(nodes)|))
  }

  function ExecutorRefusal(m: Membership, nodes: Nodes, executor: NodeId): Option<ApplyError> {
    if executor !in m.nodes then Some(ExecutorNotCurrentMember)
    else if nodes != map[] && !IsActive(nodes, executor) then Some(ExecutorNotActiveMember)
    else None
  }

  /** A transition completes only when the membership already shows what it asked for. */
  function CompletionRefusal(m: Membership, c: Cluster, started: nat): Option<ApplyError> {
    if FenceRefusal(c, started).Some? then FenceRefusal(c, started)
    else
      var id := c.transition.value.nodeId;
      match c.transition.value.kind
      case Add =>
        if id !in m.nodes then Some(TransitionNodeNotMember)
        else if id !in c.nodes then Some(TransitionStateMismatch)
        else if c.nodes[id].state.Active? then FixedVotersRefusal(m, c.nodes)
        else None
      case Reweight => if id !in m.nodes then Some(TransitionNodeNotMember) else FixedVotersRefusal(m, c.nodes)
      case Remove =>
        if id in m.nodes then Some(RemovingNodeStillMember)
        else
          var active := |ActiveIds(c.nodes)|;
          VotersRefusal(m, c.nodes, VoterTarget(if active == 0 then 0 else active - 1))
  }

  /** Everything but the check on an admission's members. */
  function OtherRefusal(m: Membership, c: Cluster, command: Command): Option<ApplyError> {
    if ExecutorOf(command).Some? then ExecutorRefusal(m, c.nodes, ExecutorOf(command).value)
    else if command.CompleteTransition? then CompletionRefusal(m, c, command.started)
    else if command.RefreshJoining? && command.nodeId in m.nodes then Some(JoiningNodeAlreadyMember)
    else None
  }

  ghost predicate IsRefusal(m: Membership, c: Cluster, command: Command, e: Option<ApplyError>) {
    if command.BeginAddNode? then IsAddMembersRefusal(m, c.nodes, command.descriptor, e)
    else e == OtherRefusal(m, c, command)
  }

  lemma {:induction false} LeastOffender(m: Membership, nodes: Nodes, d: Descriptor, id: NodeId)
    requires Offends(m, nodes, d, id)
    ensures exists e :: IsAddMembersRefusal(m, nodes, d, e)
    decreases id
  {
    if lower :| lower in m.nodes && lower < id && Offends(m, nodes, d, lower) {
      LeastOffender(m, nodes, d, lower);
    } else {
      assert IsAddMembersRefusal(m, nodes, d, MemberRefusal(nodes, d, id, m.nodes[id]));
    }
  }

  /** Every command gets one answer. */
  lemma RefusalExists(m: Membership, c: Cluster, command: Command)
    ensures exists e :: IsRefusal(m, c, command, e)
  {
    if command.BeginAddNode? {
      if id :| Offends(m, c.nodes, command.descriptor, id) {
        LeastOffender(m, c.nodes, command.descriptor, id);
        var e :| IsAddMembersRefusal(m, c.nodes, command.descriptor, e);
        assert IsRefusal(m, c, command, e);
      } else {
        assert IsRefusal(m, c, command, None);
      }
    } else {
      assert IsRefusal(m, c, command, OtherRefusal(m, c, command));
    }
  }

  lemma RefusalIsUnique(m: Membership, c: Cluster, command: Command, e: Option<ApplyError>, f: Option<ApplyError>)
    requires IsRefusal(m, c, command, e) && IsRefusal(m, c, command, f)
    ensures e == f
  {
    if command.BeginAddNode? && e.Some? && f.Some? {
      var d := command.descriptor;
      var i :| Offends(m, c.nodes, d, i) && e == MemberRefusal(c.nodes, d, i, m.nodes[i])
               && forall other :: other in m.nodes && other < i ==> !Offends(m, c.nodes, d, other);
      var j :| Offends(m, c.nodes, d, j) && f == MemberRefusal(c.nodes, d, j, m.nodes[j])
               && forall other :: other in m.nodes && other < j ==> !Offends(m, c.nodes, d, other);
      assert i == j;
    }
  }

  ghost function CommandRefusal(m: Membership, c: Cluster, command: Command): (e: Option<ApplyError>)
    ensures IsRefusal(m, c, command, e)
  {
    RefusalExists(m, c, command);
    var e :| IsRefusal(m, c, command, e);
    e
  }

  ghost function Decided(m: Machine, at: LogId, command: Command): (Decisions, Response) {
    var refusal := CommandRefusal(m.membership, m.decisions.cluster, command);
    if refusal.Some? then (m.decisions, Rejected(refusal.value))
    else
      var (d, r) := Apply(m.decisions, at, command);
      (d, if r.Ok? then Applied(r.value) else Rejected(r.error))
  }

  /** One committed entry, which must be the next one. */
  ghost function ApplyEntry(m: Machine, e: Entry): Option<(Machine, Response)> {
    if e.at.index != Next(m.lastApplied) then None
    else
      match e.payload
      case Blank => Some((m.(lastApplied := Some(e.at)), Noop))
      case Members(membership) =>
        Some((m.(membership := membership, membershipAt := Some(e.at), lastApplied := Some(e.at)), Noop))
      case Normal(command) =>
        var (d, r) := Decided(m, e.at, command);
        Some((m.(decisions := d, lastApplied := Some(e.at)), r))
  }

  /** The state after a log, or nothing if an entry is out of place. */
  ghost function Replay(m: Machine, log: seq<Entry>): Option<Machine> {
    if log == [] then Some(m)
    else
      var before := Replay(m, log[..|log| - 1]);
      if before.None? || ApplyEntry(before.value, log[|log| - 1]).None? then None
      else Some(ApplyEntry(before.value, log[|log| - 1]).value.0)
  }

  // ---- The check on a loaded or snapshotted machine

  predicate DescribedOk(c: Cluster, m: Membership, id: NodeId)
    requires id in c.nodes
  {
    var d := c.nodes[id];
    var kind := if c.transition.Some? && c.transition.value.nodeId == id then Some(c.transition.value.kind) else None;
    && d.nodeId == id && id in c.used
    && (id in m.nodes || (kind == Some(Add) && d.state.Joining?) || (kind == Some(Remove) && d.state.Active?))
    && (d.state.Joining? ==> kind == Some(Add))
  }

  predicate MembershipValid(c: Cluster, m: Membership) {
    if c.nodes == map[] then c.transition.None?
    else
      && MembersOk(c.nodes, m)
      && (forall id :: id in c.nodes ==> DescribedOk(c, m, id))
      && (c.transition.Some? ==> c.transition.value.nodeId in c.nodes)
      && (VotersSettled(c.nodes, c.transition) ==> FixedVotersRefusal(m, c.nodes).None?)
  }

  /** The first node is admitted but not yet activated, and the group already has voters. */
  predicate GenesisWindow(c: Cluster, m: Membership) {
    c.nodes != map[] && ActiveIds(c.nodes) == {} && m.configs != []
  }

  // ---- The mutable machine

  class MachineState {
    const decisions: DecisionState
    var lastApplied: Option<LogId>
    var membership: Membership
    var membershipAt: Option<LogId>
    var generation: nat

    ghost predicate Valid()
      reads this, decisions, decisions.ledger, decisions.cluster, decisions.cluster.usedNodeIds
    {
      decisions.Valid()
    }

    ghost function View(): Machine
      requires Valid()
      reads this, decisions, decisions.ledger, decisions.cluster, decisions.cluster.usedNodeIds, decisions.cluster.usedNodeIds.words
    {
      Machine(decisions.View(), lastApplied, membership, membershipAt, generation)
    }

    constructor (maxEntries: nat, maxBytes: nat)
      ensures Valid() && View() == Start(maxEntries, maxBytes)
      ensures fresh(decisions) && fresh(decisions.ledger) && fresh(decisions.cluster)
      ensures fresh(decisions.cluster.usedNodeIds) && fresh(decisions.cluster.usedNodeIds.words)
    {
      decisions := new DecisionState(maxEntries, maxBytes);
      lastApplied, membership, membershipAt, generation := None, NO_MEMBERS, None, 0;
    }

    method CheckAdmission(d: Descriptor) returns (e: Option<ApplyError>)
      requires Valid()
      ensures IsAddMembersRefusal(membership, decisions.cluster.nodes, d, e)
    {
      var rest := membership.nodes.Keys;
      while rest != {}
        invariant rest <= membership.nodes.Keys
        invariant forall id :: id in membership.nodes && id !in rest ==> !Offends(membership, decisions.cluster.nodes, d, id)
      {
        var id := PickLeast(rest);
        var refused := MemberRefusal(decisions.cluster.nodes, d, id, membership.nodes[id]);
        if refused.Some? {
          assert Offends(membership, decisions.cluster.nodes, d, id);
          return refused;
        }
        rest := rest - {id};
      }
      return None;
    }

    method CheckVoters(expected: nat) returns (e: Option<ApplyError>)
      requires Valid()
      ensures e == VotersRefusal(membership, decisions.cluster.nodes, expected)
    {
      var voters := Voters(membership);
      if |voters| != expected {
        return Some(VoterTargetMismatch);
      }
      var rest := voters;
      while rest != {}
        invariant rest <= voters
        invariant voters - rest <= ActiveIds(decisions.cluster.nodes)
      {
        var voter :| voter in rest;
        if !IsActive(decisions.cluster.nodes, voter) {
          return Some(VoterNotActive);
        }
        rest := rest - {voter};
      }
      return None;
    }

    method CheckCompletion(started: nat) returns (e: Option<ApplyError>)
      requires Valid()
      ensures e == CompletionRefusal(membership, decisions.cluster.View(), started)
    {
      if decisions.cluster.transition.None? {
        return Some(NoTransition);
      }
      var t := decisions.cluster.transition.value;
      if t.started != started {
        return Some(TransitionFenceMismatch);
      }
      var active := |ActiveIds(decisions.cluster.nodes)|;
      match t.kind
      case Add =>
        if t.nodeId !in membership.nodes {
          return Some(TransitionNodeNotMember);
        }
        if t.nodeId !in decisions.cluster.nodes {
          return Some(TransitionStateMismatch);
        }
        if decisions.cluster.nodes[t.nodeId].state.Active? {
          e := CheckVoters(VoterTarget(active));
          return;
        }
        return None;
      case Reweight =>
        if t.nodeId !in membership.nodes {
          return Some(TransitionNodeNotMember);
        }
        e := CheckVoters(VoterTarget(active));
      case Remove =>
        if t.nodeId in membership.nodes {
          return Some(RemovingNodeStillMember);
        }
        e := CheckVoters(VoterTarget(if active == 0 then 0 else active - 1));
    }

    method CheckCommand(command: Command) returns (e: Option<ApplyError>)
      requires Valid()
      ensures e == CommandRefusal(membership, decisions.cluster.View(), command)
    {
      ghost var c := decisions.cluster.View();
      if command.BeginAddNode? {
        e := CheckAdmission(command.descriptor);
        RefusalIsUnique(membership, c, command, e, CommandRefusal(membership, c, command));
        return;
      }
      var executor := ExecutorOf(command);
      if executor.Some? {
        return ExecutorRefusal(membership, decisions.cluster.nodes, executor.value);
      }
      if command.CompleteTransition? {
        e := CheckCompletion(command.started);
        return;
      }
      if command.RefreshJoining? && command.nodeId in membership.nodes {
        return Some(JoiningNodeAlreadyMember);
      }
      return None;
    }

    method ApplyNext(e: Entry) returns (r: Option<Response>)
      requires Valid()
      modifies this, decisions, decisions.ledger, decisions.cluster, decisions.cluster.usedNodeIds.words
      ensures Valid()
      ensures r.None? <==> ApplyEntry(old(View()), e).None?
      ensures r.None? ==> View() == old(View())
      ensures r.Some? ==> ApplyEntry(old(View()), e) == Some((View(), r.value))
    {
      var expected := Next(lastApplied);
      if e.at.index != expected {
        return None;
      }
      match e.payload
      case Blank =>
        lastApplied := Some(e.at);
        return Some(Noop);
      case Members(members) =>
        membership, membershipAt, lastApplied := members, Some(e.at), Some(e.at);
        return Some(Noop);
      case Normal(command) =>
        var refused := CheckCommand(command);
        var answer: Response;
        if refused.Some? {
          answer := Rejected(refused.value);
        } else {
          var verdict := decisions.Decide(e.at, command);
          answer := if verdict.Ok? then Applied(verdict.value) else Rejected(verdict.error);
        }
        lastApplied := Some(e.at);
        return Some(answer);
    }

    method ValidateClusterMembership() returns (ok: bool)
      requires Valid()
      ensures ok <==> MembershipValid(decisions.cluster.View(), membership)
    {
      var c := decisions.cluster;
      if c.nodes == map[] {
        return c.transition.None?;
      }
      ok := CheckMembers();
      if !ok {
        return false;
      }
      ok := CheckDescriptors();
      if !ok {
        return false;
      }
      if c.transition.Some? && c.transition.value.nodeId !in c.nodes {
        return false;
      }
      if VotersSettled(c.nodes, c.transition) {
        var refused := CheckVoters(VoterTarget(|ActiveIds(c.nodes)|));
        return refused.None?;
      }
      return true;
    }

    method CheckMembers() returns (ok: bool)
      requires Valid()
      ensures ok <==> MembersOk(decisions.cluster.nodes, membership)
    {
      var nodes := decisions.cluster.nodes;
      var rest := membership.nodes.Keys;
      while rest != {}
        invariant rest <= membership.nodes.Keys
        invariant forall id :: id in membership.nodes && id !in rest ==> id in nodes && nodes[id].address == membership.nodes[id]
      {
        var id :| id in rest;
        if id !in nodes || nodes[id].address != membership.nodes[id] {
          return false;
        }
        rest := rest - {id};
      }
      return true;
    }

    method CheckDescriptors() returns (ok: bool)
      requires Valid()
      ensures ok <==> forall id :: id in decisions.cluster.nodes ==> DescribedOk(decisions.cluster.View(), membership, id)
    {
      var c := decisions.cluster;
      var rest := c.nodes.Keys;
      while rest != {}
        invariant rest <= c.nodes.Keys
        invariant forall id :: id in c.nodes && id !in rest ==> DescribedOk(c.View(), membership, id)
      {
        var id :| id in rest;
        var d := c.nodes[id];
        var kind := if c.transition.Some? && c.transition.value.nodeId == id then Some(c.transition.value.kind) else None;
        var optional := (kind == Some(Add) && d.state.Joining?) || (kind == Some(Remove) && d.state.Active?);
        if d.nodeId != id || !c.usedNodeIds.Contains(id) || (id !in membership.nodes && !optional)
           || (d.state.Joining? && kind != Some(Add)) {
          assert !DescribedOk(c.View(), membership, id);
          return false;
        }
        rest := rest - {id};
      }
      return true;
    }
  }
}
