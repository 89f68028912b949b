/** The whole replicated state machine: one command at one committed log position. */
module DecisionMachine {
  import opened Prelude
  import opened LogIds
  import opened ConsensusTypes
  import opened BatchLedger
  import opened ClusterControl

  type Verdict = Result<ApplyResult, ApplyError>

  datatype Decisions = Decisions(clusterId: Option<Digest>, bootstrap: Bootstrap, ledger: Ledger, cluster: Cluster)

  const NO_NODES: Cluster := Cluster(map[], {}, None, None, None, None, 1, 1)

  function Empty(maxEntries: nat, maxBytes: nat): Decisions {
    Decisions(None, Missing, Ledger(maxEntries, maxBytes, None, None, map[], None, None), NO_NODES)
  }

  function InitializeStep(d: Decisions, clusterId: Digest): (Decisions, Verdict) {
    if clusterId == 0 then (d, Err(InvalidClusterId))
    else if d.clusterId.Some? && d.clusterId.value != clusterId then (d, Err(ClusterIdentityConflict))
    else if d.clusterId.Some? then (d, Ok(ClusterInitialized(clusterId)))
    else (d.(clusterId := Some(clusterId), cluster := d.cluster.(protocolVersion := 1, storageFormat := 1)),
          Ok(ClusterInitialized(clusterId)))
  }

  function BootstrapStep(d: Decisions, executor: NodeId, nomination: nat, version: nat, index: nat): (Decisions, Verdict) {
    if version != BOOTSTRAP_VERSION then (d, Err(UnsupportedBootstrapVersion))
    else if d.clusterId.None? then (d, Err(ClusterNotInitialized))
    else if RequireExecutor(d.ledger, executor, nomination).Some?
    then (d, Err(RequireExecutor(d.ledger, executor, nomination).value))
    else
      match d.bootstrap
      case Missing =>
        var completed := CompleteAt(version, index);
        (d.(bootstrap := completed), Ok(BootstrapCompleted(completed)))
      case CompleteAt(current, _) =>
        (d, if current == version then Ok(BootstrapCompleted(d.bootstrap)) else Err(BootstrapVersionConflict))
  }

  ghost function Apply(d: Decisions, at: LogId, command: Command): (Decisions, Verdict) {
    match command
    case NominateExecutor(executor) =>
      var (l, r) := Nominate(d.ledger, executor, at.index);
      (d.(ledger := l), r)
    case Begin(batch) =>
      var (l, r) := BeginStep(d.ledger, batch, at.index);
      (d.(ledger := l), r)
    case Commit(prepared) =>
      var (l, r) := CommitStep(d.ledger, prepared, at.index);
      (d.(ledger := l), r)
    case Abort(prepared) =>
      var (l, r) := AbortStep(d.ledger, prepared);
      (d.(ledger := l), r)
    case FinalizedThrough(executor, nomination, through) =>
      var (l, r) := FinalizeStep(d.ledger, executor, nomination, through);
      (d.(ledger := l), r)
    case InitializeCluster(clusterId) => InitializeStep(d, clusterId)
    case CompleteBootstrap(executor, nomination, version) => BootstrapStep(d, executor, nomination, version, at.index)
    case _ =>
      var (c, r) := ClusterStep(d.cluster, d.clusterId.Some?, command, at);
      (d.(cluster := c), r)
  }

  // ---- The mutable machine

  class DecisionState {
    const ledger: StateMachine
    const cluster: ClusterController
    var clusterId: Option<Digest>
    var bootstrap: Bootstrap

    ghost predicate Valid()
      reads this, ledger, cluster, cluster.usedNodeIds
    {
      ledger.Valid() && cluster.Valid()
    }

    ghost function View(): Decisions
      requires Valid()
      reads this, ledger, cluster, cluster.usedNodeIds, cluster.usedNodeIds.words
    {
      Decisions(clusterId, bootstrap, ledger.View(), cluster.View())
    }

    constructor (maxEntries: nat, maxBytes: nat)
      ensures Valid() && View() == Empty(maxEntries, maxBytes)
      ensures fresh(ledger) && fresh(cluster) && fresh(cluster.usedNodeIds) && fresh(cluster.usedNodeIds.words)
    {
      ledger := new StateMachine(maxEntries, maxBytes);
      cluster := new ClusterController();
      clusterId, bootstrap := None, Missing;
    }

    method Initialize(id: Digest) returns (r: Verdict)
      requires Valid()
      modifies this, cluster
      ensures Valid() && (View(), r) == InitializeStep(old(View()), id)
    {
      if id == 0 {
        return Err(InvalidClusterId);
      }
      if clusterId.Some? {
        if clusterId.value != id {
          return Err(ClusterIdentityConflict);
        }
        return Ok(ClusterInitialized(clusterId.value));
      }
      clusterId := Some(id);
      cluster.protocolVersion, cluster.storageFormat := 1, 1;
      return Ok(ClusterInitialized(id));
    }

    method FinishBootstrap(executor: NodeId, nomination: nat, version: nat, index: nat) returns (r: Verdict)
      requires Valid()
      modifies this
      ensures Valid() && (View(), r) == BootstrapStep(old(View()), executor, nomination, version, index)
    {
      if version != BOOTSTRAP_VERSION {
        return Err(UnsupportedBootstrapVersion);
      }
      if clusterId.None? {
        return Err(ClusterNotInitialized);
      }
      var refused := ledger.CheckExecutor(executor, nomination);
      if refused.Some? {
        return Err(refused.value);
      }
      match bootstrap
      case Missing =>
        bootstrap := CompleteAt(version, index);
        return Ok(BootstrapCompleted(bootstrap));
      case CompleteAt(current, _) =>
        return if current == version then Ok(BootstrapCompleted(bootstrap)) else Err(BootstrapVersionConflict);
    }

    method Decide(at: LogId, command: Command) returns (r: Verdict)
      requires Valid()
      modifies this, ledger, cluster, cluster.usedNodeIds.words
      ensures Valid() && (View(), r) == Apply(old(View()), at, command)
    {
      match command
      case NominateExecutor(executor) => r := ledger.NominateExecutor(executor, at.index);
      case Begin(batch) => r := ledger.BeginBatchAt(at.index, batch);
      case Commit(prepared) => r := ledger.CommitPreparedBatch(at.index, prepared);
      case Abort(prepared) => r := ledger.AbortPreparedBatch(prepared);
      case FinalizedThrough(executor, nomination, through) => r := ledger.AdvanceFinalization(executor, nomination, through);
      case InitializeCluster(id) => r := Initialize(id);
      case CompleteBootstrap(executor, nomination, version) => r := FinishBootstrap(executor, nomination, version, at.index);
      case _ => r := cluster.ApplyCluster(clusterId.Some?, command, at);
    }
  }

  // ---- What every command keeps

  ghost predicate DecisionsInv(d: Decisions, n: nat) {
    LedgerInv(d.ledger, n) && ClusterInv(d.cluster, n)
  }

  lemma InvLater(d: Decisions, n: nat)
    requires DecisionsInv(d, n)
    ensures DecisionsInv(d, n + 1)
  {
  }

  /** Every command keeps both halves, and a commit never meets a cursor that did not advance. */
  lemma ApplyKeepsInv(d: Decisions, at: LogId, command: Command)
    requires DecisionsInv(d, at.index)
    ensures DecisionsInv(Apply(d, at, command).0, at.index + 1)
    ensures command.Commit? && Apply(d, at, command).1.Err? ==>
              Apply(d, at, command).1.error !in {CommitCursorDidNotAdvance, CommitCursorNotAfterFinalization}
  {
    InvLater(d, at.index);
    if IsClusterCommand(command) {
      ClusterStepKeepsInv(d.cluster, d.clusterId.Some?, command, at);
    } else {
      LedgerCommandKeepsInv(d, at, command);
    }
  }

  lemma LedgerCommandKeepsInv(d: Decisions, at: LogId, command: Command)
    requires DecisionsInv(d, at.index) && DecisionsInv(d, at.index + 1) && !IsClusterCommand(command)
    ensures DecisionsInv(Apply(d, at, command).0, at.index + 1)
    ensures command.Commit? && Apply(d, at, command).1.Err? ==>
              Apply(d, at, command).1.error !in {CommitCursorDidNotAdvance, CommitCursorNotAfterFinalization}
  {
    var n := at.index;
    match command
    case NominateExecutor(executor) => NominateKeepsInv(d.ledger, executor, n);
    case Begin(batch) => BatchLedger.BeginKeepsInv(d.ledger, batch, n);
    case Commit(prepared) => CommitKeepsInv(d.ledger, prepared, n);
    case Abort(prepared) => AbortKeepsInv(d.ledger, prepared, n);
    case FinalizedThrough(executor, nomination, through) => FinalizeKeepsInv(d.ledger, executor, nomination, through, n);
    case InitializeCluster(_) =>
      UnchangedIsKept(d.cluster, d.cluster.(protocolVersion := 1, storageFormat := 1), n);
    case CompleteBootstrap(_, _, _) =>
  }
}
